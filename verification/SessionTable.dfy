/**
 * The 1024 slots of the session manager as a sequence of optional session ids: lowest-free allocation,
 * first-match lookup, the tunnel octet, and what every run of operations keeps.
 */
module SessionTable {
  import opened Bytes
  import opened Handshake

  const MAX_SESSIONS: nat := 1024

  type Table = t: seq<Option<u64>> | |t| == MAX_SESSIONS witness seq(MAX_SESSIONS, _ => None)

  function NoSessions(): Table {
    seq(MAX_SESSIONS, _ => None)
  }

  const EMPTY: Table := NoSessions()

  /** The index of the first true flag, or the length if there is none: every scan of the table. */
  function First(flags: seq<bool>): (i: nat)
    ensures i <= |flags| && (i < |flags| ==> flags[i])
    ensures forall j :: 0 <= j < i ==> !flags[j]
  {
    if flags == [] || flags[0] then 0 else 1 + First(flags[1..])
  }

  function FreeSlot(t: seq<Option<u64>>): (f: nat)
    ensures f <= |t| && (f < |t| ==> t[f].None?)
    ensures forall j :: 0 <= j < f ==> t[j].Some?
  {
    var flags := seq(|t|, i requires 0 <= i < |t| => t[i].None?);
    assert forall j :: 0 <= j < |t| ==> flags[j] == t[j].None?;
    First(flags)
  }

  /** First-match lookup: the lowest slot that holds the id, whether or not ids are unique. */
  function Find(t: seq<Option<u64>>, id: u64): (f: nat)
    ensures f <= |t| && (f < |t| <==> Some(id) in t)
    ensures f < |t| ==> t[f] == Some(id)
    ensures forall j :: 0 <= j < f ==> t[j] != Some(id)
  {
    var flags := seq(|t|, i requires 0 <= i < |t| => t[i] == Some(id));
    assert forall j :: 0 <= j < |t| ==> flags[j] == (t[j] == Some(id));
    First(flags)
  }

  /** (uint8_t)(i + 2). */
  function Octet(slot: nat): byte {
    (slot + 2) % 256
  }

  function Live(t: seq<Option<u64>>): nat {
    if t == [] then 0 else (if t[0].Some? then 1 else 0) + Live(t[1..])
  }

  datatype Op = Add(id: u64) | Remove(id: u64) | DisconnectAll

  function Apply(t: Table, op: Op): Table {
    match op
    case Add(id) => if FreeSlot(t) < MAX_SESSIONS then t[FreeSlot(t) := Some(id)] else t
    case Remove(id) => if Find(t, id) < MAX_SESSIONS then t[Find(t, id) := None] else t
    case DisconnectAll => EMPTY
  }

  function RunOps(t: Table, ops: seq<Op>): Table
    decreases |ops|
  {
    if ops == [] then t else RunOps(Apply(t, ops[0]), ops[1..])
  }

  function Max(a: nat, b: nat): nat { if a < b then b else a }

  /** The largest number of sessions that were live at once. */
  function Peak(t: Table, ops: seq<Op>): nat
    decreases |ops|
  {
    if ops == [] then Live(t) else Max(Live(t), Peak(Apply(t, ops[0]), ops[1..]))
  }

  // ---- counting ----

  lemma {:induction false} LiveAfterWrite(t: seq<Option<u64>>, i: nat, x: Option<u64>)
    requires i < |t|
    ensures Live(t[i := x]) == Live(t) - (if t[i].Some? then 1 else 0) + (if x.Some? then 1 else 0)
  {
    if i > 0 {
      LiveAfterWrite(t[1..], i - 1, x);
      assert t[i := x][1..] == t[1..][i - 1 := x];
    } else {
      assert t[0 := x][1..] == t[1..];
    }
  }

  lemma {:induction false} LiveAtLeast(t: seq<Option<u64>>, k: nat)
    requires k <= |t| && forall i :: 0 <= i < k ==> t[i].Some?
    ensures Live(t) >= k
  {
    if k > 0 {
      LiveAtLeast(t[1..], k - 1);
    }
  }

  lemma {:induction false} LiveBelow(t: seq<Option<u64>>, k: nat)
    requires forall i :: 0 <= i < |t| && t[i].Some? ==> i < k
    ensures Live(t) <= k
  {
    if t != [] && k > 0 {
      LiveBelow(t[1..], k - 1);
    } else if t != [] {
      LiveBelow(t[1..], 0);
    }
  }

  lemma {:induction false} LiveAtMost(t: seq<Option<u64>>)
    ensures Live(t) <= |t|
    ensures Live(t) == |t| <==> forall i :: 0 <= i < |t| ==> t[i].Some?
    ensures Live(t) == 0 <==> forall i :: 0 <= i < |t| ==> t[i].None?
  {
    if t != [] {
      LiveAtMost(t[1..]);
      assert forall i :: 1 <= i < |t| ==> t[i] == t[1..][i - 1];
    }
  }

  /** The lowest free slot is no higher than the number of live sessions; there is none exactly when all are live. */
  lemma FreeSlotBound(t: seq<Option<u64>>)
    ensures FreeSlot(t) <= Live(t)
    ensures FreeSlot(t) == |t| <==> Live(t) == |t|
  {
    var f := FreeSlot(t);
    LiveAtLeast(t, f);
    LiveAtMost(t);
  }

  // ---- the allocation bound ----

  ghost predicate AllBelow(t: seq<Option<u64>>, bound: nat) {
    forall i :: 0 <= i < |t| && t[i].Some? ==> i < bound
  }

  lemma {:induction false} BoundKept(t: Table, ops: seq<Op>, bound: nat)
    requires AllBelow(t, bound) && Live(t) <= bound
    ensures AllBelow(RunOps(t, ops), Max(bound, Peak(t, ops)))
    ensures Live(RunOps(t, ops)) <= Peak(t, ops)
    decreases |ops|
  {
    if ops != [] {
      var t' := Apply(t, ops[0]);
      LiveAtMost(t');
      if ops[0].Add? && FreeSlot(t) < MAX_SESSIONS {
        FreeSlotBound(t);
        LiveAfterWrite(t, FreeSlot(t), Some(ops[0].id));
      } else if ops[0].Remove? && Find(t, ops[0].id) < MAX_SESSIONS {
        LiveAfterWrite(t, Find(t, ops[0].id), None);
      } else {
        LiveAtMost(EMPTY);
      }
      BoundKept(t', ops[1..], Max(bound, Live(t')));
      PeakCoversStart(t', ops[1..]);
    }
  }

  lemma PeakCoversStart(t: Table, ops: seq<Op>)
    ensures Live(t) <= Peak(t, ops)
  {
  }

  /** The peak is the largest of the numbers of live sessions on the way. */
  lemma {:induction false} PeakIsLargest(t: Table, ops: seq<Op>) returns (k: nat)
    ensures k <= |ops| && Live(RunOps(t, ops[..k])) == Peak(t, ops)
    ensures forall i :: 0 <= i <= |ops| ==> Live(RunOps(t, ops[..i])) <= Peak(t, ops)
    decreases |ops|
  {
    k := 0;
    assert RunOps(t, ops[..0]) == t;
    if ops != [] {
      var j := PeakIsLargest(Apply(t, ops[0]), ops[1..]);
      forall i | 1 <= i <= |ops| ensures RunOps(t, ops[..i]) == RunOps(Apply(t, ops[0]), ops[1..][..i - 1]) {
        assert ops[..i][1..] == ops[1..][..i - 1];
      }
      if Live(t) < Peak(t, ops) {
        k := j + 1;
      }
    }
  }

  /** After any operations, every live session's slot is below the peak number of live sessions. */
  lemma AllocationBound(ops: seq<Op>)
    ensures AllBelow(RunOps(EMPTY, ops), Peak(EMPTY, ops))
  {
    LiveAtMost(EMPTY);
    BoundKept(EMPTY, ops, 0);
  }

  /** Two slots share an octet exactly when they are congruent modulo 256. */
  lemma OctetAliasing(i: nat, j: nat)
    ensures Octet(i) == Octet(j) <==> i % 256 == j % 256
  {
  }

  /** The slots with octet o: there are four. */
  lemma FourShareAnOctet(o: byte)
    ensures var r := (o as int + 254) % 256;
            (set i | 0 <= i < MAX_SESSIONS && Octet(i) == o) == {r, r + 256, r + 512, r + 768}
  {
    var r := (o as int + 254) % 256;
    forall i: nat | i < MAX_SESSIONS ensures Octet(i) == o <==> i in {r, r + 256, r + 512, r + 768} {
      assert i % 256 == r <==> i == r || i == r + 256 || i == r + 512 || i == r + 768;
    }
  }

  /** Live octets are pairwise distinct, inside the subnet, and not the server's. */
  ghost predicate Usable(t: Table) {
    && (forall i: nat, j: nat :: i < j < |t| && t[i].Some? && t[j].Some? ==> Octet(i) != Octet(j))
    && (forall i: nat :: i < |t| && t[i].Some? ==> 2 <= Octet(i) <= 254)
  }

  lemma OctetsBelow(t: Table)
    requires AllBelow(t, 253)
    ensures Usable(t)
  {
    forall i: nat, j: nat | i < j < |t| && t[i].Some? && t[j].Some? ensures Octet(i) != Octet(j) {
      assert i < j < 253;
    }
  }

  /**
   * While no more than 253 sessions were ever live at once, live octets are pairwise distinct and in 2..254,
   * so that none is the server's own 1.
   */
  lemma OctetsAreUsable(ops: seq<Op>)
    requires Peak(EMPTY, ops) <= 253
    ensures Usable(RunOps(EMPTY, ops))
  {
    AllocationBound(ops);
    OctetsBelow(RunOps(EMPTY, ops));
  }

  function Adds(n: u64): seq<Op> {
    if n == 0 then [] else Adds(n - 1) + [Add(n)]
  }

  lemma {:induction false} RunOneMore(t: Table, ops: seq<Op>, op: Op)
    ensures RunOps(t, ops + [op]) == Apply(RunOps(t, ops), op)
    ensures Peak(t, ops + [op]) == Max(Peak(t, ops), Live(RunOps(t, ops + [op])))
    decreases |ops|
  {
    if ops != [] {
      assert (ops + [op])[1..] == ops[1..] + [op];
      RunOneMore(Apply(t, ops[0]), ops[1..], op);
    } else {
      assert [op][1..] == [];
      assert RunOps(Apply(t, op), []) == Apply(t, op);
      assert ops + [op] == [op];
    }
  }

  lemma {:induction false} AddsFill(n: u64)
    requires n <= 256
    ensures forall i :: 0 <= i < MAX_SESSIONS ==> (RunOps(EMPTY, Adds(n))[i].Some? <==> i < n)
    ensures Live(RunOps(EMPTY, Adds(n))) == n && Peak(EMPTY, Adds(n)) == n
  {
    LiveAtMost(EMPTY);
    if n > 0 {
      AddsFill(n - 1);
      RunOneMore(EMPTY, Adds(n - 1), Add(n));
      AddAtEnd(RunOps(EMPTY, Adds(n - 1)), n - 1, n);
    }
  }

  lemma AddAtEnd(t: Table, n: nat, id: u64)
    requires n < MAX_SESSIONS && (forall i :: 0 <= i < MAX_SESSIONS ==> (t[i].Some? <==> i < n))
    ensures Apply(t, Add(id)) == t[n := Some(id)] && Live(Apply(t, Add(id))) == Live(t) + 1
  {
    assert t[n].None? && FreeSlot(t) == n;
    LiveAfterWrite(t, n, Some(id));
  }

  /** The bound is sharp: one more session takes 255, and the 256th takes the server's own octet. */
  lemma BeyondTheBound()
    ensures var t := RunOps(EMPTY, Adds(254)); t[253].Some? && Octet(253) == 255 && Peak(EMPTY, Adds(254)) == 254
    ensures var t := RunOps(EMPTY, Adds(256)); t[255].Some? && Octet(255) == 1
  {
    AddsFill(254);
    AddsFill(256);
  }

  /** Exactly when an add keeps them so: a slot below 253 is free, and no live slot is congruent to the lowest one. */
  lemma AddKeepsUsable(t: Table, id: u64)
    requires Usable(t)
    ensures Usable(Apply(t, Add(id))) <==>
              && FreeSlot(t) < 253
              && forall j: nat :: j < |t| && t[j].Some? ==> j % 256 != FreeSlot(t)
  {
    var f := FreeSlot(t);
    assert Octet(253) == 255;
    assert f <= 253;
    assert Apply(t, Add(id)) == t[f := Some(id)];
    if f < 253 && forall j: nat :: j < |t| && t[j].Some? ==> j % 256 != f {
      FillKeepsUsable(t, f, id);
    }
    if Usable(t[f := Some(id)]) {
      UsableHasNoAlias(t, f, id);
    }
  }

  lemma FillKeepsUsable(t: Table, f: nat, id: u64)
    requires Usable(t) && f < 253 && forall j: nat :: j < |t| && t[j].Some? ==> j % 256 != f
    ensures Usable(t[f := Some(id)])
  {
    var t' := t[f := Some(id)];
    forall i: nat, j: nat | i < j < |t'| && t'[i].Some? && t'[j].Some? ensures Octet(i) != Octet(j) {
      OctetAliasing(i, j);
    }
  }

  lemma UsableHasNoAlias(t: Table, f: nat, id: u64)
    requires f <= 253 && t[f].None? && Usable(t[f := Some(id)])
    ensures f < 253 && forall j: nat :: j < |t| && t[j].Some? ==> j % 256 != f
  {
    var t' := t[f := Some(id)];
    assert t'[f].Some? && Octet(253) == 255;
    forall j: nat | j < |t| && t[j].Some? ensures j % 256 != f {
      assert t'[j].Some?;
      OctetAliasing(j, f);
    }
  }

  // ---- the table as a partial map, while ids are fresh ----

  ghost predicate Represents(t: Table, m: map<u64, nat>) {
    && (forall i: nat :: i < |t| && t[i].Some? ==> t[i].value in m && m[t[i].value] == i)
    && (forall id :: id in m ==> m[id] < |t| && t[m[id]] == Some(id))
  }

  /** The same operation on the map. */
  ghost function MapApply(t: Table, m: map<u64, nat>, op: Op): map<u64, nat> {
    match op
    case Add(id) => if |m| < MAX_SESSIONS then m[id := FreeSlot(t)] else m
    case Remove(id) => m - {id}
    case DisconnectAll => map[]
  }

  lemma FindIsLookup(t: Table, m: map<u64, nat>, id: u64)
    requires Represents(t, m)
    ensures Find(t, id) == if id in m then m[id] else MAX_SESSIONS
  {
    if id in m {
      assert t[m[id]] == Some(id);
    }
  }

  lemma {:induction false} LiveIsSize(t: Table, m: map<u64, nat>)
    requires Represents(t, m)
    ensures Live(t) == |m|
    decreases |m|
  {
    LiveAtMost(t);
    if m != map[] {
      var id :| id in m;
      var t', m' := t[m[id] := None], m - {id};
      assert m'.Keys == m.Keys - {id};
      LiveAfterWrite(t, m[id], None);
      LiveIsSize(t', m');
    }
  }

  /** Every operation on the slots is the corresponding operation on the map, as long as added ids are fresh. */
  lemma TableRefinesMap(t: Table, m: map<u64, nat>, op: Op)
    requires Represents(t, m) && (op.Add? ==> op.id !in m)
    ensures Represents(Apply(t, op), MapApply(t, m, op))
    ensures Live(Apply(t, op)) == |MapApply(t, m, op)|
  {
    match op {
      case Add(id) => AddRefines(t, m, id);
      case Remove(id) => RemoveRefines(t, m, id);
      case DisconnectAll =>
    }
    LiveIsSize(Apply(t, op), MapApply(t, m, op));
  }

  lemma AddRefines(t: Table, m: map<u64, nat>, id: u64)
    requires Represents(t, m) && id !in m
    ensures Represents(Apply(t, Add(id)), MapApply(t, m, Add(id)))
  {
    LiveIsSize(t, m);
    FreeSlotBound(t);
    LiveAtMost(t);
  }

  lemma RemoveRefines(t: Table, m: map<u64, nat>, id: u64)
    requires Represents(t, m)
    ensures Represents(Apply(t, Remove(id)), MapApply(t, m, Remove(id)))
  {
    FindIsLookup(t, m, id);
  }

  ghost function MapRun(t: Table, m: map<u64, nat>, ops: seq<Op>): map<u64, nat>
    decreases |ops|
  {
    if ops == [] then m else MapRun(Apply(t, ops[0]), MapApply(t, m, ops[0]), ops[1..])
  }

  /** No id is added while it is live. */
  ghost predicate FreshIds(t: Table, m: map<u64, nat>, ops: seq<Op>)
    decreases |ops|
  {
    ops == [] ||
    ((ops[0].Add? ==> ops[0].id !in m) && FreshIds(Apply(t, ops[0]), MapApply(t, m, ops[0]), ops[1..]))
  }

  /** Over any operations, the slots represent the map, and as many are occupied as the map is large. */
  lemma {:induction false} RunRefinesMap(t: Table, m: map<u64, nat>, ops: seq<Op>)
    requires Represents(t, m) && FreshIds(t, m, ops)
    ensures Represents(RunOps(t, ops), MapRun(t, m, ops)) && Live(RunOps(t, ops)) == |MapRun(t, m, ops)|
    decreases |ops|
  {
    if ops == [] {
      LiveIsSize(t, m);
    } else {
      TableRefinesMap(t, m, ops[0]);
      RunRefinesMap(Apply(t, ops[0]), MapApply(t, m, ops[0]), ops[1..]);
    }
  }
}
