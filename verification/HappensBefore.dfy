/**
 Why the vector clocks of MemoryModel can be trusted: they decide exactly the happens-before relation of section
 6.9.2 of ISO/IEC 14882:2020, and the race flag is set exactly when an execution contains a data race.
 */
module HappensBefore {
  import opened MemoryModel

  /** One operation of an execution, in the order of the execution.  A read-modify-write is a load and a store
      with nothing in between. */
  datatype Op =
    | OpLoad(tid: nat, atom: nat)
    | OpStore(tid: nat, atom: nat, v: int)
    | OpRead(tid: nat, cell: nat)
    | OpAssign(tid: nat, cell: nat, v: int)
  {
    predicate Plain() {
      OpRead? || OpAssign?
    }
  }

  // ----- The relation, from its definition -----

  /** Load `j` reads the value written by store `i`. */
  predicate SynchronizesWith(ops: seq<Op>, i: nat, j: nat)
    requires i < j < |ops|
  {
    && ops[i].OpStore? && ops[j].OpLoad? && ops[i].atom == ops[j].atom
    && forall k :: i < k < j ==> !(ops[k].OpStore? && ops[k].atom == ops[j].atom)
  }

  /** Sequenced before, or synchronizes with. */
  predicate Direct(ops: seq<Op>, i: nat, j: nat)
    requires i < j < |ops|
  {
    ops[i].tid == ops[j].tid || SynchronizesWith(ops, i, j)
  }

  /** The transitive closure of `Direct`. */
  predicate HB(ops: seq<Op>, i: nat, j: nat)
    requires i < j < |ops|
    decreases j
  {
    Direct(ops, i, j) || exists k: nat :: i < k < j && HB(ops, i, k) && Direct(ops, k, j)
  }

  predicate Conflict(a: Op, b: Op) {
    a.Plain() && b.Plain() && a.cell == b.cell && (a.OpAssign? || b.OpAssign?)
  }

  /** Access `j` and an earlier access conflict, and neither happens before the other. */
  predicate RacesWithEarlier(ops: seq<Op>, j: nat)
    requires j < |ops|
  {
    exists i: nat :: i < j && Conflict(ops[i], ops[j]) && !HB(ops, i, j)
  }

  predicate DataRace(ops: seq<Op>) {
    exists j: nat :: j < |ops| && RacesWithEarlier(ops, j)
  }

  // ----- The clocks -----

  predicate InRange(m: Memory, op: Op) {
    op.tid < |m.clocks| && if op.Plain() then op.cell < |m.cells| else op.atom < |m.atoms|
  }

  predicate AllInRange(m: Memory, ops: seq<Op>) {
    forall i :: 0 <= i < |ops| ==> InRange(m, ops[i])
  }

  function Do(m: Memory, op: Op): Memory
    requires Valid(m) && InRange(m, op)
  {
    match op
    case OpLoad(t, a) => Load(m, t, a)
    case OpStore(t, a, v) => Store(m, t, a, v)
    case OpRead(t, x) => Read(m, t, x)
    case OpAssign(t, x, v) => Assign(m, t, x, v)
  }

  /** The memory after the first `n` operations. */
  function After(m: Memory, ops: seq<Op>, n: nat): (r: Memory)
    requires Valid(m) && AllInRange(m, ops) && n <= |ops|
    ensures Valid(r) && |r.clocks| == |m.clocks| && |r.cells| == |m.cells| && |r.atoms| == |m.atoms|
  {
    if n == 0 then m else Do(After(m, ops, n - 1), ops[n - 1])
  }

  /** The epoch stamped on operation `i`. */
  function Stamp(m: Memory, ops: seq<Op>, i: nat): Epoch
    requires Valid(m) && AllInRange(m, ops) && i < |ops|
  {
    Now(After(m, ops, i), ops[i].tid)
  }

  lemma DoFresh(m: Memory, op: Op)
    requires Valid(m) && Fresh(m) && InRange(m, op)
    ensures Fresh(Do(m, op))
  {
    match op {
      case OpLoad(t, a) => LoadFresh(m, t, a);
      case OpStore(t, a, v) => StoreFresh(m, t, a, v);
      case OpRead(t, x) =>
      case OpAssign(t, x, v) =>
    }
  }

  lemma DoStamped(m: Memory, op: Op)
    requires Valid(m) && Fresh(m) && InRange(m, op) && Stamped(m)
    ensures Stamped(Do(m, op))
  {
    match op {
      case OpLoad(t, a) => LoadFresh(m, t, a);
      case OpStore(t, a, v) => StoreFresh(m, t, a, v);
      case OpRead(t, x) => AccessFresh(m, t, x, 0);
      case OpAssign(t, x, v) => AccessFresh(m, t, x, v);
    }
  }

  /** Clocks only grow. */
  predicate Grown(m: Memory, r: Memory) {
    |m.clocks| == |r.clocks| && forall t :: 0 <= t < |m.clocks| ==> Leq(m.clocks[t], r.clocks[t])
  }

  lemma DoGrows(m: Memory, op: Op)
    requires Valid(m) && InRange(m, op)
    ensures Grown(m, Do(m, op))
  {
  }

  lemma {:induction false} AfterFresh(m: Memory, ops: seq<Op>, n: nat)
    requires Valid(m) && Fresh(m) && AllInRange(m, ops) && n <= |ops|
    ensures Fresh(After(m, ops, n))
    ensures Stamped(m) ==> Stamped(After(m, ops, n))
  {
    if n > 0 {
      AfterFresh(m, ops, n - 1);
      DoFresh(After(m, ops, n - 1), ops[n - 1]);
      if Stamped(After(m, ops, n - 1)) {
        DoStamped(After(m, ops, n - 1), ops[n - 1]);
      }
    }
  }

  lemma {:induction false} AfterGrows(m: Memory, ops: seq<Op>, k: nat, n: nat)
    requires Valid(m) && AllInRange(m, ops) && k <= n <= |ops|
    ensures Grown(After(m, ops, k), After(m, ops, n))
  {
    if k < n {
      AfterGrows(m, ops, k, n - 1);
      DoGrows(After(m, ops, n - 1), ops[n - 1]);
    }
  }

  /** Operation `i` is, or happens before, one of the first `n` operations, and that one is by thread `t`. */
  predicate Reached(ops: seq<Op>, n: nat, i: nat, t: nat)
    requires i < n <= |ops|
  {
    exists j: nat :: i <= j < n && ops[j].tid == t && (i == j || HB(ops, i, j))
  }

  /** The last store to `a` among the first `n` operations, or `n` if there is none. */
  function LastStore(ops: seq<Op>, n: nat, a: nat): (j: nat)
    requires n <= |ops|
    ensures j <= n
    ensures j < n ==> ops[j].OpStore? && ops[j].atom == a
    ensures forall k :: 0 <= k < n && ops[k].OpStore? && ops[k].atom == a ==> k <= j < n
  {
    if n == 0 then 0
    else if ops[n - 1].OpStore? && ops[n - 1].atom == a then n - 1
    else var j := LastStore(ops, n - 1, a); if j == n - 1 then n else j
  }

  /** Operation `i` happens before the last store to `a` among the first `n` operations. */
  predicate Sent(ops: seq<Op>, n: nat, i: nat, a: nat)
    requires i < n <= |ops|
  {
    var j := LastStore(ops, n, a);
    i < j < n && HB(ops, i, j)
  }

  /** Operation `n` is reached from `i` through its own thread, or through the store a load reads from. */
  lemma HBStep(ops: seq<Op>, n: nat, i: nat)
    requires i < n < |ops| && ops[i].Plain()
    ensures HB(ops, i, n) <==>
              Reached(ops, n, i, ops[n].tid) || (ops[n].OpLoad? && Sent(ops, n, i, ops[n].atom))
  {
    var t := ops[n].tid;
    if HB(ops, i, n) {
      if Direct(ops, i, n) {
        assert ops[i].tid == t;
        assert Reached(ops, n, i, t);
      } else {
        var k: nat :| i < k < n && HB(ops, i, k) && Direct(ops, k, n);
        if ops[k].tid == t {
          assert Reached(ops, n, i, t);
        } else {
          assert SynchronizesWith(ops, k, n);
          assert LastStore(ops, n, ops[n].atom) == k;
        }
      }
    }
    if Reached(ops, n, i, t) {
      var j: nat :| i <= j < n && ops[j].tid == t && (i == j || HB(ops, i, j));
      assert Direct(ops, j, n);
    }
    if ops[n].OpLoad? && Sent(ops, n, i, ops[n].atom) {
      var j := LastStore(ops, n, ops[n].atom);
      assert SynchronizesWith(ops, j, n);
    }
  }

  lemma ReachedStep(ops: seq<Op>, n: nat, i: nat, t: nat)
    requires i < n < |ops|
    ensures Reached(ops, n + 1, i, t) <==> Reached(ops, n, i, t) || (ops[n].tid == t && HB(ops, i, n))
  {
    if Reached(ops, n + 1, i, t) {
      var j: nat :| i <= j < n + 1 && ops[j].tid == t && (i == j || HB(ops, i, j));
      if j < n {
        assert Reached(ops, n, i, t);
      }
    }
    if Reached(ops, n, i, t) {
      var j: nat :| i <= j < n && ops[j].tid == t && (i == j || HB(ops, i, j));
      assert i <= j < n + 1;
    }
    if ops[n].tid == t && HB(ops, i, n) {
      assert Reached(ops, n + 1, i, t);
    }
  }

  /** The clocks after `n` operations know operation `i` exactly when it has got there. */
  ghost predicate Decided(m: Memory, ops: seq<Op>, n: nat, i: nat)
    requires Valid(m) && AllInRange(m, ops) && i < n <= |ops|
  {
    var r := After(m, ops, n);
    && (forall t: nat :: t < |m.clocks| ==> (Knows(r.clocks[t], Stamp(m, ops, i)) <==> Reached(ops, n, i, t)))
    && (forall a: nat :: a < |m.atoms| ==> (Knows(r.atoms[a].clock, Stamp(m, ops, i)) <==> Sent(ops, n, i, a)))
  }

  lemma DecidedFirst(m: Memory, ops: seq<Op>, i: nat)
    requires Valid(m) && Fresh(m) && AllInRange(m, ops) && i < |ops| && ops[i].Plain()
    ensures Decided(m, ops, i + 1, i)
  {
    AfterFresh(m, ops, i);
    var r, e := After(m, ops, i + 1), Stamp(m, ops, i);
    forall t: nat | t < |m.clocks| ensures Knows(r.clocks[t], e) <==> Reached(ops, i + 1, i, t) {
    }
  }

  lemma DecidedPlain(m: Memory, ops: seq<Op>, n: nat, i: nat)
    requires Valid(m) && AllInRange(m, ops) && i < n < |ops| && ops[i].Plain() && ops[n].Plain()
    requires Decided(m, ops, n, i)
    ensures Decided(m, ops, n + 1, i)
  {
    HBStep(ops, n, i);
    forall t: nat | t < |m.clocks| ensures Reached(ops, n + 1, i, t) <==> Reached(ops, n, i, t) {
      ReachedStep(ops, n, i, t);
    }
  }

  lemma DecidedLoad(m: Memory, ops: seq<Op>, n: nat, i: nat)
    requires Valid(m) && AllInRange(m, ops) && i < n < |ops| && ops[i].Plain() && ops[n].OpLoad?
    requires Decided(m, ops, n, i)
    ensures Decided(m, ops, n + 1, i)
  {
    HBStep(ops, n, i);
    var e := Stamp(m, ops, i);
    var r, r' := After(m, ops, n), After(m, ops, n + 1);
    forall t: nat | t < |m.clocks| ensures Knows(r'.clocks[t], e) <==> Reached(ops, n + 1, i, t) {
      ReachedStep(ops, n, i, t);
    }
  }

  lemma DecidedStore(m: Memory, ops: seq<Op>, n: nat, i: nat)
    requires Valid(m) && Fresh(m) && AllInRange(m, ops) && i < n < |ops| && ops[i].Plain() && ops[n].OpStore?
    requires Decided(m, ops, n, i)
    ensures Decided(m, ops, n + 1, i)
  {
    HBStep(ops, n, i);
    var e, u := Stamp(m, ops, i), ops[n].tid;
    var r, r' := After(m, ops, n), After(m, ops, n + 1);
    AfterGrows(m, ops, i, n);
    assert Leq(After(m, ops, i).clocks[ops[i].tid], r.clocks[ops[i].tid]);
    forall t: nat | t < |m.clocks| ensures Knows(r'.clocks[t], e) <==> Reached(ops, n + 1, i, t) {
      ReachedStep(ops, n, i, t);
      assert t == u ==> (Knows(r'.clocks[t], e) <==> Knows(r.clocks[t], e));
    }
  }

  lemma DecidedStep(m: Memory, ops: seq<Op>, n: nat, i: nat)
    requires Valid(m) && Fresh(m) && AllInRange(m, ops) && i < n < |ops| && ops[i].Plain() && Decided(m, ops, n, i)
    ensures Decided(m, ops, n + 1, i)
  {
    if ops[n].OpLoad? {
      DecidedLoad(m, ops, n, i);
    } else if ops[n].OpStore? {
      DecidedStore(m, ops, n, i);
    } else {
      DecidedPlain(m, ops, n, i);
    }
  }

  lemma {:induction false} ClocksDecide(m: Memory, ops: seq<Op>, n: nat, i: nat)
    requires Valid(m) && Fresh(m) && AllInRange(m, ops) && i < n <= |ops| && ops[i].Plain()
    ensures Decided(m, ops, n, i)
  {
    DecidedFirst(m, ops, i);
    for k := i + 1 to n
      invariant Decided(m, ops, k, i)
    {
      DecidedStep(m, ops, k, i);
    }
  }

  /** For plain accesses the clocks decide happens-before, in both directions. */
  lemma KnowsIffHappensBefore(m: Memory, ops: seq<Op>, i: nat, j: nat)
    requires Valid(m) && Fresh(m) && AllInRange(m, ops) && i < j < |ops| && ops[i].Plain() && ops[j].Plain()
    ensures Knows(After(m, ops, j).clocks[ops[j].tid], Stamp(m, ops, i)) <==> HB(ops, i, j)
  {
    ClocksDecide(m, ops, j, i);
    HBStep(ops, j, i);
  }

  // ----- The race flag -----

  /** Clock `c` knows the accesses to a cell, or at least the writes. */
  predicate KnowsAll(c: Clock, cell: Cell, writesOnly: bool) {
    KnowsWrites(c, cell) && (writesOnly || forall e :: e in cell.readAt ==> Knows(c, e))
  }

  /** Operation `op` is an access to cell `x`, and a write if only those count. */
  predicate Touches(op: Op, x: nat, writesOnly: bool) {
    op.Plain() && op.cell == x && (writesOnly ==> op.OpAssign?)
  }

  lemma CellStep(m: Memory, op: Op, x: nat, c: Clock, writesOnly: bool)
    requires Valid(m) && InRange(m, op) && x < |m.cells|
    ensures KnowsAll(c, Do(m, op).cells[x], writesOnly) <==>
              KnowsAll(c, m.cells[x], writesOnly) && (Touches(op, x, writesOnly) ==> Knows(c, Now(m, op.tid)))
  {
    if op.OpAssign? && op.cell == x {
      var w := m.cells[x].writes;
      assert Do(m, op).cells[x].writes == w + [Write(op.v, Now(m, op.tid))];
      assert forall i :: 0 <= i < |w| ==> (w + [Write(op.v, Now(m, op.tid))])[i] == w[i];
      assert (w + [Write(op.v, Now(m, op.tid))])[|w|].at == Now(m, op.tid);
    }
  }

  /** Clock `c` knows the accesses to cell `x` among the first `n` operations. */
  predicate KnowsStamps(m: Memory, ops: seq<Op>, n: nat, x: nat, c: Clock, writesOnly: bool)
    requires Valid(m) && AllInRange(m, ops) && n <= |ops|
  {
    forall i: nat :: i < n && Touches(ops[i], x, writesOnly) ==> Knows(c, Stamp(m, ops, i))
  }

  /** The cells after `n` operations hold the stamps of the accesses made. */
  lemma {:induction false} CellStamps(m: Memory, ops: seq<Op>, n: nat, x: nat, c: Clock, writesOnly: bool)
    requires Valid(m) && AllInRange(m, ops) && n <= |ops| && x < |m.cells|
    requires KnowsCell(c, m.cells[x])
    ensures KnowsAll(c, After(m, ops, n).cells[x], writesOnly) <==> KnowsStamps(m, ops, n, x, c, writesOnly)
  {
    if n > 0 {
      CellStamps(m, ops, n - 1, x, c, writesOnly);
      CellStep(After(m, ops, n - 1), ops[n - 1], x, c, writesOnly);
    }
  }

  /** Nothing is known yet that not all threads know. */
  ghost predicate Quiet(m: Memory) {
    Valid(m) && Fresh(m) && !m.raced && forall t :: 0 <= t < |m.clocks| ==> Covers(m.clocks[t], m.cells)
  }

  lemma BeginQuiet(n: nat, plain: seq<int>, atomic: seq<int>)
    ensures Quiet(Begin(n, plain, atomic))
  {
    BeginCovers(n, plain, atomic);
    BeginFresh(n, plain, atomic);
  }

  /** The race flag is set by operation `j` exactly when an earlier conflicting access is not ordered before it. */
  lemma FlagStep(m: Memory, ops: seq<Op>, j: nat)
    requires Quiet(m) && AllInRange(m, ops) && j < |ops|
    ensures After(m, ops, j + 1).raced <==> After(m, ops, j).raced || RacesWithEarlier(ops, j)
  {
    var t := ops[j].tid;
    if ops[j].Plain() {
      AfterGrows(m, ops, 0, j);
      assert Leq(m.clocks[t], After(m, ops, j).clocks[t]);
      LeqCovers(m.clocks[t], After(m, ops, j).clocks[t], m.cells);
      CellStamps(m, ops, j, ops[j].cell, After(m, ops, j).clocks[t], ops[j].OpRead?);
      forall i: nat | i < j && ops[i].Plain()
        ensures Knows(After(m, ops, j).clocks[t], Stamp(m, ops, i)) <==> HB(ops, i, j)
      {
        KnowsIffHappensBefore(m, ops, i, j);
      }
    }
  }

  predicate RacesUpTo(ops: seq<Op>, n: nat)
    requires n <= |ops|
  {
    exists j: nat :: j < n && RacesWithEarlier(ops, j)
  }

  lemma RacesOneMore(ops: seq<Op>, n: nat)
    requires n < |ops|
    ensures RacesUpTo(ops, n + 1) <==> RacesUpTo(ops, n) || RacesWithEarlier(ops, n)
  {
  }

  lemma {:induction false} FlagIffRaceUpTo(m: Memory, ops: seq<Op>, n: nat)
    requires Quiet(m) && AllInRange(m, ops) && n <= |ops|
    ensures After(m, ops, n).raced <==> RacesUpTo(ops, n)
  {
    for k := 0 to n
      invariant After(m, ops, k).raced <==> RacesUpTo(ops, k)
    {
      FlagStep(m, ops, k);
      RacesOneMore(ops, k);
    }
  }

  /** The race flag is set exactly when the execution contains a data race. */
  lemma FlagIffDataRace(m: Memory, ops: seq<Op>)
    requires Quiet(m) && AllInRange(m, ops)
    ensures After(m, ops, |ops|).raced <==> DataRace(ops)
  {
    FlagIffRaceUpTo(m, ops, |ops|);
    assert RacesUpTo(ops, |ops|) <==> DataRace(ops);
  }

  lemma {:induction false} AfterPrefix(m: Memory, ops: seq<Op>, more: seq<Op>, n: nat)
    requires Valid(m) && AllInRange(m, ops + more) && n <= |ops|
    ensures AllInRange(m, ops)
    ensures After(m, ops + more, n) == After(m, ops, n)
  {
    forall i | 0 <= i < |ops| ensures InRange(m, ops[i]) {
      assert (ops + more)[i] == ops[i];
    }
    if n > 0 {
      AfterPrefix(m, ops, more, n - 1);
    }
  }

  lemma AfterOneMore(m: Memory, ops: seq<Op>, op: Op)
    requires Valid(m) && AllInRange(m, ops) && InRange(m, op)
    ensures AllInRange(m, ops + [op])
    ensures After(m, ops + [op], |ops| + 1) == Do(After(m, ops, |ops|), op)
  {
    AfterPrefix(m, ops, [op], |ops|);
  }

  lemma AfterAppended(m: Memory, ops: seq<Op>, r: Memory, op: Op)
    requires Valid(m) && AllInRange(m, ops) && InRange(m, op) && After(m, ops, |ops|) == r
    ensures Valid(r) && InRange(r, op)
    ensures AllInRange(m, ops + [op]) && After(m, ops + [op], |ops + [op]|) == Do(r, op)
  {
    AfterOneMore(m, ops, op);
  }

  lemma AfterTwoMore(m: Memory, ops: seq<Op>, r: Memory, a: Op, b: Op)
    requires Valid(m) && AllInRange(m, ops) && InRange(m, a) && InRange(m, b) && After(m, ops, |ops|) == r
    ensures Valid(r) && InRange(r, a) && Valid(Do(r, a)) && InRange(Do(r, a), b)
    ensures AllInRange(m, ops + [a] + [b]) && After(m, ops + [a] + [b], |ops + [a] + [b]|) == Do(Do(r, a), b)
  {
    AfterAppended(m, ops, r, a);
    AfterAppended(m, ops + [a], Do(r, a), b);
  }
}
