/**
 Happens-before, after section 6.9.2 of ISO/IEC 14882:2020.

 Threads own vector clocks.  A store to an atomic cell publishes the storing thread's clock, a load joins the
 published clock into the loading thread's clock.  A plain cell keeps every value written to it and the epoch
 (thread, time) of every access, so that a plain read can return any write that no later write known to the
 reader hides, and so that an access not ordered after a conflicting one is noticed.
 */
module MemoryModel {

  type Clock = seq<nat>

  datatype Epoch = Epoch(tid: nat, time: nat)

  datatype Write = Write(value: int, at: Epoch)

  /** A plain object: its writes in modification order, and the epochs of its reads. */
  datatype Cell = Cell(writes: seq<Write>, readAt: set<Epoch>)

  datatype Atom = Atom(value: int, clock: Clock)

  datatype Memory = Memory(clocks: seq<Clock>, cells: seq<Cell>, atoms: seq<Atom>, raced: bool)

  /** The access made at epoch `e` happens before whatever the owner of clock `c` does next. */
  predicate Knows(c: Clock, e: Epoch) {
    e.tid < |c| && e.time <= c[e.tid]
  }

  predicate KnowsWrites(c: Clock, cell: Cell) {
    forall i :: 0 <= i < |cell.writes| ==> Knows(c, cell.writes[i].at)
  }

  predicate KnowsCell(c: Clock, cell: Cell) {
    KnowsWrites(c, cell) && forall e :: e in cell.readAt ==> Knows(c, e)
  }

  /** Every plain access made so far happens before whatever the owner of clock `c` does next. */
  predicate Covers(c: Clock, cells: seq<Cell>) {
    forall x :: 0 <= x < |cells| ==> KnowsCell(c, cells[x])
  }

  predicate CoversWrites(c: Clock, cells: seq<Cell>) {
    forall x :: 0 <= x < |cells| ==> KnowsWrites(c, cells[x])
  }

  predicate Valid(m: Memory) {
    && (forall t :: 0 <= t < |m.clocks| ==> |m.clocks[t]| == |m.clocks|)
    && (forall a :: 0 <= a < |m.atoms| ==> |m.atoms[a].clock| == |m.clocks|)
    && (forall x :: 0 <= x < |m.cells| ==> |m.cells[x].writes| > 0)
  }

  function Max(a: nat, b: nat): nat {
    if a < b then b else a
  }

  function Join(c: Clock, d: Clock): Clock
    requires |c| == |d|
  {
    seq(|c|, i requires 0 <= i < |c| => Max(c[i], d[i]))
  }

  function Now(m: Memory, t: nat): Epoch
    requires Valid(m) && t < |m.clocks|
  {
    Epoch(t, m.clocks[t][t])
  }

  function Last(cell: Cell): int
    requires |cell.writes| > 0
  {
    cell.writes[|cell.writes| - 1].value
  }

  /** `atom.load()`; the value is `m.atoms[a].value`. */
  function Load(m: Memory, t: nat, a: nat): (r: Memory)
    requires Valid(m) && t < |m.clocks| && a < |m.atoms|
  {
    m.(clocks := m.clocks[t := Join(m.clocks[t], m.atoms[a].clock)])
  }

  /** `atom.store(v)` */
  function Store(m: Memory, t: nat, a: nat, v: int): (r: Memory)
    requires Valid(m) && t < |m.clocks| && a < |m.atoms|
  {
    m.(atoms := m.atoms[a := Atom(v, m.clocks[t])],
       clocks := m.clocks[t := m.clocks[t][t := m.clocks[t][t] + 1]])
  }

  /** `++atom`, one indivisible read-modify-write */
  function Increment(m: Memory, t: nat, a: nat): (r: Memory)
    requires Valid(m) && t < |m.clocks| && a < |m.atoms|
  {
    Store(Load(m, t, a), t, a, m.atoms[a].value + 1)
  }

  /** A plain read by `t` may return write `k` of cell `x`: no later write happens before the read. */
  predicate MayRead(m: Memory, t: nat, x: nat, k: nat)
    requires Valid(m) && t < |m.clocks| && x < |m.cells|
  {
    && k < |m.cells[x].writes|
    && forall j :: k < j < |m.cells[x].writes| ==> !Knows(m.clocks[t], m.cells[x].writes[j].at)
  }

  function Read(m: Memory, t: nat, x: nat): (r: Memory)
    requires Valid(m) && t < |m.clocks| && x < |m.cells|
  {
    m.(cells := m.cells[x := m.cells[x].(readAt := m.cells[x].readAt + {Now(m, t)})],
       raced := m.raced || !KnowsWrites(m.clocks[t], m.cells[x]))
  }

  function Assign(m: Memory, t: nat, x: nat, v: int): (r: Memory)
    requires Valid(m) && t < |m.clocks| && x < |m.cells|
  {
    m.(cells := m.cells[x := m.cells[x].(writes := m.cells[x].writes + [Write(v, Now(m, t))])],
       raced := m.raced || !KnowsCell(m.clocks[t], m.cells[x]))
  }

  function InitialClock(n: nat, t: nat): Clock {
    seq(n + 1, u => if u == n then (if t == n then 2 else 1) else if u == t then 1 else 0)
  }

  /** The memory after a thread, `n`, that had the memory to itself wrote `plain` and `atomic` and created the
      threads 0..n-1.  Creation synchronizes, so all those writes happen before everything the new threads do. */
  function Begin(n: nat, plain: seq<int>, atomic: seq<int>): (m: Memory)
    ensures Valid(m)
  {
    Memory(seq(n + 1, t requires 0 <= t => InitialClock(n, t)),
           seq(|plain|, x requires 0 <= x < |plain| => Cell([Write(plain[x], Epoch(n, 1))], {})),
           seq(|atomic|, a requires 0 <= a < |atomic| => Atom(atomic[a], seq(n + 1, u => if u == n then 1 else 0))),
           false)
  }

  /** A clock that knows more covers more. */
  predicate Leq(c: Clock, d: Clock) {
    |c| == |d| && forall i :: 0 <= i < |c| ==> c[i] <= d[i]
  }

  lemma LeqCovers(c: Clock, d: Clock, cells: seq<Cell>)
    requires Leq(c, d)
    ensures Covers(c, cells) ==> Covers(d, cells)
    ensures CoversWrites(c, cells) ==> CoversWrites(d, cells)
  {
    forall e: Epoch | Knows(c, e) ensures Knows(d, e) {}
  }

  lemma LoadCovers(m: Memory, t: nat, a: nat)
    requires Valid(m) && t < |m.clocks| && a < |m.atoms|
    ensures var r := Load(m, t, a);
            && Valid(r)
            && (Covers(m.clocks[t], m.cells) || Covers(m.atoms[a].clock, m.cells) ==> Covers(r.clocks[t], r.cells))
            && (CoversWrites(m.clocks[t], m.cells) || CoversWrites(m.atoms[a].clock, m.cells)
                ==> CoversWrites(r.clocks[t], r.cells))
  {
    var j := Join(m.clocks[t], m.atoms[a].clock);
    LeqCovers(m.clocks[t], j, m.cells);
    LeqCovers(m.atoms[a].clock, j, m.cells);
  }

  lemma StoreCovers(m: Memory, t: nat, a: nat, v: int)
    requires Valid(m) && t < |m.clocks| && a < |m.atoms|
    ensures var r := Store(m, t, a, v);
            && Valid(r)
            && (Covers(m.clocks[t], m.cells) ==> Covers(r.atoms[a].clock, r.cells) && Covers(r.clocks[t], r.cells))
            && (CoversWrites(m.clocks[t], m.cells)
                ==> CoversWrites(r.atoms[a].clock, r.cells) && CoversWrites(r.clocks[t], r.cells))
  {
    LeqCovers(m.clocks[t], Store(m, t, a, v).clocks[t], m.cells);
  }

  /** Data-race freedom pays off: a reader that knows the writes of a cell reads the last of them. */
  lemma ReadLast(m: Memory, t: nat, x: nat, k: nat)
    requires Valid(m) && t < |m.clocks| && x < |m.cells|
    requires KnowsWrites(m.clocks[t], m.cells[x]) && MayRead(m, t, x, k)
    ensures m.cells[x].writes[k].value == Last(m.cells[x])
    ensures Valid(Read(m, t, x)) && Read(m, t, x).raced == m.raced
  {
    var last := |m.cells[x].writes| - 1;
    assert Knows(m.clocks[t], m.cells[x].writes[last].at);
  }

  lemma ReadCovers(m: Memory, t: nat, x: nat)
    requires Valid(m) && t < |m.clocks| && x < |m.cells|
    ensures Covers(m.clocks[t], m.cells) ==> Covers(m.clocks[t], Read(m, t, x).cells)
  {
    assert Knows(m.clocks[t], Now(m, t));
  }

  lemma AssignCovers(m: Memory, t: nat, x: nat, v: int)
    requires Valid(m) && t < |m.clocks| && x < |m.cells|
    requires Covers(m.clocks[t], m.cells)
    ensures var r := Assign(m, t, x, v);
            && Valid(r) && r.raced == m.raced && Covers(m.clocks[t], r.cells) && Last(r.cells[x]) == v
  {
    assert Knows(m.clocks[t], Now(m, t));
  }

  lemma BeginCovers(n: nat, plain: seq<int>, atomic: seq<int>)
    ensures var m := Begin(n, plain, atomic);
            && (forall t :: 0 <= t < |m.clocks| ==> Covers(m.clocks[t], m.cells))
            && (forall a :: 0 <= a < |m.atoms| ==> Covers(m.atoms[a].clock, m.cells))
            && (forall x :: 0 <= x < |plain| ==> Last(m.cells[x]) == plain[x])
  {
  }

  // ----- Time stamps -----

  /** Nobody knows the present of another thread: only what it had done when it last published. */
  predicate Fresh(m: Memory)
    requires Valid(m)
  {
    && (forall t, u :: 0 <= t < |m.clocks| && 0 <= u < |m.clocks| && t != u ==> m.clocks[t][u] < m.clocks[u][u])
    && (forall a, u :: 0 <= a < |m.atoms| && 0 <= u < |m.clocks| ==> m.atoms[a].clock[u] < m.clocks[u][u])
  }

  predicate StampedBy(clocks: seq<Clock>, e: Epoch)
    requires forall t :: 0 <= t < |clocks| ==> |clocks[t]| == |clocks|
  {
    e.tid < |clocks| && e.time <= clocks[e.tid][e.tid]
  }

  /** Every access was made by one of the threads, in its past. */
  ghost predicate Stamped(m: Memory)
    requires Valid(m)
  {
    forall x :: 0 <= x < |m.cells| ==>
      && (forall i :: 0 <= i < |m.cells[x].writes| ==> StampedBy(m.clocks, m.cells[x].writes[i].at))
      && (forall e :: e in m.cells[x].readAt ==> StampedBy(m.clocks, e))
  }

  lemma BeginFresh(n: nat, plain: seq<int>, atomic: seq<int>)
    ensures Fresh(Begin(n, plain, atomic)) && Stamped(Begin(n, plain, atomic))
  {
  }

  lemma LoadFresh(m: Memory, t: nat, a: nat)
    requires Valid(m) && Fresh(m) && t < |m.clocks| && a < |m.atoms|
    ensures Fresh(Load(m, t, a)) && Load(m, t, a).clocks[t][t] == m.clocks[t][t]
    ensures Stamped(m) ==> Stamped(Load(m, t, a))
  {
  }

  /** A load changes nothing but what its thread knows. */
  lemma LoadKeeps(m: Memory, t: nat, a: nat)
    requires Valid(m) && Fresh(m) && t < |m.clocks| && a < |m.atoms|
    ensures var r := Load(m, t, a);
            Valid(r) && Fresh(r) && |r.clocks| == |m.clocks| && r.cells == m.cells && r.atoms == m.atoms
  {
    LoadFresh(m, t, a);
    LoadCovers(m, t, a);
  }

  lemma StoreFresh(m: Memory, t: nat, a: nat, v: int)
    requires Valid(m) && Fresh(m) && t < |m.clocks| && a < |m.atoms|
    ensures Fresh(Store(m, t, a, v))
    ensures Stamped(m) ==> Stamped(Store(m, t, a, v))
  {
  }

  lemma AccessFresh(m: Memory, t: nat, x: nat, v: int)
    requires Valid(m) && Fresh(m) && t < |m.clocks| && x < |m.cells|
    ensures Fresh(Read(m, t, x)) && Fresh(Assign(m, t, x, v))
    ensures Stamped(m) ==> Stamped(Read(m, t, x)) && Stamped(Assign(m, t, x, v))
  {
  }

  /** Main's clock after joining threads 0..n-1. */
  function Joined(m: Memory, main: nat, n: nat): (c: Clock)
    requires Valid(m) && main < |m.clocks| && n <= |m.clocks|
    ensures |c| == |m.clocks|
  {
    if n == 0 then m.clocks[main] else Join(Joined(m, main, n - 1), m.clocks[n - 1])
  }

  lemma {:induction false} JoinedKnows(m: Memory, main: nat, n: nat, t: nat)
    requires Valid(m) && main < |m.clocks| && n <= |m.clocks| && (t < n || t == main)
    ensures m.clocks[t][t] <= Joined(m, main, n)[t]
  {
    if n > 0 && t != n - 1 {
      JoinedKnows(m, main, n - 1, t);
    }
  }

  /** A thread that has joined all others has the memory to itself again. */
  lemma JoinedAll(m: Memory, main: nat)
    requires Valid(m) && Stamped(m) && main + 1 == |m.clocks|
    ensures Covers(Joined(m, main, main), m.cells)
  {
    var c := Joined(m, main, main);
    forall t: nat | t < |m.clocks| ensures m.clocks[t][t] <= c[t] {
      JoinedKnows(m, main, main, t);
    }
    forall e: Epoch | StampedBy(m.clocks, e) ensures Knows(c, e) {}
  }
}
