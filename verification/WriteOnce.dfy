/**
 Write once, read many, of `TestMemModelSCDRF00` (samples/cpp_atomic_mm/src/main.cpp): one writer publishes an
 array of plain data through an atomic, and any number of readers check it and publish it again.
 */
module WriteOnce {
  import opened Runs
  import opened MemoryModel

  /** The writer goes Acquire, Fill, Release, Done; a reader goes Spin, Recheck, CheckValue, CheckSlots, Done. */
  datatype Pc = Acquire | Fill | Release | Spin | Recheck | CheckValue | CheckSlots | Done

  /** Thread 0 writes, threads 1..R read.  `len` is `std::min(array_size, _len)`, `at[t]` the loop variable of
      thread `t`. */
  datatype Control = Control(R: nat, A: nat, len: int, start: int, pc: seq<Pc>, at: seq<nat>)

  datatype State = State(ctl: Control, mem: Memory, failed: bool)

  /** One step of thread `tid`; `pick` is the write a plain read returns. */
  datatype Event = Event(tid: nat, pick: nat)

  predicate Shape(c: Control) {
    && |c.pc| == c.R + 1 && |c.at| == c.R + 1 && c.len <= c.A
    && c.pc[0] in {Acquire, Fill, Release, Done}
    && (forall t :: 1 <= t <= c.R ==> c.pc[t] !in {Acquire, Fill, Release})
  }

  /** Cell 0 is `value1`, cell 1+i is `array[i]`; the last clock is main's. */
  predicate Fits(s: State) {
    && Shape(s.ctl)
    && Valid(s.mem)
    && |s.mem.clocks| == s.ctl.R + 2
    && |s.mem.cells| == s.ctl.A + 1
    && |s.mem.atoms| == 1
  }

  function Next(c: Control, t: nat, sync: int): Control
    requires Shape(c) && t <= c.R
  {
    match c.pc[t]
    case Acquire => c.(pc := c.pc[t := Fill])
    case Fill => if c.at[t] < c.len then c.(at := c.at[t := c.at[t] + 1]) else c.(pc := c.pc[t := Release])
    case Release => c.(pc := c.pc[t := Done])
    case Spin => if sync == c.start then c.(pc := c.pc[t := Recheck]) else c
    case Recheck => c.(pc := c.pc[t := CheckValue])
    case CheckValue => c.(pc := c.pc[t := CheckSlots])
    case CheckSlots => if c.at[t] < c.len then c.(at := c.at[t := c.at[t] + 1]) else c.(pc := c.pc[t := Done])
    case Done => c
  }

  /** Thread `t` is about to make a plain read. */
  predicate Reads(c: Control, t: nat)
    requires Shape(c) && t <= c.R
  {
    c.pc[t] == CheckValue || (c.pc[t] == CheckSlots && c.at[t] < c.len)
  }

  /** The plain cell the next step of thread `t` is about. */
  function Target(c: Control, t: nat): nat
    requires Shape(c) && t <= c.R
  {
    if c.pc[t] in {Fill, CheckSlots} && c.at[t] < c.len then 1 + c.at[t] else 0
  }

  /** The value the protocol puts into cell `x`. */
  function Expected(c: Control, x: nat): int {
    if x == 0 then c.start else c.start + (x - 1)
  }

  function Effect(c: Control, m: Memory, t: nat): Memory
    requires Shape(c) && Valid(m) && |m.clocks| == c.R + 2 && |m.cells| == c.A + 1 && |m.atoms| == 1
    requires t <= c.R
  {
    match c.pc[t]
    case Acquire => Load(m, t, 0)
    case Fill => Assign(m, t, Target(c, t), Expected(c, Target(c, t)))
    case Release => Store(m, t, 0, c.start)
    case Spin => Load(m, t, 0)
    case Recheck => Load(m, t, 0)
    case CheckValue => Read(m, t, 0)
    case CheckSlots => if c.at[t] < c.len then Read(m, t, Target(c, t)) else Store(m, t, 0, c.start)
    case Done => m
  }

  predicate Enabled(s: State, e: Event) {
    && Fits(s)
    && e.tid <= s.ctl.R
    && s.ctl.pc[e.tid] != Done
    && (Reads(s.ctl, e.tid) ==> MayRead(s.mem, e.tid, Target(s.ctl, e.tid), e.pick))
  }

  function Apply(s: State, e: Event): State
    requires Enabled(s, e)
  {
    var c, t := s.ctl, e.tid;
    State(
      Next(c, t, s.mem.atoms[0].value),
      Effect(c, s.mem, t),
      || s.failed
      || (c.pc[t] == Recheck && s.mem.atoms[0].value != c.start)
      || (Reads(c, t) && s.mem.cells[Target(c, t)].writes[e.pick].value != Expected(c, Target(c, t))))
  }

  function Step(s: State, e: Event): State {
    if Enabled(s, e) then Apply(s, e) else s
  }

  /** `reset(v1, arrayValue)` and the creation of one writer and R readers, in any order */
  function Start(R: nat, A: nat, len: int, start: int, v1: int, arrayValue: int): State {
    State(Control(R, A, if len < A then len else A, start,
                  seq(R + 1, t => if t == 0 then Acquire else Spin), seq(R + 1, _ => 0)),
          Begin(R + 1, [v1] + seq(A, _ => arrayValue), [v1]),
          false)
  }

  // ----- Before and after the publication -----

  predicate Published(c: Control)
    requires Shape(c)
  {
    c.pc[0] == Done
  }

  /** Cells the writer has filled. */
  predicate Written(c: Control, x: nat)
    requires Shape(c)
  {
    if x == 0 then c.pc[0] in {Release, Done} else x <= c.at[0]
  }

  ghost predicate ControlInv(c: Control) {
    && Shape(c)
    && c.at[0] <= c.A
    && (c.pc[0] == Acquire ==> c.at[0] == 0)
    && (c.pc[0] in {Release, Done} ==> c.at[0] >= c.len)
    && (!Published(c) ==> forall t :: 1 <= t <= c.R ==> c.pc[t] == Spin)
  }

  ghost predicate Filled(c: Control, cells: seq<Cell>)
    requires Shape(c)
  {
    forall x :: 0 <= x < |cells| && Written(c, x) ==> cells[x].writes != [] && Last(cells[x]) == Expected(c, x)
  }

  /** Before the publication the writer knows every access; afterwards the atomic, and every reader that left its
      spin loop, knows every write. */
  ghost predicate Ordered(s: State)
    requires Fits(s)
  {
    if !Published(s.ctl) then Covers(s.mem.clocks[0], s.mem.cells)
    else
      && CoversWrites(s.mem.atoms[0].clock, s.mem.cells)
      && forall t :: 1 <= t <= s.ctl.R && s.ctl.pc[t] != Spin ==> CoversWrites(s.mem.clocks[t], s.mem.cells)
  }

  ghost predicate Inv(s: State, v1: int) {
    && Fits(s)
    && ControlInv(s.ctl)
    && s.mem.atoms[0].value == (if Published(s.ctl) then s.ctl.start else v1)
    && Ordered(s)
    && Filled(s.ctl, s.mem.cells)
    && !s.mem.raced && !s.failed
  }

  /** The readers can tell the published value from the one left by `reset`. */
  predicate Told(c: Control, v1: int) {
    c.start != v1 || c.R == 0
  }

  lemma NextInv(c: Control, t: nat, v1: int)
    requires ControlInv(c) && t <= c.R && Told(c, v1)
    ensures ControlInv(Next(c, t, if Published(c) then c.start else v1))
  {
  }

  lemma WriterInv(s: State, e: Event, v1: int)
    requires Inv(s, v1) && Enabled(s, e) && e.tid == 0 && Told(s.ctl, v1)
    ensures Inv(Apply(s, e), v1)
  {
    var c := s.ctl;
    NextInv(c, 0, v1);
    match c.pc[0] {
      case Acquire => LoadCovers(s.mem, 0, 0);
      case Fill => AssignCovers(s.mem, 0, Target(c, 0), Expected(c, Target(c, 0)));
      case Release => StoreCovers(s.mem, 0, 0, c.start);
    }
  }

  lemma ReaderChecks(s: State, e: Event, v1: int)
    requires Inv(s, v1) && Enabled(s, e) && e.tid > 0 && Told(s.ctl, v1) && Reads(s.ctl, e.tid)
    ensures Inv(Apply(s, e), v1)
  {
    NextInv(s.ctl, e.tid, v1);
    ReadLast(s.mem, e.tid, Target(s.ctl, e.tid), e.pick);
  }

  lemma ReaderSynchronizes(s: State, e: Event, v1: int)
    requires Inv(s, v1) && Enabled(s, e) && e.tid > 0 && Told(s.ctl, v1) && !Reads(s.ctl, e.tid)
    ensures Inv(Apply(s, e), v1)
  {
    NextInv(s.ctl, e.tid, v1);
    if s.ctl.pc[e.tid] == CheckSlots {
      StoreCovers(s.mem, e.tid, 0, s.ctl.start);
    } else {
      LoadCovers(s.mem, e.tid, 0);
    }
  }

  lemma StepInv(s: State, e: Event, v1: int)
    requires Inv(s, v1) && Told(s.ctl, v1)
    ensures Inv(Step(s, e), v1) && Same(Step(s, e).ctl, s.ctl)
  {
    if Enabled(s, e) {
      if e.tid == 0 {
        WriterInv(s, e, v1);
      } else if Reads(s.ctl, e.tid) {
        ReaderChecks(s, e, v1);
      } else {
        ReaderSynchronizes(s, e, v1);
      }
    }
  }

  predicate Same(c: Control, d: Control) {
    c.R == d.R && c.A == d.A && c.len == d.len && c.start == d.start
  }

  // ----- All runs -----

  lemma StartInv(R: nat, A: nat, len: int, start: int, v1: int, arrayValue: int)
    ensures Inv(Start(R, A, len, start, v1, arrayValue), v1)
  {
    BeginCovers(R + 1, [v1] + seq(A, _ => arrayValue), [v1]);
  }

  lemma {:induction false} RunInv(R: nat, A: nat, len: int, start: int, v1: int, arrayValue: int, es: seq<Event>)
    requires start != v1 || R == 0
    ensures var s0 := Start(R, A, len, start, v1, arrayValue);
            var s := Exec(Step, s0, es);
            Inv(s, v1) && Same(s.ctl, s0.ctl)
  {
    var s0 := Start(R, A, len, start, v1, arrayValue);
    var inv := (t: State) => Inv(t, v1) && Same(t.ctl, s0.ctl);
    StartInv(R, A, len, start, v1, arrayValue);
    forall t, e | inv(t) ensures inv(Step(t, e)) {
      StepInv(t, e, v1);
    }
    Invariance(Step, inv, s0, es);
  }

  /** A reader that left its spin loop can read nothing but what the writer wrote. */
  ghost predicate SeesOnlyTheWriter(s: State, t: nat)
    requires Fits(s) && t <= s.ctl.R
  {
    forall x: nat, k: nat :: x < |s.mem.cells| && (x == 0 || x <= s.ctl.len) && MayRead(s.mem, t, x, k)
      ==> s.mem.cells[x].writes[k].value == Expected(s.ctl, x)
  }

  /** No run races or fails a REQUIRE, and a reader past its spin loop, whichever thread's store it synchronized
      with, sees exactly `value1 == startValue` and `array[i] == startValue+i`. */
  lemma {:induction false} EveryReaderSeesTheWriter(
      R: nat, A: nat, len: int, start: int, v1: int, arrayValue: int, es: seq<Event>)
    requires start != v1 || R == 0
    ensures var s := Exec(Step, Start(R, A, len, start, v1, arrayValue), es);
            && Fits(s)
            && !s.mem.raced && !s.failed
            && s.ctl.len == (if len < A then len else A)
            && forall t :: 1 <= t <= s.ctl.R && s.ctl.pc[t] != Spin ==> SeesOnlyTheWriter(s, t)
  {
    RunInv(R, A, len, start, v1, arrayValue, es);
    var s := Exec(Step, Start(R, A, len, start, v1, arrayValue), es);
    forall t | 1 <= t <= s.ctl.R && s.ctl.pc[t] != Spin ensures SeesOnlyTheWriter(s, t) {
      forall x: nat, k: nat | x < |s.mem.cells| && (x == 0 || x <= s.ctl.len) && MayRead(s.mem, t, x, k)
        ensures s.mem.cells[x].writes[k].value == Expected(s.ctl, x)
      {
        assert Published(s.ctl) && Written(s.ctl, x);
        ReadLast(s.mem, t, x, k);
      }
    }
  }
}
