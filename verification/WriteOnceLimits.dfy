/**
 How far the guarantees of write once, read many reach: every run can be completed, and a start value that differs
 from the reset value is exactly what keeps the readers from racing with the writer.
 */
module WriteOnceLimits {
  import opened Runs
  import opened MemoryModel
  import opened HappensBefore
  import opened WriteOnce

  // ----- Progress -----

  predicate AllDone(c: Control) {
    forall t :: 0 <= t < |c.pc| ==> c.pc[t] == Done
  }

  function Left(c: Control, t: nat): nat
    requires Shape(c) && t <= c.R
  {
    var slots := if c.at[t] < c.len then c.len - c.at[t] else 0;
    match c.pc[t] case Done => 0 case Release => 1 case CheckSlots => slots + 1 case CheckValue => slots + 2
                  case Fill => slots + 2 case Recheck => slots + 3 case Acquire => slots + 3 case Spin => slots + 4
  }

  /** The steps left to threads 0..n-1, failed spins apart. */
  function Work(c: Control, n: nat): nat
    requires Shape(c) && n <= c.R + 1
  {
    if n == 0 then 0 else Work(c, n - 1) + Left(c, n - 1)
  }

  lemma {:induction false} WorkChange(c: Control, d: Control, t: nat, n: nat)
    requires Shape(c) && Shape(d) && Same(c, d) && t <= c.R && n <= c.R + 1
    requires forall u :: 0 <= u <= c.R && u != t ==> c.pc[u] == d.pc[u] && c.at[u] == d.at[u]
    ensures Work(d, n) == Work(c, n) + if t < n then Left(d, t) - Left(c, t) else 0
  {
    if n > 0 {
      WorkChange(c, d, t, n - 1);
    }
  }

  function One(b: bool): nat {
    if b then 1 else 0
  }

  /** The event is a step of some thread other than a failed spin. */
  predicate Moves(s: State, e: Event) {
    Enabled(s, e) && (s.ctl.pc[e.tid] != Spin || s.mem.atoms[0].value == s.ctl.start)
  }

  lemma NextLeft(c: Control, t: nat, sync: int)
    requires Shape(c) && t <= c.R && c.pc[t] != Done && Shape(Next(c, t, sync))
    ensures var d := Next(c, t, sync);
            && Same(c, d)
            && Left(d, t) == Left(c, t) - One(c.pc[t] != Spin || sync == c.start)
            && (c.pc[t] == Spin && sync != c.start ==> d == c)
            && (forall u :: 0 <= u <= c.R && u != t ==> c.pc[u] == d.pc[u] && c.at[u] == d.at[u])
  {
  }

  /** Every step does one unit of the remaining work, except a failed spin, before the publication, which leaves the
      control alone. */
  lemma OnlySpinsAreIdle(s: State, e: Event, v1: int)
    requires Inv(s, v1) && Told(s.ctl, v1) && Enabled(s, e)
    ensures var r := Step(s, e).ctl;
            && Shape(r) && Same(r, s.ctl)
            && Work(r, r.R + 1) == Work(s.ctl, r.R + 1) - One(Moves(s, e))
            && (!Moves(s, e) ==> s.ctl.pc[e.tid] == Spin && !Published(s.ctl) && r == s.ctl)
  {
    StepInv(s, e, v1);
    NextLeft(s.ctl, e.tid, s.mem.atoms[0].value);
    WorkChange(s.ctl, Step(s, e).ctl, e.tid, s.ctl.R + 1);
  }

  function WorkLeft(s: State): int {
    if Shape(s.ctl) then Work(s.ctl, s.ctl.R + 1) else 0
  }

  ghost predicate InvOf(c: Control, v1: int, s: State) {
    Inv(s, v1) && Same(s.ctl, c)
  }

  lemma MovesSpend(c: Control, v1: int)
    requires Told(c, v1)
    ensures Spends(Step, (s: State) => InvOf(c, v1, s), WorkLeft, Moves)
  {
    forall s: State, e: Event | InvOf(c, v1, s)
      ensures InvOf(c, v1, Step(s, e)) && WorkLeft(Step(s, e)) == WorkLeft(s) - if Moves(s, e) then 1 else 0
    {
      StepInv(s, e, v1);
      if Enabled(s, e) {
        OnlySpinsAreIdle(s, e, v1);
      }
    }
  }

  /** The slots each thread goes through. */
  function Slots(A: nat, len: int): nat {
    if len < 0 then 0 else if len < A then len else A
  }

  lemma {:induction false} StartWork(R: nat, A: nat, len: int, start: int, v1: int, arrayValue: int, n: nat)
    requires n <= R + 1
    ensures var c := Start(R, A, len, start, v1, arrayValue).ctl;
            Work(c, n) == (if n == 0 then 0 else n * (Slots(A, len) + 4) - 1)
  {
    if n > 0 {
      StartWork(R, A, len, start, v1, arrayValue, n - 1);
      var c := Start(R, A, len, start, v1, arrayValue).ctl;
      assert Left(c, n - 1) == Slots(A, len) + if n == 1 then 3 else 4;
      OneMoreTimes(n - 1, Slots(A, len) + 4);
    }
  }

  lemma OneMoreTimes(n: nat, c: nat)
    ensures (n + 1) * c == n * c + c
  {
  }

  lemma {:induction false} NoWorkIsDone(c: Control, n: nat)
    requires Shape(c) && n <= c.R + 1
    ensures Work(c, n) == 0 <==> forall t :: 0 <= t < n ==> c.pc[t] == Done
  {
    if n > 0 {
      NoWorkIsDone(c, n - 1);
    }
  }

  /** The steps a run takes to its end, failed spins apart. */
  function Bound(R: nat, A: nat, len: int): nat {
    (R + 1) * (Slots(A, len) + 4) - 1
  }

  lemma {:induction false} MovesAddUp(R: nat, A: nat, len: int, start: int, v1: int, arrayValue: int, es: seq<Event>)
    requires start != v1 || R == 0
    ensures var s0 := Start(R, A, len, start, v1, arrayValue);
            var s := Exec(Step, s0, es);
            && Shape(s.ctl) && s.ctl.R == R
            && StepsWhere(Step, Moves, s0, es) + Work(s.ctl, R + 1) == Work(s0.ctl, R + 1)
  {
    var s0 := Start(R, A, len, start, v1, arrayValue);
    StartInv(R, A, len, start, v1, arrayValue);
    MovesSpend(s0.ctl, v1);
    WorkAddsUp(Step, (s: State) => InvOf(s0.ctl, v1, s), WorkLeft, Moves, s0, es);
  }

  lemma StartBound(R: nat, A: nat, len: int, start: int, v1: int, arrayValue: int)
    ensures Work(Start(R, A, len, start, v1, arrayValue).ctl, R + 1) == Bound(R, A, len)
  {
    StartWork(R, A, len, start, v1, arrayValue, R + 1);
  }

  /** Failed spins apart no run takes more than (R + 1) * (slots + 4) - 1 steps, and all threads are done exactly when it
      has taken them. */
  lemma {:induction false} EveryRunIsBounded(R: nat, A: nat, len: int, start: int, v1: int, arrayValue: int,
                                             es: seq<Event>)
    requires start != v1 || R == 0
    ensures var moves := StepsWhere(Step, Moves, Start(R, A, len, start, v1, arrayValue), es);
            && moves <= Bound(R, A, len)
            && (moves == Bound(R, A, len) <==> AllDone(Exec(Step, Start(R, A, len, start, v1, arrayValue), es).ctl))
  {
    MovesAddUp(R, A, len, start, v1, arrayValue, es);
    StartBound(R, A, len, start, v1, arrayValue);
    NoWorkIsDone(Exec(Step, Start(R, A, len, start, v1, arrayValue), es).ctl, R + 1);
  }

  lemma SomeoneWorks(s: State, v1: int) returns (e: Event)
    requires Inv(s, v1) && Told(s.ctl, v1) && !AllDone(s.ctl)
    ensures Enabled(s, e)
    ensures s.ctl.pc[e.tid] == Spin ==> Published(s.ctl)
  {
    var t: nat :| t <= s.ctl.R && s.ctl.pc[t] != Done && (t > 0 ==> Published(s.ctl));
    var x := Target(s.ctl, t);
    e := Event(t, |s.mem.cells[x].writes| - 1);
  }

  lemma {:induction false} Finish(s: State, v1: int) returns (es: seq<Event>)
    requires Inv(s, v1) && Told(s.ctl, v1)
    ensures AllDone(Exec(Step, s, es).ctl)
    decreases Work(s.ctl, s.ctl.R + 1)
  {
    if AllDone(s.ctl) {
      es := [];
    } else {
      var e := SomeoneWorks(s, v1);
      StepInv(s, e, v1);
      OnlySpinsAreIdle(s, e, v1);
      var rest := Finish(Step(s, e), v1);
      es := [e] + rest;
      ExecCons(Step, s, e, rest);
    }
  }

  /** Whatever has happened so far, the threads can still all finish. */
  lemma {:induction false} EveryRunCanFinish(R: nat, A: nat, len: int, start: int, v1: int, arrayValue: int, es: seq<Event>)
    requires start != v1 || R == 0
    ensures exists fs :: AllDone(Exec(Step, Start(R, A, len, start, v1, arrayValue), es + fs).ctl)
  {
    var s0 := Start(R, A, len, start, v1, arrayValue);
    RunInv(R, A, len, start, v1, arrayValue, es);
    var fs := Finish(Exec(Step, s0, es), v1);
    ExecAppend(Step, s0, es, fs);
  }

  // ----- The exact condition -----

  /** A reader has read `value1` and published nothing since; the writer has yet to write it. */
  predicate AboutToRace(s: State) {
    && Fits(s)
    && Fresh(s.mem)
    && s.ctl.R > 0
    && s.ctl.pc[0] in {Acquire, Fill}
    && Epoch(1, s.mem.clocks[1][1]) in s.mem.cells[0].readAt
  }

  lemma WriterLoads(s: State)
    requires AboutToRace(s) && s.ctl.pc[0] == Acquire
    ensures AboutToRace(Step(s, Event(0, 0)))
  {
    LoadFresh(s.mem, 0, 0);
  }

  lemma WriterFills(s: State)
    requires AboutToRace(s) && s.ctl.pc[0] == Fill
    ensures if s.ctl.at[0] < s.ctl.len then AboutToRace(Step(s, Event(0, 0))) else Step(s, Event(0, 0)).mem.raced
  {
    assert !Knows(s.mem.clocks[0], Epoch(1, s.mem.clocks[1][1]));
  }

  lemma {:induction false} RunWriter(s: State) returns (es: seq<Event>)
    requires AboutToRace(s)
    ensures Exec(Step, s, es).mem.raced
    decreases Left(s.ctl, 0)
  {
    var e := Event(0, 0);
    var rest := [];
    if s.ctl.pc[0] == Acquire {
      WriterLoads(s);
      rest := RunWriter(Step(s, e));
    } else {
      WriterFills(s);
      if s.ctl.at[0] < s.ctl.len {
        rest := RunWriter(Step(s, e));
      }
    }
    es := [e] + rest;
    ExecCons(Step, s, e, rest);
  }

  /** The step of reader 1, its effect on the memory given. */
  lemma ReaderFrame(s: State)
    requires Enabled(s, Event(1, 0)) && s.ctl.R > 0
    ensures var r := Step(s, Event(1, 0));
            && r.mem == Effect(s.ctl, s.mem, 1)
            && r.ctl == Next(s.ctl, 1, s.mem.atoms[0].value)
  {
  }

  lemma ReaderLeavesSpin(s: State)
    requires Fits(s) && Fresh(s.mem) && s.ctl.R > 0 && s.ctl.pc[1] in {Spin, Recheck}
    requires s.mem.atoms[0].value == s.ctl.start
    ensures var r := Step(s, Event(1, 0));
            && Fits(r) && Fresh(r.mem) && Same(r.ctl, s.ctl) && r.ctl.pc[0] == s.ctl.pc[0]
            && r.mem.atoms == s.mem.atoms && r.mem.cells == s.mem.cells
            && r.ctl.pc[1] == if s.ctl.pc[1] == Spin then Recheck else CheckValue
  {
    ReaderFrame(s);
    LoadKeeps(s.mem, 1, 0);
  }

  lemma ReadNoted(m: Memory)
    requires Valid(m) && Fresh(m) && |m.clocks| > 1 && |m.cells| > 0
    ensures var r := Read(m, 1, 0);
            && Valid(r) && Fresh(r) && |r.clocks| == |m.clocks| && |r.cells| == |m.cells| && r.atoms == m.atoms
            && Epoch(1, r.clocks[1][1]) in r.cells[0].readAt
  {
    AccessFresh(m, 1, 0, 0);
  }

  lemma ReaderReads(s: State)
    requires Fits(s) && Fresh(s.mem) && s.ctl.R > 0 && s.ctl.pc[0] == Acquire && s.ctl.pc[1] == CheckValue
    requires |s.mem.cells[0].writes| == 1
    ensures AboutToRace(Step(s, Event(1, 0)))
  {
    ReaderFrame(s);
    ReadNoted(s.mem);
  }

  /** A start value equal to the reset value lets a reader in before the writer. */
  lemma {:induction false} UntoldRaces(R: nat, A: nat, len: int, v1: int, arrayValue: int) returns (es: seq<Event>)
    requires R > 0
    ensures Exec(Step, Start(R, A, len, v1, v1, arrayValue), es).mem.raced
  {
    var s, e := Start(R, A, len, v1, v1, arrayValue), Event(1, 0);
    BeginFresh(R + 1, [v1] + seq(A, _ => arrayValue), [v1]);
    ReaderLeavesSpin(s);
    var s1 := Step(s, e);
    ReaderLeavesSpin(s1);
    var s2 := Step(s1, e);
    ReaderReads(s2);
    var rest := RunWriter(Step(s2, e));
    ExecCons(Step, s2, e, rest);
    ExecCons(Step, s1, e, [e] + rest);
    ExecCons(Step, s, e, [e] + ([e] + rest));
    es := [e] + ([e] + ([e] + rest));
  }

  /** Every run is free of data races exactly when the readers can tell the start value from the reset value. */
  lemma RaceFreeIffTold(R: nat, A: nat, len: int, start: int, v1: int, arrayValue: int)
    ensures (forall es :: !Exec(Step, Start(R, A, len, start, v1, arrayValue), es).mem.raced)
            <==> (start != v1 || R == 0)
  {
    if start != v1 || R == 0 {
      forall es ensures !Exec(Step, Start(R, A, len, start, v1, arrayValue), es).mem.raced {
        EveryReaderSeesTheWriter(R, A, len, start, v1, arrayValue, es);
      }
    } else {
      var es := UntoldRaces(R, A, len, v1, arrayValue);
    }
  }

  // ----- Data races, from their definition -----

  /** The memory operation of the next step of thread `t`. */
  function Action(c: Control, t: nat): Op
    requires Shape(c) && t <= c.R && c.pc[t] != Done
  {
    match c.pc[t]
    case Acquire => OpLoad(t, 0)
    case Fill => OpAssign(t, Target(c, t), Expected(c, Target(c, t)))
    case Release => OpStore(t, 0, c.start)
    case Spin => OpLoad(t, 0)
    case Recheck => OpLoad(t, 0)
    case CheckValue => OpRead(t, 0)
    case CheckSlots => if c.at[t] < c.len then OpRead(t, Target(c, t)) else OpStore(t, 0, c.start)
  }

  /** The memory operations of a run. */
  function Actions(s: State, es: seq<Event>): seq<Op> {
    if es == [] then []
    else
      var r := Exec(Step, s, es[..|es| - 1]);
      var e := es[|es| - 1];
      Actions(s, es[..|es| - 1]) + if Enabled(r, e) then [Action(r.ctl, e.tid)] else []
  }

  lemma EffectIsAction(s: State, t: nat)
    requires Fits(s) && t <= s.ctl.R && s.ctl.pc[t] != Done
    ensures InRange(s.mem, Action(s.ctl, t)) && Effect(s.ctl, s.mem, t) == Do(s.mem, Action(s.ctl, t))
  {
  }

  lemma {:induction false} ActionsRun(s: State, es: seq<Event>)
    requires Fits(s)
    ensures AllInRange(s.mem, Actions(s, es))
    ensures After(s.mem, Actions(s, es), |Actions(s, es)|) == Exec(Step, s, es).mem
  {
    if es != [] {
      var front, e := es[..|es| - 1], es[|es| - 1];
      ActionsRun(s, front);
      var r := Exec(Step, s, front);
      if Enabled(r, e) {
        EffectIsAction(r, e.tid);
        AfterOneMore(s.mem, Actions(s, front), Action(r.ctl, e.tid));
      } else {
        assert Actions(s, es) == Actions(s, front);
      }
    }
  }

  lemma {:induction false} RacedIffDataRace(R: nat, A: nat, len: int, start: int, v1: int, arrayValue: int, es: seq<Event>)
    ensures var s := Start(R, A, len, start, v1, arrayValue);
            Exec(Step, s, es).mem.raced <==> DataRace(Actions(s, es))
  {
    var s := Start(R, A, len, start, v1, arrayValue);
    ActionsRun(s, es);
    BeginQuiet(R + 1, [v1] + seq(A, _ => arrayValue), [v1]);
    FlagIffDataRace(s.mem, Actions(s, es));
  }

  /** No execution contains a data race, however many readers there are. */
  lemma {:induction false} NoDataRace(R: nat, A: nat, len: int, start: int, v1: int, arrayValue: int, es: seq<Event>)
    requires start != v1 || R == 0
    ensures !DataRace(Actions(Start(R, A, len, start, v1, arrayValue), es))
  {
    RacedIffDataRace(R, A, len, start, v1, arrayValue, es);
    EveryReaderSeesTheWriter(R, A, len, start, v1, arrayValue, es);
  }

  /** Once main has joined every thread it has the memory to itself again, as the next `reset` needs. */
  lemma {:induction false} MainRegainsMemory(R: nat, A: nat, len: int, start: int, v1: int, arrayValue: int, es: seq<Event>)
    ensures var m := Exec(Step, Start(R, A, len, start, v1, arrayValue), es).mem;
            Valid(m) && |m.clocks| == R + 2 && Covers(Joined(m, R + 1, R + 1), m.cells)
  {
    var s := Start(R, A, len, start, v1, arrayValue);
    ActionsRun(s, es);
    BeginFresh(R + 1, [v1] + seq(A, _ => arrayValue), [v1]);
    AfterFresh(s.mem, Actions(s, es), |Actions(s, es)|);
    JoinedAll(Exec(Step, s, es).mem, R + 1);
  }

  /** `array[i]`, for an observer who knows every access */
  function Slot(s: State, i: nat): int
    requires Fits(s) && i < s.ctl.A
  {
    Last(s.mem.cells[1 + i])
  }

  /** Once the writer is done the plain cells and the atomic hold what it published. */
  lemma {:induction false} EndIsPublished(R: nat, A: nat, len: int, start: int, v1: int, arrayValue: int, es: seq<Event>)
    requires start != v1 || R == 0
    ensures var s := Exec(Step, Start(R, A, len, start, v1, arrayValue), es);
            Fits(s) && s.ctl.A == A &&
            (s.ctl.pc[0] == Done ==>
              && s.mem.atoms[0].value == start && Last(s.mem.cells[0]) == start
              && forall i: nat :: i < A && i < len ==> Slot(s, i) == start + i)
  {
    RunInv(R, A, len, start, v1, arrayValue, es);
    var s := Exec(Step, Start(R, A, len, start, v1, arrayValue), es);
    if s.ctl.pc[0] == Done {
      assert Written(s.ctl, 0);
      forall i: nat | i < A && i < len ensures Slot(s, i) == start + i {
        assert Written(s.ctl, 1 + i);
      }
    }
  }
}
