/**
 How far the guarantees of the token ring reach: every run can be completed, only failed spins do no work, and
 the number of array slots is exactly what keeps the ring free of data races.
 */
module TokenRingLimits {
  import opened Runs
  import opened MemoryModel
  import opened HappensBefore
  import opened TokenRing

  function One(b: bool): nat {
    if b then 1 else 0
  }

  /** The event is a step of some thread other than a failed spin. */
  predicate Moves(s: State, e: Event) {
    Enabled(s, e) && (s.ctl.pc[e.tid] != Spin || MayLeaveSpin(s.ctl, e.tid, s.mem.atoms[0].value))
  }

  lemma SpinWork(c: Control, t: nat)
    requires Forced(c) && t < |c.pc| && c.pc[t] == Spin && Unclamped(c)
    ensures var r := Next(c, t, Token(c));
            && r.gets <= r.puts <= r.M
            && Work(r) == Work(c) - One(MayLeaveSpin(c, t, Token(c)))
            && (!MayLeaveSpin(c, t, Token(c)) ==> r == c)
  {
    SpinControl(c, t);
    if MayLeaveSpin(c, t, Token(c)) {
      OnlyNextLeaves(c, t);
    }
  }

  lemma HolderWork(c: Control, t: nat)
    requires Forced(c) && t < |c.pc| && c.pc[t] !in {Spin, Done}
    ensures var r := Next(c, t, Token(c));
            && r.gets <= r.puts <= r.M
            && Work(r) == Work(c) - 1
  {
    HolderControl(c, t, Token(c));
  }

  /** Every step does one unit of the remaining work, except a failed spin, which leaves the control alone. */
  lemma OnlySpinsAreIdle(s: State, e: Event)
    requires Inv(s) && Unclamped(s.ctl) && Enabled(s, e)
    ensures var r := Step(s, e).ctl;
            && r.gets <= r.puts <= r.M
            && Work(r) == Work(s.ctl) - One(Moves(s, e))
            && (!Moves(s, e) ==> s.ctl.pc[e.tid] == Spin && r == s.ctl)
  {
    if s.ctl.pc[e.tid] == Spin {
      SpinWork(s.ctl, e.tid);
    } else {
      HolderWork(s.ctl, e.tid);
    }
  }

  function WorkLeft(s: State): int {
    if s.ctl.gets <= s.ctl.puts <= s.ctl.M then Work(s.ctl) else 0
  }

  ghost predicate InvOf(M: nat, A: nat, s: State) {
    Inv(s) && s.ctl.M == M && s.ctl.A == A
  }

  lemma MovesSpend(M: nat, A: nat)
    requires M <= A
    ensures Spends(Step, (s: State) => InvOf(M, A, s), WorkLeft, Moves)
  {
    forall s: State, e: Event | InvOf(M, A, s)
      ensures InvOf(M, A, Step(s, e)) && WorkLeft(Step(s, e)) == WorkLeft(s) - if Moves(s, e) then 1 else 0
    {
      StepInv(s, e);
      if Enabled(s, e) {
        OnlySpinsAreIdle(s, e);
      }
    }
  }

  lemma NoWorkIsDone(c: Control)
    requires Forced(c)
    ensures Work(c) == 0 <==> AllDone(c)
  {
    if AllDone(c) {
      DoneCounts(c);
    }
  }

  /** Failed spins apart no run takes more than 9*M steps, and all threads are done exactly when it has taken them. */
  lemma {:induction false} EveryRunIsBounded(M: nat, A: nat, arrayValue: int, es: seq<Event>)
    requires A > 0 && M <= A
    ensures var s0 := Start(M, A, arrayValue);
            && StepsWhere(Step, Moves, s0, es) <= 9 * M
            && (StepsWhere(Step, Moves, s0, es) == 9 * M <==> AllDone(Exec(Step, s0, es).ctl))
  {
    StartInv(M, A, arrayValue);
    MovesSpend(M, A);
    WorkAddsUp(Step, (s: State) => InvOf(M, A, s), WorkLeft, Moves, Start(M, A, arrayValue), es);
    NoWorkIsDone(Exec(Step, Start(M, A, arrayValue), es).ctl);
  }

  lemma {:induction false} Finish(s: State) returns (es: seq<Event>)
    requires Inv(s) && s.ctl.M <= s.ctl.A
    ensures AllDone(Exec(Step, s, es).ctl)
    decreases Work(s.ctl)
  {
    if AllDone(s.ctl) {
      es := [];
    } else {
      RunnerWorks(s);
      var t := Runner(s.ctl);
      var e := Event(t, LastPick(s, t));
      StepInv(s, e);
      var rest := Finish(Step(s, e));
      es := [e] + rest;
      ExecCons(Step, s, e, rest);
    }
  }

  /** Whatever has happened so far, the threads can still all finish. */
  lemma {:induction false} EveryRunCanFinish(M: nat, A: nat, arrayValue: int, es: seq<Event>)
    requires A > 0 && M <= A
    ensures exists fs :: AllDone(Exec(Step, Start(M, A, arrayValue), es + fs).ctl)
  {
    RunInv(M, A, arrayValue, es);
    var fs := Finish(Exec(Step, Start(M, A, arrayValue), es));
    ExecAppend(Step, Start(M, A, arrayValue), es, fs);
  }

  /** The memory operation of the next step of thread `t`. */
  function Action(c: Control, t: nat): Op
    requires Shape(c) && t < |c.pc| && c.pc[t] != Done
  {
    var idx := Idx(c, t);
    var out := if t < c.M then idx else NextPut(c.A, idx);
    match c.pc[t]
    case Spin => OpLoad(t, 0)
    case CheckSlot => OpRead(t, 1 + idx)
    case CheckValue => OpRead(t, 0)
    case SetValue => OpAssign(t, 0, out)
    case SetSlot => OpAssign(t, 1 + idx, idx)
    case Release => OpStore(t, 0, out)
  }

  /** The memory operations of a run. */
  function Actions(s: State, es: seq<Event>): seq<Op> {
    if es == [] then []
    else
      var r := Exec(Step, s, es[..|es| - 1]);
      var e := es[|es| - 1];
      Actions(s, es[..|es| - 1]) + if Enabled(r, e) then [Action(r.ctl, e.tid)] else []
  }

  lemma EffectIsAction(s: State, t: nat)
    requires Fits(s) && t < |s.ctl.pc| && s.ctl.pc[t] != Done
    ensures InRange(s.mem, Action(s.ctl, t)) && Effect(s.ctl, s.mem, t) == Do(s.mem, Action(s.ctl, t))
  {
  }

  lemma StepFresh(s: State, e: Event)
    requires Fits(s) && Fresh(s.mem)
    ensures Fits(Step(s, e)) && Fresh(Step(s, e).mem)
  {
    if Enabled(s, e) {
      EffectIsAction(s, e.tid);
      DoFresh(s.mem, Action(s.ctl, e.tid));
    }
  }

  /** The turn of the clamped index is next. */
  predicate AtClamp(c: Control) {
    c.puts == c.gets == c.A - 1 && !Held(c)
  }

  lemma {:induction false} ReachClamp(s: State) returns (es: seq<Event>)
    requires Inv(s) && Fresh(s.mem) && s.ctl.M > s.ctl.A && s.ctl.puts < s.ctl.A
    ensures var r := Exec(Step, s, es);
            Inv(r) && Fresh(r.mem) && AtClamp(r.ctl) && r.ctl.M == s.ctl.M && r.ctl.A == s.ctl.A
    decreases Work(s.ctl)
  {
    if AtClamp(s.ctl) {
      es := [];
    } else {
      if AllDone(s.ctl) {
        DoneCounts(s.ctl);
      }
      RunnerWorks(s);
      var t := Runner(s.ctl);
      var e := Event(t, LastPick(s, t));
      StepInv(s, e);
      StepFresh(s, e);
      if s.ctl.pc[t] == Spin {
        SpinControl(s.ctl, t);
      } else {
        HolderControl(s.ctl, t, Token(s.ctl));
      }
      var rest := ReachClamp(Step(s, e));
      es := [e] + rest;
      ExecCons(Step, s, e, rest);
    }
  }

  lemma WriterEnters(s: State, t: nat)
    requires Fits(s) && Fresh(s.mem) && t < s.ctl.M && s.ctl.pc[t] == Spin
    requires MayLeaveSpin(s.ctl, t, s.mem.atoms[0].value)
    ensures var r := Step(s, Event(t, 0));
            && Fits(r) && Fresh(r.mem) && r.mem.atoms == s.mem.atoms
            && r.ctl.pc == s.ctl.pc[t := SetValue] && r.ctl.M == s.ctl.M && r.ctl.A == s.ctl.A
  {
    LoadKeeps(s.mem, t, 0);
  }

  lemma ClampMayLeave(c: Control, t: nat)
    requires Forced(c) && AtClamp(c) && c.M > c.A && c.A - 1 <= t <= c.A
    ensures c.pc[t] == Spin && MayLeaveSpin(c, t, Token(c))
  {
  }

  /** Two writers with the clamped index both leave their spin loops ... */
  lemma ClampLetsTwoIn(s: State)
    requires Inv(s) && Fresh(s.mem) && s.ctl.M > s.ctl.A && AtClamp(s.ctl)
    ensures var r := Exec(Step, s, [Event(s.ctl.A - 1, 0), Event(s.ctl.A, 0)]);
            BothInside(r, s.ctl.A - 1, s.ctl.A) && Fresh(r.mem)
  {
    var A := s.ctl.A;
    ExecTwo(Step, s, Event(A - 1, 0), Event(A, 0));
    ClampMayLeave(s.ctl, A - 1);
    ClampMayLeave(s.ctl, A);
    WriterEnters(s, A - 1);
    WriterEnters(Step(s, Event(A - 1, 0)), A);
  }

  predicate BothInside(s: State, a: nat, b: nat) {
    Fits(s) && a < b < s.ctl.M && s.ctl.pc[a] == SetValue && s.ctl.pc[b] == SetValue
  }

  /** ... and write `value1` with neither write ordered before the other. */
  lemma TwoInsideRace(s: State, a: nat, b: nat)
    requires BothInside(s, a, b) && Fresh(s.mem)
    ensures Exec(Step, s, [Event(a, 0), Event(b, 0)]).mem.raced
  {
    ExecTwo(Step, s, Event(a, 0), Event(b, 0));
    var r := Step(s, Event(a, 0));
    var w := r.mem.cells[0].writes[|r.mem.cells[0].writes| - 1];
    assert w.at == Epoch(a, s.mem.clocks[a][a]);
    assert !Knows(r.mem.clocks[b], w.at);
  }

  lemma {:induction false} RaceAfter(s: State, es: seq<Event>, fs: seq<Event>)
    requires Exec(Step, Exec(Step, s, es), fs).mem.raced
    ensures Exec(Step, s, es + fs).mem.raced
  {
    ExecAppend(Step, s, es, fs);
  }

  lemma ClampRaces(s: State) returns (fs: seq<Event>)
    requires Inv(s) && Fresh(s.mem) && s.ctl.M > s.ctl.A && AtClamp(s.ctl)
    ensures Exec(Step, s, fs).mem.raced
  {
    var es := [Event(s.ctl.A - 1, 0), Event(s.ctl.A, 0)];
    ClampLetsTwoIn(s);
    TwoInsideRace(Exec(Step, s, es), s.ctl.A - 1, s.ctl.A);
    RaceAfter(s, es, es);
    fs := es + es;
  }

  lemma NoSlotRaces(M: nat, A: nat, arrayValue: int)
    requires 0 < A < M
    ensures exists es :: Exec(Step, Start(M, A, arrayValue), es).mem.raced
  {
    StartInv(M, A, arrayValue);
    BeginFresh(2 * M, [-1] + seq(A, _ => arrayValue), [-1]);
    var es := ReachClamp(Start(M, A, arrayValue));
    var fs := ClampRaces(Exec(Step, Start(M, A, arrayValue), es));
    RaceAfter(Start(M, A, arrayValue), es, fs);
  }

  /** The ring is free of data races exactly when every thread index has an array slot of its own. */
  lemma RaceFreeIffEveryIndexHasASlot(M: nat, A: nat, arrayValue: int)
    requires A > 0
    ensures (forall es :: !Exec(Step, Start(M, A, arrayValue), es).mem.raced) <==> M <= A
  {
    if M <= A {
      forall es ensures !Exec(Step, Start(M, A, arrayValue), es).mem.raced {
        EveryRunIsForced(M, A, arrayValue, es);
      }
    } else {
      NoSlotRaces(M, A, arrayValue);
    }
  }

  // ----- The REQUIREs of the readers -----

  /** The reader of the last index has set `value1` and is about to release. */
  predicate LastReaderSet(c: Control) {
    c.puts == c.gets == c.A && Held(c) && c.pc[Holder(c)] == Release
  }

  lemma {:induction false} ReachLastReader(s: State) returns (es: seq<Event>)
    requires Inv(s) && s.ctl.M > s.ctl.A
    requires s.ctl.gets < s.ctl.A || (Held(s.ctl) && s.ctl.gets == s.ctl.puts)
    ensures var r := Exec(Step, s, es);
            Inv(r) && LastReaderSet(r.ctl) && r.ctl.M == s.ctl.M && r.ctl.A == s.ctl.A
    decreases Work(s.ctl)
  {
    if LastReaderSet(s.ctl) {
      es := [];
    } else {
      if AllDone(s.ctl) {
        DoneCounts(s.ctl);
      }
      RunnerWorks(s);
      var t := Runner(s.ctl);
      var e := Event(t, LastPick(s, t));
      StepInv(s, e);
      if s.ctl.pc[t] == Spin {
        SpinControl(s.ctl, t);
      } else {
        HolderControl(s.ctl, t, Token(s.ctl));
      }
      var rest := ReachLastReader(Step(s, e));
      es := [e] + rest;
      ExecCons(Step, s, e, rest);
    }
  }

  /** Reader `t` has yet to see that `value1` is not its index. */
  predicate Misled(s: State, t: nat, pc: Pc) {
    && Fits(s) && s.ctl.M <= t < |s.ctl.pc| && s.ctl.pc[t] == pc
    && Last(s.mem.cells[0]) != Idx(s.ctl, t)
  }

  lemma MisledEnters(s: State, t: nat)
    requires Misled(s, t, Spin) && s.mem.atoms[0].value == Idx(s.ctl, t)
    ensures Misled(Step(s, Event(t, 0)), t, CheckSlot)
  {
    LoadCovers(s.mem, t, 0);
  }

  lemma MisledChecksSlot(s: State, t: nat)
    requires Misled(s, t, CheckSlot)
    ensures Misled(Step(s, Event(t, LastPick(s, t))), t, CheckValue)
  {
    assert MayRead(s.mem, t, Target(s.ctl, t), LastPick(s, t));
  }

  lemma MisledFails(s: State, t: nat)
    requires Misled(s, t, CheckValue)
    ensures Step(s, Event(t, LastPick(s, t))).failed
  {
    assert MayRead(s.mem, t, Target(s.ctl, t), LastPick(s, t));
  }

  lemma {:induction false} LateReaderFails(s: State) returns (es: seq<Event>)
    requires Inv(s) && LastReaderSet(s.ctl) && s.ctl.M > s.ctl.A
    ensures Exec(Step, s, es).failed
  {
    var t := s.ctl.M + s.ctl.A;
    var e0 := Event(t, 0);
    MisledEnters(s, t);
    var s1 := Step(s, e0);
    var e1 := Event(t, LastPick(s1, t));
    MisledChecksSlot(s1, t);
    var s2 := Step(s1, e1);
    var e2 := Event(t, LastPick(s2, t));
    MisledFails(s2, t);
    ExecTwo(Step, s1, e1, e2);
    ExecCons(Step, s, e0, [e1, e2]);
    es := [e0] + [e1, e2];
  }

  /** No REQUIRE of any reader ever fails exactly when every thread index has an array slot of its own: with one more
      pair of threads than slots, a reader that shares the last index can find `value1` already set for the next put. */
  lemma {:induction false} RequiresHoldIffEveryIndexHasASlot(M: nat, A: nat, arrayValue: int)
    requires A > 0
    ensures (forall es :: !Exec(Step, Start(M, A, arrayValue), es).failed) <==> M <= A
  {
    if M <= A {
      forall es ensures !Exec(Step, Start(M, A, arrayValue), es).failed {
        EveryRunIsForced(M, A, arrayValue, es);
      }
    } else {
      StartInv(M, A, arrayValue);
      var es := ReachLastReader(Start(M, A, arrayValue));
      var fs := LateReaderFails(Exec(Step, Start(M, A, arrayValue), es));
      ExecAppend(Step, Start(M, A, arrayValue), es, fs);
    }
  }

  // ----- Data races, from their definition -----

  lemma {:induction false} ActionsRun(s: State, es: seq<Event>)
    requires Fits(s)
    ensures AllInRange(s.mem, Actions(s, es))
    ensures After(s.mem, Actions(s, es), |Actions(s, es)|) == Exec(Step, s, es).mem
  {
    if es != [] {
      var front, e := es[..|es| - 1], es[|es| - 1];
      ActionsRun(s, front);
      var r := Exec(Step, s, front);
      if Enabled(r, e) {
        EffectIsAction(r, e.tid);
        AfterOneMore(s.mem, Actions(s, front), Action(r.ctl, e.tid));
      } else {
        assert Actions(s, es) == Actions(s, front);
      }
    }
  }

  /** With a slot for every index no execution of the ring contains a data race: any two conflicting plain
      accesses are ordered by happens-before. */
  lemma {:induction false} NoDataRace(M: nat, A: nat, arrayValue: int, es: seq<Event>)
    requires A > 0 && M <= A
    ensures !DataRace(Actions(Start(M, A, arrayValue), es))
  {
    var s := Start(M, A, arrayValue);
    ActionsRun(s, es);
    BeginQuiet(2 * M, [-1] + seq(A, _ => arrayValue), [-1]);
    FlagIffDataRace(s.mem, Actions(s, es));
    EveryRunIsForced(M, A, arrayValue, es);
  }

  /** Once main has joined every thread it has the memory to itself again, as the next `reset` needs. */
  lemma {:induction false} MainRegainsMemory(M: nat, A: nat, arrayValue: int, es: seq<Event>)
    requires A > 0
    ensures var m := Exec(Step, Start(M, A, arrayValue), es).mem;
            Valid(m) && |m.clocks| == 2 * M + 1 && Covers(Joined(m, 2 * M, 2 * M), m.cells)
  {
    var s := Start(M, A, arrayValue);
    ActionsRun(s, es);
    BeginFresh(2 * M, [-1] + seq(A, _ => arrayValue), [-1]);
    AfterFresh(s.mem, Actions(s, es), |Actions(s, es)|);
    JoinedAll(Exec(Step, s, es).mem, 2 * M);
  }
}
