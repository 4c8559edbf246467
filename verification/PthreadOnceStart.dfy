/**
 The start-up handshake of tests/pthread/src/pthread_once.c: what each thread reads through the pointer to main's loop
 variable, and that no start signal is lost, as long as main is not woken early.
 */
module PthreadOnceStart {
  import opened Runs
  import opened PthreadOnce

  predicate Launching(main: MainPc) {
    main in {MLock, MCreate, MWait, MWaiting, MWoken}
  }

  predicate MainHolds(main: MainPc) {
    main in {MCreate, MWait, MSignal, MUnlock}
  }

  predicate Holds(pc: Pc) {
    pc in {Signal, Wait, Unlock}
  }

  ghost predicate Exclusive(s: State) {
    && (forall t :: 0 <= t < |s.threads| ==> (Holds(s.threads[t].pc) <==> s.owner == Held(t)))
    && (MainHolds(s.main) <==> s.owner == Held(|s.threads|))
    && (s.owner.Held? ==> s.owner.tid <= |s.threads|)
  }

  /** The thread being launched, while main is at `main`. */
  predicate BeingLaunched(main: MainPc, pc: Pc) {
    match main
    case MWait => pc in {ReadArg, Lock}
    case MWaiting => pc in {ReadArg, Lock, Signal}
    case MWoken => pc !in {Absent, ReadArg, Lock, Signal}
    case _ => pc == Absent
  }

  predicate Launched(pc: Pc) {
    pc !in {Absent, ReadArg, Lock, Signal, Wait}
  }

  predicate LaunchFits(s: State, t: nat)
    requires t < |s.threads|
  {
    var l := s.threads[t];
    && (l.pc !in {Absent, ReadArg} ==> l.id == t)
    && (Launching(s.main) && t == s.i ==> BeingLaunched(s.main, l.pc))
    && (Launching(s.main) && t > s.i ==> l.pc == Absent)
    && (!Launching(s.main) || t < s.i ==> Launched(l.pc))
    && (s.main in {MUnlock, MJoin, MEnded} || (s.main == MSignal && t < s.j) ==> l.pc != Waiting)
    && (s.spurious == 0 && (if Launching(s.main) then t < s.i else s.main == MSignal && s.j <= t) ==> l.pc == Waiting)
    && (s.spurious == 0 && s.main == MWoken && t == s.i ==> l.pc in {Wait, Waiting})
  }

  ghost predicate LaunchInv(s: State) {
    && Exclusive(s) && Created(s)
    && (forall t :: 0 <= t < |s.threads| ==> LaunchFits(s, t))
    && (s.main == MSignal ==> s.j <= |s.threads|)
  }

  lemma ThreadExclusive(s: State, t: nat)
    requires Exclusive(s) && t < |s.threads| && ThreadEnabled(s, t)
    ensures Exclusive(RunThread(s, t))
  {
    assert Holds(s.threads[t].pc) <==> s.owner == Held(t);
  }

  lemma MainExclusive(s: State, pick: nat)
    requires Exclusive(s) && Created(s) && MainEnabled(s, pick)
    ensures Exclusive(RunMain(s, pick))
  {
  }

  lemma ThreadLaunch(s: State, t: nat)
    requires LaunchInv(s) && t < |s.threads| && ThreadEnabled(s, t)
    ensures forall u :: 0 <= u < |s.threads| ==> LaunchFits(RunThread(s, t), u)
  {
    var r := RunThread(s, t);
    assert LaunchFits(s, t);
    assert Holds(s.threads[t].pc) <==> s.owner == Held(t);
    forall u | 0 <= u < |s.threads| ensures LaunchFits(r, u) {
      assert LaunchFits(s, u);
    }
  }

  lemma MainSignals(s: State, pick: nat)
    requires LaunchInv(s) && MainEnabled(s, pick) && s.main == MSignal
    ensures forall u :: 0 <= u < |s.threads| ==> LaunchFits(RunMain(s, pick), u)
  {
    var r := RunMain(s, pick);
    assert WaitsOn(s, pick, s.j) ==> LaunchFits(s, pick);
    forall u | 0 <= u < |s.threads| ensures LaunchFits(r, u) {
      assert LaunchFits(s, u);
      assert u == s.j && s.threads[u].pc == Waiting ==> WaitsOn(s, u, s.j);
    }
  }

  lemma MainLaunch(s: State, pick: nat)
    requires LaunchInv(s) && MainEnabled(s, pick) && s.main != MSignal
    ensures forall u :: 0 <= u < |s.threads| ==> LaunchFits(RunMain(s, pick), u)
  {
    var r := RunMain(s, pick);
    forall u | 0 <= u < |s.threads| ensures LaunchFits(r, u) {
      assert LaunchFits(s, u);
      assert Holds(s.threads[u].pc) <==> s.owner == Held(u);
    }
  }

  lemma StepLaunch(s: State, e: Event)
    requires LaunchInv(s) && !e.SpuriousMain?
    ensures LaunchInv(Step(s, e))
  {
    StepCreated(s, e);
    if Enabled(s, e) {
      match e {
        case Run(t) => ThreadExclusive(s, t); ThreadLaunch(s, t);
        case Main(pick) => MainExclusive(s, pick); if s.main == MSignal { MainSignals(s, pick); } else { MainLaunch(s, pick); }
        case Spurious(t) =>
          forall u | 0 <= u < |s.threads| ensures LaunchFits(Step(s, e), u) {
            assert LaunchFits(s, u);
          }
      }
    }
  }

  // ----- All runs in which main is not woken early -----

  lemma CountsGrow(s: State, e: Event)
    ensures Step(s, e).mainSpurious == s.mainSpurious + if Enabled(s, e) && e.SpuriousMain? then 1 else 0
    ensures Step(s, e).spurious >= s.spurious
  {
  }

  lemma {:induction false} RunLaunch(K: nat, control: Once, es: seq<Event>)
    ensures var s := Exec(Step, Start(K, control), es);
            |s.threads| == K && (s.mainSpurious == 0 ==> LaunchInv(s))
  {
    var inv := (s: State) => |s.threads| == K && (s.mainSpurious == 0 ==> LaunchInv(s));
    forall s, e | inv(s) ensures inv(Step(s, e)) {
      CountsGrow(s, e);
      if Step(s, e).mainSpurious == 0 && !(e.SpuriousMain? && Enabled(s, e)) {
        if e.SpuriousMain? {
          assert Step(s, e) == s;
        } else {
          StepLaunch(s, e);
        }
      }
    }
    Invariance(Step, inv, Start(K, control), es);
  }

  /** Every thread that has read its argument read its own index. */
  predicate ReadsOwn(s: State) {
    forall t :: 0 <= t < |s.threads| && s.threads[t].pc !in {Absent, ReadArg} ==> s.threads[t].id == t
  }

  /** As long as nothing wakes main early, thread i reads i, although it reads before it locks; and when main signals
      the threads, none has yet to start waiting for its signal: unless it was woken early, each still waits on its own
      condition variable. */
  lemma {:induction false} NoStartSignalIsLost(K: nat, control: Once, es: seq<Event>)
    ensures var s := Exec(Step, Start(K, control), es);
            |s.threads| == K &&
            (s.mainSpurious == 0 ==>
              && ReadsOwn(s)
              && (s.main == MSignal ==> s.j <= K)
              && (s.main == MSignal ==> forall t :: 0 <= t < K ==> Launched(s.threads[t].pc))
              && (s.main == MSignal && s.spurious == 0 ==> forall t :: s.j <= t < K ==> WaitsOn(s, t, t)))
  {
    RunLaunch(K, control, es);
    var s := Exec(Step, Start(K, control), es);
    if s.mainSpurious == 0 {
      forall t | 0 <= t < K
        ensures s.threads[t].pc !in {Absent, ReadArg} ==> s.threads[t].id == t
        ensures s.main == MSignal ==> Launched(s.threads[t].pc)
        ensures s.main == MSignal && s.spurious == 0 && s.j <= t ==> WaitsOn(s, t, t)
      {
        assert LaunchFits(s, t);
      }
    }
  }

  function EarlyRun(): seq<Event> {
    [Main(0), Main(0), Main(0), SpuriousMain, Main(0), Run(0)]
  }

  /** Woken early, main moves its loop variable on while the first thread has yet to read it. */
  lemma EarlyRunMisreads(K: nat, control: Once)
    requires K > 0
    ensures var s := Exec(Step, Start(K, control), EarlyRun());
            !ReadsOwn(s) && s.mainSpurious == 1
  {
    var s0 := Start(K, control);
    var s1 := Step(s0, Main(0));
    var s2 := Step(s1, Main(0));
    var s3 := Step(s2, Main(0));
    var s4 := Step(s3, SpuriousMain);
    var s5 := Step(s4, Main(0));
    var s6 := Step(s5, Run(0));
    assert s2.threads[0] == Thread(ReadArg, 0, 0) && s3.main == MWaiting;
    assert s6.threads[0].id == 1;
    var es := EarlyRun();
    assert es[..5][..4] == es[..4] && es[..4][..3] == es[..3] && es[..3][..2] == es[..2] && es[..2][..1] == es[..1];
    assert Exec(Step, s0, es[..1]) == s1;
    assert Exec(Step, s0, es[..2]) == s2;
    assert Exec(Step, s0, es[..3]) == s3;
    assert Exec(Step, s0, es[..4]) == s4;
    assert Exec(Step, s0, es[..5]) == s5;
  }

  /** The hand-over of the loop variable is safe exactly when main has no spurious wakeup: one is too many. */
  lemma OwnIndexIffMainIsNotWokenEarly(K: nat, control: Once, n: nat)
    requires K > 0
    ensures (forall es :: Exec(Step, Start(K, control), es).mainSpurious <= n
               ==> ReadsOwn(Exec(Step, Start(K, control), es)))
            <==> n == 0
  {
    if n == 0 {
      forall es | Exec(Step, Start(K, control), es).mainSpurious <= n ensures ReadsOwn(Exec(Step, Start(K, control), es)) {
        NoStartSignalIsLost(K, control, es);
      }
    } else {
      EarlyRunMisreads(K, control);
      assert Exec(Step, Start(K, control), EarlyRun()).mainSpurious <= n;
    }
  }

  // ----- Every run ends -----

  ghost predicate Stuck(s: State) {
    (forall t :: !Enabled(s, Run(t))) && (forall pick :: !Enabled(s, Main(pick)))
  }

  lemma StuckOwner(s: State)
    requires LaunchInv(s) && Stuck(s)
    ensures s.owner == Free && s.main in {MWaiting, MJoin, MEnded}
  {
    assert !Enabled(s, Main(0));
    assert forall t: nat :: WaitsOn(s, t, s.j) ==> !Enabled(s, Main(t));
    assert s.owner.Held? && s.owner.tid < |s.threads| ==> !Enabled(s, Run(s.owner.tid));
  }

  lemma StuckThread(s: State, t: nat)
    requires LaunchInv(s) && OnceInv(s) && s.control != Bad && Stuck(s) && t < |s.threads|
    ensures s.main != MWaiting && s.threads[t].pc == Exit
  {
    StuckOwner(s);
    assert LaunchFits(s, t) && OnceFits(s, t);
    assert !Enabled(s, Run(t));
    assert s.i < |s.threads| ==> LaunchFits(s, s.i) && !Enabled(s, Run(s.i));
    assert s.runner < |s.threads| ==> OnceFits(s, s.runner) && !Enabled(s, Run(s.runner));
  }

  /** When nobody can go on without a spurious wakeup, and none woke main early, main has joined every thread, each of
      which read 1, and main's own check held exactly if there were threads. */
  lemma {:induction false} StuckRunsHaveEnded(K: nat, es: seq<Event>)
    ensures var s := Exec(Step, Start(K, Init), es);
            |s.threads| == K &&
            (Stuck(s) && s.mainSpurious == 0 ==>
              && s.main == MEnded
              && (forall t :: 0 <= t < K ==> s.threads[t].pc == Exit && s.threads[t].got == 1)
              && (s.failed <==> K == 0))
  {
    RunLaunch(K, Init, es);
    RunOnce(K, Init, es);
    EveryCallerReadsOne(K, es);
    var s := Exec(Step, Start(K, Init), es);
    if Stuck(s) && s.mainSpurious == 0 {
      StuckOwner(s);
      if K > 0 {
        StuckThread(s, 0);
      }
      forall t | 0 <= t < K ensures s.threads[t].pc == Exit {
        StuckThread(s, t);
      }
      assert !Enabled(s, Main(0));
    }
  }

  // ----- How long a run can be -----

  function Rank(pc: Pc): nat {
    match pc
    case Absent => 15 case ReadArg => 14 case Lock => 13 case Signal => 12 case Wait => 11 case Waiting => 10
    case Woken => 9 case Unlock => 8 case Enter => 7 case InitGet => 6 case InitInc => 5 case Finish => 4
    case Blocked => 3 case Check => 2 case Exit => 0
  }

  function Ranks(threads: seq<Thread>): nat {
    if threads == [] then 0 else Ranks(threads[..|threads| - 1]) + Rank(threads[|threads| - 1].pc)
  }

  function MainRank(main: MainPc, K: nat, i: nat, j: nat): int {
    match main
    case MLock => 5 * K + 5 case MCreate => 4 * (K - i) + K + 4 case MWait => 4 * (K - i) + K + 3
    case MWaiting => 4 * (K - i) + K + 2 case MWoken => 4 * (K - i) + K + 1
    case MSignal => (if j < K then K - j else 0) + 3 case MUnlock => 2 case MJoin => 1 case MEnded => 0
  }

  function Measure(s: State): nat {
    var m := MainRank(s.main, |s.threads|, s.i, s.j);
    Ranks(s.threads) + if m < 0 then 0 else m
  }

  lemma {:induction false} RankChange(threads: seq<Thread>, t: nat, l: Thread)
    requires t < |threads|
    ensures Ranks(threads[t := l]) == Ranks(threads) + Rank(l.pc) - Rank(threads[t].pc)
  {
    var last := |threads| - 1;
    if t < last {
      RankChange(threads[..last], t, l);
      assert threads[t := l][..last] == threads[..last][t := l];
    } else {
      assert threads[t := l][..last] == threads[..last];
    }
  }

  lemma ThreadLowers(s: State, t: nat)
    requires Created(s) && t < |s.threads| && ThreadEnabled(s, t)
    ensures Measure(RunThread(s, t)) + 1 <= Measure(s)
  {
    RankChange(s.threads, t, Advance(s.threads[t], s.i, s.control, s.value));
  }

  lemma MainLowers(s: State, pick: nat)
    requires Created(s) && MainEnabled(s, pick)
    ensures Measure(RunMain(s, pick)) + 1 <= Measure(s)
  {
    if s.main == MCreate && s.i < |s.threads| {
      RankChange(s.threads, s.i, Thread(ReadArg, 0, 0));
    } else if s.main == MSignal && s.j < |s.threads| && WaitsOn(s, pick, s.j) {
      RankChange(s.threads, pick, s.threads[pick].(pc := Woken));
    }
  }

  lemma StepLowers(s: State, e: Event)
    requires Created(s) && Enabled(s, e)
    ensures Created(Step(s, e)) && Measure(Step(s, e)) + 1 <= Measure(s)
  {
    StepCreated(s, e);
    match e {
      case Run(t) => ThreadLowers(s, t);
      case Main(pick) => MainLowers(s, pick);
      case Spurious(t) => RankChange(s.threads, t, s.threads[t].(pc := Woken));
      case SpuriousMain =>
    }
  }

  lemma {:induction false} StartRanks(threads: seq<Thread>)
    requires forall t :: 0 <= t < |threads| ==> threads[t].pc == Absent
    ensures Ranks(threads) == 15 * |threads|
  {
    if threads != [] {
      StartRanks(threads[..|threads| - 1]);
    }
  }

  /** Every run is finite, whatever wakes up spuriously. */
  lemma {:induction false} EveryRunIsBounded(K: nat, control: Once, es: seq<Event>)
    requires Effective(Step, Enabled, Start(K, control), es)
    ensures |es| <= 20 * K + 5
  {
    var never := (e: Event) => false;
    forall s, e | Created(s) && Enabled(s, e)
      ensures Created(Step(s, e)) && Measure(Step(s, e)) + 1 <= Measure(s)
    {
      StepLowers(s, e);
    }
    BoundedRun(Step, Enabled, Created, Measure, never, 0, Start(K, control), es);
    StartRanks(Start(K, control).threads);
  }
}
