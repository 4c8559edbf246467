/**
 One early wakeup of main is enough to lose a start signal: the last thread has read its index, but main signals it before
 it waits, and then waits for it for ever.
 */
module PthreadOnceLimits {
  import opened Runs
  import opened PthreadOnce
  import opened PthreadOnceStart

  // ----- Up to the launch of the last thread -----

  /** Nothing woke up spuriously so far, and main has yet to see the last thread. */
  ghost predicate OnTheWay(s: State) {
    && LaunchInv(s) && |s.threads| > 0 && s.spurious == 0 && s.mainSpurious == 0
    && (s.main == MLock ==> s.owner == Free)
    && s.main in {MLock, MCreate, MWait, MWaiting, MWoken} && s.i < |s.threads|
    && (s.i == |s.threads| - 1 ==> s.main !in {MWoken})
    && (s.i == |s.threads| - 1 && s.main == MWaiting ==> s.threads[s.i].pc in {ReadArg, Lock})
  }

  /** The last thread has read its index but not locked, and main waits for it. */
  ghost predicate AtLast(s: State) {
    OnTheWay(s) && s.i == |s.threads| - 1 && s.main == MWaiting && s.threads[s.i].pc == Lock
  }

  /** Main goes on, or if it waits the thread it waits for. */
  function NextEvent(s: State): Event {
    if s.main == MWaiting || (s.main == MWoken && s.owner != Free) then Run(s.i) else Main(0)
  }

  lemma OthersWait(s: State)
    requires OnTheWay(s) && s.main in {MWaiting, MWoken}
    ensures s.owner == Free || s.owner == Held(s.i)
    ensures Holds(s.threads[s.i].pc) <==> s.owner == Held(s.i)
  {
    assert LaunchFits(s, s.i);
    if s.owner.Held? && s.owner.tid < |s.threads| {
      assert LaunchFits(s, s.owner.tid);
    }
  }

  lemma WayStep(s: State)
    requires OnTheWay(s) && !AtLast(s)
    ensures Enabled(s, NextEvent(s)) && OnTheWay(Step(s, NextEvent(s)))
  {
    var e := NextEvent(s);
    assert LaunchFits(s, s.i);
    if s.main in {MWaiting, MWoken} {
      OthersWait(s);
    }
    StepLaunch(s, e);
    CountsGrow(s, e);
  }

  lemma {:induction false} ReachLast(s: State) returns (es: seq<Event>)
    requires OnTheWay(s)
    ensures AtLast(Exec(Step, s, es)) && |Exec(Step, s, es).threads| == |s.threads|
    decreases Measure(s)
  {
    if AtLast(s) {
      es := [];
    } else {
      WayStep(s);
      StepLowers(s, NextEvent(s));
      StepCreated(s, NextEvent(s));
      var rest := ReachLast(Step(s, NextEvent(s)));
      es := [NextEvent(s)] + rest;
      ExecCons(Step, s, NextEvent(s), rest);
    }
  }

  // ----- Main goes on too early -----

  function Last(s: State): nat
    requires |s.threads| > 0
  {
    |s.threads| - 1
  }

  /** Main is on its way through its signals while the last thread has yet to lock. */
  ghost predicate TooEarly(s: State) {
    && |s.threads| > 0 && Created(s) && s.mainSpurious == 1
    && s.threads[Last(s)].pc == Lock
    && s.main in {MWoken, MCreate, MSignal, MUnlock, MJoin}
    && (s.main == MWoken ==> s.i == Last(s)) && (s.main == MCreate ==> s.i == |s.threads|)
    && (s.main in {MWoken, MJoin} ==> s.owner == Free)
  }

  lemma WokenTooEarly(s: State)
    requires AtLast(s)
    ensures TooEarly(Step(s, SpuriousMain)) && |Step(s, SpuriousMain).threads| == |s.threads|
  {
    OthersWait(s);
  }

  lemma EarlyStep(s: State) returns (e: Event)
    requires TooEarly(s) && s.main != MJoin
    ensures Enabled(s, e) && TooEarly(Step(s, e)) && |Step(s, e).threads| == |s.threads|
  {
    var pick := 0;
    if t: nat :| t < |s.threads| && WaitsOn(s, t, s.j) {
      pick := t;
    }
    e := Main(pick);
    StepCreated(s, e);
  }

  lemma {:induction false} ReachJoin(s: State) returns (es: seq<Event>)
    requires TooEarly(s)
    ensures var r := Exec(Step, s, es); TooEarly(r) && r.main == MJoin && |r.threads| == |s.threads|
    decreases Measure(s)
  {
    if s.main == MJoin {
      es := [];
    } else {
      var e := EarlyStep(s);
      StepLowers(s, e);
      var rest := ReachJoin(Step(s, e));
      es := [e] + rest;
      ExecCons(Step, s, e, rest);
    }
  }

  /** Main waits for a thread that waits for a signal main has already given. */
  ghost predicate Lost(s: State) {
    |s.threads| > 0 && Created(s) && s.mainSpurious == 1 && s.main == MJoin && s.threads[Last(s)].pc == Waiting
  }

  lemma LastThreadWaits(s: State)
    requires TooEarly(s) && s.main == MJoin
    ensures var e := Run(Last(s));
            var r := Exec(Step, s, [e] + ([e] + [e]));
            Lost(r) && |r.threads| == |s.threads|
  {
    var e := Run(Last(s));
    var s1 := Step(s, e);
    var s2 := Step(s1, e);
    ExecCons(Step, s, e, [e] + [e]);
    ExecTwo(Step, s1, e, e);
    assert [e] + [e] == [e, e];
    StepCreated(s, e);
    StepCreated(s1, e);
    StepCreated(s2, e);
  }

  lemma LostStays(s: State, t: nat)
    requires Lost(s) && Enabled(s, Run(t))
    ensures Lost(Step(s, Run(t))) && |Step(s, Run(t)).threads| == |s.threads|
  {
    StepCreated(s, Run(t));
  }

  /** The others go on until nobody can. */
  lemma {:induction false} RunOut(s: State) returns (es: seq<Event>)
    requires Lost(s)
    ensures Lost(Exec(Step, s, es)) && Stuck(Exec(Step, s, es))
    decreases Measure(s)
  {
    if t: nat :| Enabled(s, Run(t)) {
      LostStays(s, t);
      StepLowers(s, Run(t));
      var rest := RunOut(Step(s, Run(t)));
      es := [Run(t)] + rest;
      ExecCons(Step, s, Run(t), rest);
    } else {
      es := [];
      assert s.threads[Last(s)].pc != Exit;
    }
  }

  // ----- The exact condition -----

  lemma StartIsOnTheWay(K: nat, control: Once)
    requires K > 0
    ensures OnTheWay(Start(K, control))
  {
    RunLaunch(K, control, []);
  }

  /** The run that loses the last start signal, for any number of threads. */
  lemma {:induction false} LosingRun(K: nat, control: Once) returns (es: seq<Event>)
    requires K > 0
    ensures var s := Exec(Step, Start(K, control), es); Stuck(s) && s.mainSpurious == 1 && s.main == MJoin
  {
    var s0 := Start(K, control);
    StartIsOnTheWay(K, control);
    var a := ReachLast(s0);
    var s1 := Exec(Step, s0, a);
    WokenTooEarly(s1);
    var s2 := Step(s1, SpuriousMain);
    var b := ReachJoin(s2);
    var s3 := Exec(Step, s2, b);
    LastThreadWaits(s3);
    var e := Run(Last(s3));
    var c := [e] + ([e] + [e]);
    var d := RunOut(Exec(Step, s3, c));
    es := a + ([SpuriousMain] + (b + (c + d)));
    ExecAppend(Step, s0, a, [SpuriousMain] + (b + (c + d)));
    ExecCons(Step, s1, SpuriousMain, b + (c + d));
    ExecAppend(Step, s2, b, c + d);
    ExecAppend(Step, s3, c, d);
  }

  /** A run that cannot go on has ended. */
  ghost predicate EndsIfStuck(s: State) {
    Stuck(s) ==> s.main == MEnded
  }

  /** No start signal is lost and every run ends exactly as long as main has no spurious wakeup: one is too many. */
  lemma AllRunsEndIffMainIsNotWokenEarly(K: nat, n: nat)
    requires K > 0
    ensures (forall es :: Exec(Step, Start(K, Init), es).mainSpurious <= n
               ==> EndsIfStuck(Exec(Step, Start(K, Init), es)))
            <==> n == 0
  {
    if n == 0 {
      forall es | Exec(Step, Start(K, Init), es).mainSpurious <= n ensures EndsIfStuck(Exec(Step, Start(K, Init), es)) {
        StuckRunsHaveEnded(K, es);
      }
    } else {
      var es := LosingRun(K, Init);
      assert !EndsIfStuck(Exec(Step, Start(K, Init), es));
    }
  }
}
