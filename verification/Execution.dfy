/**
 `test_pthread_execution` (tests/pthread/src/pthread.c) from start to end: each thread goes through its bounce rounds and
 then reports, waits and lines up, under the one mutex both parts share.
 */
module Execution {
  import opened Runs
  import B = Bounce
  import Turn = BounceTurn
  import Bound = BounceBound
  import Limits = BounceLimits
  import L = Barrier

  /** The bounce rounds, and everything after them. */
  datatype State = State(bounce: B.State, rest: L.State)

  datatype Event = Bounce(b: B.Event) | Rest(l: L.Event)

  /** The step takes the mutex. */
  predicate Locks(s: State, e: Event) {
    match e
    case Bounce(b) => b.Run? && b.tid < |s.bounce.threads| && B.Acquires(s.bounce.threads[b.tid].pc)
    case Rest(l) =>
      match l
      case Run(t, pick) => t < |s.rest.workers| && L.Acquires(s.rest.workers[t].pc)
      case Main => s.rest.main == L.MLock
      case Spurious(t) => false
  }

  predicate LockFree(s: State) {
    s.bounce.owner == B.Free && s.rest.owner == L.Free
  }

  /** The step is the end of a thread's bounce rounds. */
  predicate LeavesBounce(s: State, l: L.Event) {
    l.Run? && l.tid < |s.rest.workers| && s.rest.workers[l.tid].pc == L.Bouncing
  }

  predicate Enabled(s: State, e: Event) {
    && (Locks(s, e) ==> LockFree(s))
    && match e
       case Bounce(b) => B.Enabled(s.bounce, b)
       case Rest(l) =>
         && L.Enabled(s.rest, l)
         && (LeavesBounce(s, l) ==> l.tid < |s.bounce.threads| && s.bounce.threads[l.tid].pc == B.Finished)
  }

  function Step(s: State, e: Event): State {
    if !Enabled(s, e) then s
    else
      match e
      case Bounce(b) => s.(bounce := B.Step(s.bounce, b))
      case Rest(l) => s.(rest := L.Step(s.rest, l))
  }

  /** N threads, BOUNCES rounds, J yields after each claim. */
  function Start(N: nat, rounds: nat, J: nat): State {
    State(B.Start(N, rounds, J), L.Start(N))
  }

  // ----- The invariant -----

  /** A thread past its bounce rounds is through with them. */
  predicate Through(s: State) {
    forall t :: 0 <= t < |s.rest.workers| && s.rest.workers[t].pc != L.Bouncing ==>
      t < |s.bounce.threads| && s.bounce.threads[t].pc == B.Finished
  }

  predicate OneOwner(s: State) {
    s.bounce.owner == B.Free || s.rest.owner == L.Free
  }

  ghost predicate Inv(s: State) {
    && Turn.Inv(s.bounce) && Bound.Fits(s.bounce) && L.Inv(s.rest)
    && |s.bounce.threads| == |s.rest.workers|
    && Through(s) && OneOwner(s)
  }

  lemma FinishedStays(b: B.State, e: B.Event, t: nat)
    requires B.Queues(b) && t < |b.threads| && b.threads[t].pc == B.Finished
    ensures |B.Step(b, e).threads| == |b.threads| && B.Step(b, e).threads[t].pc == B.Finished
  {
  }

  lemma BounceOwner(b: B.State, e: B.Event)
    requires B.Enabled(b, e)
    ensures B.Step(b, e).owner in {b.owner, B.Free} || (e.Run? && B.Acquires(b.threads[e.tid].pc))
  {
  }

  lemma RestOwner(l: L.State, e: L.Event)
    requires L.Enabled(l, e)
    ensures L.Step(l, e).owner in {l.owner, L.Free} || (e.Run? && L.Acquires(l.workers[e.tid].pc))
            || (e.Main? && l.main == L.MLock)
  {
  }

  lemma BounceStep(s: State, b: B.Event)
    requires Inv(s) && Enabled(s, Bounce(b))
    ensures Inv(Step(s, Bounce(b)))
  {
    Turn.StepInv(s.bounce, b);
    Bound.StepLowers(s.bounce, b);
    BounceOwner(s.bounce, b);
    var r := Step(s, Bounce(b));
    forall t | 0 <= t < |r.rest.workers| && r.rest.workers[t].pc != L.Bouncing
      ensures t < |r.bounce.threads| && r.bounce.threads[t].pc == B.Finished
    {
      FinishedStays(s.bounce, b, t);
    }
  }

  /** Only its own step takes a worker out of its bounce rounds. */
  lemma BouncingStays(l: L.State, e: L.Event, t: nat)
    requires L.Shape(l) && t < |l.workers| && l.workers[t].pc == L.Bouncing
    ensures |L.Step(l, e).workers| == |l.workers|
    ensures L.Step(l, e).workers[t].pc == L.Bouncing || (L.Enabled(l, e) && e.Run? && e.tid == t)
  {
  }

  lemma RestStep(s: State, l: L.Event)
    requires Inv(s) && Enabled(s, Rest(l))
    ensures Inv(Step(s, Rest(l)))
  {
    L.StepInv(s.rest, l);
    RestOwner(s.rest, l);
    var r := Step(s, Rest(l));
    forall t | 0 <= t < |r.rest.workers| && r.rest.workers[t].pc != L.Bouncing
      ensures t < |r.bounce.threads| && r.bounce.threads[t].pc == B.Finished
    {
      if s.rest.workers[t].pc == L.Bouncing {
        BouncingStays(s.rest, l, t);
      }
    }
  }

  lemma StepInv(s: State, e: Event)
    requires Inv(s)
    ensures Inv(Step(s, e)) && |Step(s, e).rest.workers| == |s.rest.workers|
  {
    if Enabled(s, e) {
      match e {
        case Bounce(b) => BounceStep(s, b);
        case Rest(l) => RestStep(s, l); L.StepInv(s.rest, l);
      }
    }
  }

  lemma StartInv(N: nat, rounds: nat, J: nat)
    requires N > 0 && rounds > 0
    ensures Inv(Start(N, rounds, J))
  {
    Turn.StartInv(N, rounds, J);
    Limits.ReachedFits(N, rounds, J, []);
    L.StartInv(N);
  }

  lemma {:induction false} RunInv(N: nat, rounds: nat, J: nat, es: seq<Event>)
    requires N > 0 && rounds > 0
    ensures var s := Exec(Step, Start(N, rounds, J), es); Inv(s) && |s.rest.workers| == N
  {
    var inv := (s: State) => Inv(s) && |s.rest.workers| == N;
    StartInv(N, rounds, J);
    forall s, e | inv(s) ensures inv(Step(s, e)) {
      StepInv(s, e);
    }
    Invariance(Step, inv, Start(N, rounds, J), es);
  }

  // ----- Safety of the whole test -----

  /** In every run no check of the test fails, the mutex has one owner, and when main broadcasts every thread is through
      its bounce rounds and waits, or was woken spuriously. */
  lemma {:induction false} EveryRunIsSafe(N: nat, rounds: nat, J: nat, es: seq<Event>)
    requires N > 0 && rounds > 0
    ensures var s := Exec(Step, Start(N, rounds, J), es);
            && !s.bounce.failed && !s.rest.failed
            && OneOwner(s)
            && |s.rest.workers| == |s.bounce.threads| == N
            && (s.rest.main == L.Broadcast ==> forall t :: 0 <= t < N ==>
                 && s.bounce.threads[t].pc == B.Finished
                 && L.At(s.rest.workers[t].pc) >= L.At(L.Waiting))
  {
    RunInv(N, rounds, J, es);
    var s := Exec(Step, Start(N, rounds, J), es);
    if s.rest.main == L.Broadcast {
      L.AllAsleep(s.rest);
    }
  }

  // ----- How the whole test ends -----

  /** Nobody can go on without a spurious wakeup. */
  ghost predicate Stuck(s: State) {
    && (forall t, pick :: !Enabled(s, Bounce(B.Run(t, pick))))
    && (forall t, pick :: !Enabled(s, Rest(L.Run(t, pick))))
    && !Enabled(s, Rest(L.Main))
  }

  lemma HolderGoesOn(b: B.State, u: nat)
    requires B.Exclusive(b) && B.Queues(b)
    ensures b.owner == B.Held(u) ==> B.Enabled(b, B.Run(u, 0)) && !B.Acquires(b.threads[u].pc)
  {
    assert u < |b.threads| ==> (B.Holds(b.threads[u].pc) <==> b.owner == B.Held(u));
  }

  lemma RestHolderGoesOn(l: L.State, u: nat)
    requires L.Exclusive(l)
    ensures l.owner == L.Held(u) && u < |l.workers| ==> L.Enabled(l, L.Run(u, 0)) && L.Holds(l.workers[u].pc)
  {
    assert u < |l.workers| ==> (L.Holds(l.workers[u].pc) <==> l.owner == L.Held(u));
  }

  lemma NobodyHolds(s: State, u: nat)
    requires Inv(s) && Stuck(s)
    ensures s.bounce.owner != B.Held(u) && s.rest.owner != L.Held(u)
  {
    HolderGoesOn(s.bounce, u);
    RestHolderGoesOn(s.rest, u);
    assert !Enabled(s, Bounce(B.Run(u, 0))) && !Enabled(s, Rest(L.Run(u, 0))) && !Enabled(s, Rest(L.Main));
  }

  lemma StuckIsUnlocked(s: State)
    requires Inv(s) && Stuck(s)
    ensures LockFree(s)
  {
    if s.bounce.owner.Held? {
      NobodyHolds(s, s.bounce.owner.tid);
    }
    if s.rest.owner.Held? {
      NobodyHolds(s, s.rest.owner.tid);
    }
  }

  lemma StuckBounce(s: State)
    requires Inv(s) && Stuck(s)
    ensures Turn.Stuck(s.bounce)
  {
    StuckIsUnlocked(s);
    forall t, pick ensures !B.Enabled(s.bounce, B.Run(t, pick)) {
      assert !Enabled(s, Bounce(B.Run(t, pick)));
    }
  }

  lemma StuckRest(s: State)
    requires Inv(s) && Stuck(s) && Turn.AllFinished(s.bounce)
    ensures L.Stuck(s.rest)
  {
    StuckIsUnlocked(s);
    forall t, pick ensures !L.Enabled(s.rest, L.Run(t, pick)) {
      assert !Enabled(s, Rest(L.Run(t, pick)));
    }
  }

  lemma EndedIsThrough(s: State)
    requires Inv(s) && s.rest.main == L.Ended
    ensures Turn.AllFinished(s.bounce)
  {
  }

  lemma StuckEndsIffThrough(s: State)
    requires Inv(s) && Stuck(s)
    ensures s.rest.main == L.Ended <==> Turn.AllFinished(s.bounce)
  {
    if s.rest.main == L.Ended {
      EndedIsThrough(s);
    }
    if Turn.AllFinished(s.bounce) {
      StuckRest(s);
      L.StuckIsEnded(s.rest);
    }
  }

  /** A run of the whole test that cannot go on has ended, past all of main's waits, exactly when every thread is through
      its bounce rounds; if nothing woke up spuriously, exactly when no signal was wasted; and it then counted exactly
      one serial thread. */
  lemma {:induction false} StuckRunsEndIffNotHarmed(N: nat, rounds: nat, J: nat, es: seq<Event>)
    requires N > 0 && rounds > 0
    ensures var s := Exec(Step, Start(N, rounds, J), es);
            Stuck(s) ==>
              && (s.rest.main == L.Ended <==> Turn.AllFinished(s.bounce))
              && (s.bounce.spurious == 0 ==> (s.rest.main == L.Ended <==> !s.bounce.harmed))
              && (s.rest.main == L.Ended ==> L.Serials(s.rest.returned) == 1)
  {
    RunInv(N, rounds, J, es);
    var s := Exec(Step, Start(N, rounds, J), es);
    if Stuck(s) {
      StuckEndsIffThrough(s);
      StuckBounce(s);
      Turn.StuckIsThroughIffNotHarmed(s.bounce);
      if s.rest.main == L.Ended {
        L.ExitedReturns(s.rest);
      }
    }
  }

  // ----- How long a run can be -----

  function Measure(s: State): nat {
    Bound.Measure(s.bounce) + L.Measure(s.rest)
  }

  lemma StepLowers(s: State, e: Event)
    requires Inv(s) && Enabled(s, e)
    ensures Measure(Step(s, e)) + 1 <= Measure(s)
  {
    match e {
      case Bounce(b) => Bound.StepLowers(s.bounce, b);
      case Rest(l) => L.StepLowers(s.rest, l);
    }
  }

  predicate Never(e: Event) {
    false
  }

  lemma StepsLower()
    ensures Lowers(Step, Enabled, Inv, Measure, Never, 0)
  {
    forall s: State, e: Event | Inv(s) && Enabled(s, e)
      ensures Inv(Step(s, e)) && Measure(Step(s, e)) + 1 <= Measure(s)
    {
      StepInv(s, e);
      StepLowers(s, e);
    }
  }

  lemma StartMeasure(N: nat, rounds: nat, J: nat)
    ensures Measure(Start(N, rounds, J)) == N * ((J + 9) * rounds + J + 12) + (N * (3 * N + 23) + 3 * N + 13)
  {
    Bound.StartRanks(rounds, J, B.Start(N, rounds, J).threads);
    L.StartMeasure(N);
  }

  /** Every run of the whole test is finite, whatever wakes up spuriously. */
  lemma {:induction false} EveryRunIsBounded(N: nat, rounds: nat, J: nat, es: seq<Event>)
    requires N > 0 && rounds > 0 && Effective(Step, Enabled, Start(N, rounds, J), es)
    ensures |es| <= N * ((J + 9) * rounds + J + 12) + (N * (3 * N + 23) + 3 * N + 13)
  {
    StartInv(N, rounds, J);
    StepsLower();
    BoundedRun(Step, Enabled, Inv, Measure, Never, 0, Start(N, rounds, J), es);
    StartMeasure(N, rounds, J);
  }

  // ----- The exact condition for the whole test to end -----

  /** A run of the bounce rounds, as a run of the whole test. */
  function Lift(bs: seq<B.Event>): (es: seq<Event>)
    ensures |es| == |bs|
  {
    seq(|bs|, k requires 0 <= k < |bs| => Bounce(bs[k]))
  }

  lemma {:induction false} LiftedRun(s: State, bs: seq<B.Event>)
    requires s.rest.owner == L.Free
    ensures Exec(Step, s, Lift(bs)) == s.(bounce := Exec(B.Step, s.bounce, bs))
  {
    if bs != [] {
      var front := bs[..|bs| - 1];
      assert Lift(bs)[..|bs| - 1] == Lift(front);
      LiftedRun(s, front);
      LiftedStep(s.(bounce := Exec(B.Step, s.bounce, front)), bs[|bs| - 1]);
    }
  }

  lemma LiftedStep(s: State, b: B.Event)
    requires s.rest.owner == L.Free
    ensures Step(s, Bounce(b)) == s.(bounce := B.Step(s.bounce, b))
  {
  }

  /** Any run goes on, without spurious wakeups in the bounce rounds, to where nobody can go on. */
  lemma {:induction false} RunOut(s: State) returns (es: seq<Event>)
    requires Inv(s)
    ensures var r := Exec(Step, s, es);
            Inv(r) && Stuck(r) && (s.bounce.harmed ==> r.bounce.harmed) && r.bounce.spurious == s.bounce.spurious
    decreases Measure(s)
  {
    es := [];
    if t, pick :| Enabled(s, Bounce(B.Run(t, pick))) {
      Limits.RunKeepsHarm(s.bounce, t, pick);
      es := GoOn(s, Bounce(B.Run(t, pick)));
    } else if t, pick :| Enabled(s, Rest(L.Run(t, pick))) {
      es := GoOn(s, Rest(L.Run(t, pick)));
    } else if Enabled(s, Rest(L.Main)) {
      es := GoOn(s, Rest(L.Main));
    }
  }

  lemma {:induction false} GoOn(s: State, e: Event) returns (es: seq<Event>)
    requires Inv(s) && Enabled(s, e)
    requires (s.bounce.harmed ==> Step(s, e).bounce.harmed) && Step(s, e).bounce.spurious == s.bounce.spurious
    ensures var r := Exec(Step, s, es);
            Inv(r) && Stuck(r) && (s.bounce.harmed ==> r.bounce.harmed) && r.bounce.spurious == s.bounce.spurious
    decreases Measure(s), 0
  {
    StepInv(s, e);
    StepLowers(s, e);
    var rest := RunOut(Step(s, e));
    es := [e] + rest;
    ExecCons(Step, s, e, rest);
  }

  ghost predicate EndsIfStuck(s: State) {
    Stuck(s) && s.bounce.spurious == 0 ==> s.rest.main == L.Ended
  }

  /** A run of the whole test in which main waits for ever. */
  lemma {:induction false} HangingRun(N: nat, rounds: nat, J: nat) returns (es: seq<Event>)
    requires N > 0 && rounds > 0 && !(N == 1 && rounds == 1)
    ensures !EndsIfStuck(Exec(Step, Start(N, rounds, J), es))
  {
    var front := Lift(Limits.Solo(11 + J));
    Limits.SoloRunWastes(N, rounds, J);
    LiftedRun(Start(N, rounds, J), Limits.Solo(11 + J));
    RunInv(N, rounds, J, front);
    var rest := RunOut(Exec(Step, Start(N, rounds, J), front));
    es := front + rest;
    ExecAppend(Step, Start(N, rounds, J), front, rest);
    StuckRunsEndIffNotHarmed(N, rounds, J, es);
  }

  /** Whatever the schedule, the whole test ends without the help of spurious wakeups exactly when there is a single
      thread with a single round: for all other sizes it counts on its sleep and its yields. */
  lemma TestEndsIffOneClaim(N: nat, rounds: nat, J: nat)
    requires N > 0 && rounds > 0
    ensures (forall es :: EndsIfStuck(Exec(Step, Start(N, rounds, J), es))) <==> N == 1 && rounds == 1
  {
    if N == 1 && rounds == 1 {
      forall es ensures EndsIfStuck(Exec(Step, Start(N, rounds, J), es)) {
        OneClaimEnds(J, es);
      }
    } else {
      var es := HangingRun(N, rounds, J);
    }
  }

  /** The bounce rounds of a run of the whole test are a run of the bounce phase. */
  lemma {:induction false} BounceOf(N: nat, rounds: nat, J: nat, es: seq<Event>) returns (bs: seq<B.Event>)
    ensures Exec(Step, Start(N, rounds, J), es).bounce == Exec(B.Step, B.Start(N, rounds, J), bs)
  {
    bs := [];
    if es != [] {
      var front, e := es[..|es| - 1], es[|es| - 1];
      bs := BounceOf(N, rounds, J, front);
      if Enabled(Exec(Step, Start(N, rounds, J), front), e) && e.Bounce? {
        bs := OneMore(B.Start(N, rounds, J), bs, e.b);
      }
    }
  }

  lemma OneMore(b: B.State, bs: seq<B.Event>, e: B.Event) returns (more: seq<B.Event>)
    ensures Exec(B.Step, b, more) == B.Step(Exec(B.Step, b, bs), e)
  {
    more := bs + [e];
    assert more[..|more| - 1] == bs;
  }

  lemma {:induction false} OneClaimEnds(J: nat, es: seq<Event>)
    ensures EndsIfStuck(Exec(Step, Start(1, 1, J), es))
  {
    var bs := BounceOf(1, 1, J, es);
    Limits.LoneRoundIsSafe(J, bs);
    StuckRunsEndIffNotHarmed(1, 1, J, es);
  }
}
