/**
 What the bounce phase cannot promise: with nothing but the sleep of thread 0 to hold it back, a schedule may waste its
 first signal.  Only a lone thread with a single round is safe from that.
 */
module BounceLimits {
  import opened Runs
  import opened Bounce
  import opened BounceTurn
  import Bound = BounceBound

  // ----- Thread 0 runs ahead -----

  /** Thread 0 is in its first round and nobody else has done anything. */
  ghost predicate Ahead(s: State) {
    && |s.threads| > 0 && s.B > 0
    && s.threads[0].round == 0 && s.threads[0].spins <= s.J
    && s.threads[0].pc in {PreLock, Try, PreUnlock, Lock, Decide, FirstUnlock, Sleep, Relock, Claim, Yield, Signal}
    && (Holds(s.threads[0].pc) <==> s.owner == Held(0)) && (s.owner.Held? ==> s.owner.tid == 0)
    && (forall u :: 1 <= u < |s.threads| ==> s.threads[u].pc == PreLock)
    && s.queue == [] && s.spurious == 0
  }

  /** The steps thread 0 has to go until after its first signal. */
  function ToSignal(J: nat, l: Local): int {
    match l.pc
    case PreLock => J + 11 case Try => J + 10 case PreUnlock => J + 9 case Lock => J + 8 case Decide => J + 7
    case FirstUnlock => J + 6 case Sleep => J + 5 case Relock => J + 4 case Claim => J + 3 case Yield => 2 + J - l.spins
    case Signal => 1 case _ => 0
  }

  lemma AheadStep(s: State)
    requires Ahead(s) && s.threads[0].pc != Signal
    ensures var r := Step(s, Run(0, 0));
            && Ahead(r) && ToSignal(r.J, r.threads[0]) == ToSignal(s.J, s.threads[0]) - 1
            && r.B == s.B && |r.threads| == |s.threads|
  {
  }

  /** Its signal finds nobody, while there is still somebody to claim. */
  lemma AheadSignals(s: State)
    requires Ahead(s) && s.threads[0].pc == Signal && !(|s.threads| == 1 && s.B == 1)
    ensures Step(s, Run(0, 0)).harmed && Step(s, Run(0, 0)).spurious == 0
  {
    if |s.threads| > 1 {
      assert s.threads[1].pc != Finished;
    }
  }

  /** Thread 0 takes `n` steps and nobody else any. */
  function Solo(n: nat): (es: seq<Event>)
    ensures |es| == n
  {
    seq(n, _ => Run(0, 0))
  }

  lemma SoloSplits(s: State, n: nat)
    requires n > 0
    ensures Exec(Step, s, Solo(n)) == Exec(Step, Step(s, Run(0, 0)), Solo(n - 1))
  {
    assert Solo(n) == [Run(0, 0)] + Solo(n - 1);
    ExecCons(Step, s, Run(0, 0), Solo(n - 1));
  }

  lemma {:induction false} RunAhead(s: State, n: nat)
    requires Ahead(s) && !(|s.threads| == 1 && s.B == 1) && n == ToSignal(s.J, s.threads[0])
    ensures var r := Exec(Step, s, Solo(n)); r.harmed && r.spurious == 0
    decreases n
  {
    SoloSplits(s, n);
    if s.threads[0].pc == Signal {
      AheadSignals(s);
      assert Solo(0) == [];
    } else {
      AheadStep(s);
      RunAhead(Step(s, Run(0, 0)), n - 1);
    }
  }

  // ----- The exact condition for no signal to be wasted -----

  lemma {:induction false} LoneRoundIsSafe(J: nat, es: seq<Event>)
    ensures var s := Exec(Step, Start(1, 1, J), es); s.spurious == 0 ==> !s.harmed
  {
    RunAlone(1, J, es);
    var s := Exec(Step, Start(1, 1, J), es);
    assert multiset(s.claims)[0] == ClaimsDue(s.threads[0]);
    assert LocalInv(s.B, 0, s.threads[0]);
  }

  /** The run in which thread 0 does its first round before anybody else does anything: the double-lock attempt, the
      sleep, the claim, the yields and a signal that finds nobody. */
  lemma SoloRunWastes(N: nat, B: nat, J: nat)
    requires N > 0 && B > 0 && !(N == 1 && B == 1)
    ensures var s := Exec(Step, Start(N, B, J), Solo(11 + J)); s.harmed && s.spurious == 0
  {
    RunAhead(Start(N, B, J), 11 + J);
  }

  /** Without spurious wakeups no signal is wasted in any run exactly when there is a single thread with a single
      round. */
  lemma NoneWastedIffOneClaim(N: nat, B: nat, J: nat)
    requires N > 0 && B > 0
    ensures (forall es :: Exec(Step, Start(N, B, J), es).spurious == 0 ==> !Exec(Step, Start(N, B, J), es).harmed)
            <==> N == 1 && B == 1
  {
    if N == 1 && B == 1 {
      forall es | Exec(Step, Start(N, B, J), es).spurious == 0 ensures !Exec(Step, Start(N, B, J), es).harmed {
        LoneRoundIsSafe(J, es);
      }
    } else {
      SoloRunWastes(N, B, J);
    }
  }

  // ----- The exact condition for everybody to get through -----

  lemma RunKeepsHarm(s: State, t: nat, pick: nat)
    requires Enabled(s, Run(t, pick))
    ensures var r := Step(s, Run(t, pick)); (s.harmed ==> r.harmed) && r.spurious == s.spurious
  {
  }

  /** Any run goes on, without spurious wakeups, to where nobody can go on. */
  lemma {:induction false} RunOut(s: State) returns (es: seq<Event>)
    requires Bound.Fits(s)
    ensures var r := Exec(Step, s, es); Stuck(r) && (s.harmed ==> r.harmed) && r.spurious == s.spurious
    decreases Bound.Measure(s)
  {
    if t, pick :| Enabled(s, Run(t, pick)) {
      var e := Run(t, pick);
      Bound.StepLowers(s, e);
      RunKeepsHarm(s, t, pick);
      var rest := RunOut(Step(s, e));
      es := [e] + rest;
      ExecCons(Step, s, e, rest);
    } else {
      es := [];
    }
  }

  lemma {:induction false} ReachedFits(N: nat, B: nat, J: nat, es: seq<Event>)
    requires B > 0
    ensures Bound.Fits(Exec(Step, Start(N, B, J), es))
  {
    forall s, e | Bound.Fits(s) ensures Bound.Fits(Step(s, e)) {
      if Enabled(s, e) {
        Bound.StepLowers(s, e);
      }
    }
    Invariance(Step, Bound.Fits, Start(N, B, J), es);
  }

  /** A run that strands somebody. */
  lemma {:induction false} StrandingRun(N: nat, B: nat, J: nat) returns (es: seq<Event>)
    requires N > 0 && B > 0 && !(N == 1 && B == 1)
    ensures var s := Exec(Step, Start(N, B, J), es); Stuck(s) && s.spurious == 0 && !AllFinished(s)
  {
    var front := Solo(11 + J);
    SoloRunWastes(N, B, J);
    ReachedFits(N, B, J, front);
    var rest := RunOut(Exec(Step, Start(N, B, J), front));
    es := front + rest;
    ExecAppend(Step, Start(N, B, J), front, rest);
    StuckIsFinishedIffNotHarmed(N, B, J, es);
  }

  ghost predicate GetsThrough(s: State) {
    Stuck(s) && s.spurious == 0 ==> AllFinished(s)
  }

  /** Whatever the schedule, everybody gets through without the help of spurious wakeups exactly when there is a single
      thread with a single round: for all other sizes the test counts on its sleep and its yields. */
  lemma AllGetThroughIffOneClaim(N: nat, B: nat, J: nat)
    requires N > 0 && B > 0
    ensures (forall es :: GetsThrough(Exec(Step, Start(N, B, J), es))) <==> N == 1 && B == 1
  {
    if N == 1 && B == 1 {
      forall es ensures GetsThrough(Exec(Step, Start(N, B, J), es)) {
        LoneThreadNeedsHelp(B, J, es);
      }
    } else {
      var es := StrandingRun(N, B, J);
      assert !GetsThrough(Exec(Step, Start(N, B, J), es));
    }
  }
}
