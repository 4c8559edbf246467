/**
 The turn of the bounce phase: it is conserved, every thread claims once a round, and a run gets everybody through
 exactly when no signal is wasted while somebody still has rounds to go.
 */
module BounceTurn {
  import opened Runs
  import opened Bounce

  /** Thread `t` has the turn, or will take it without being signalled. */
  predicate Carries(t: nat, l: Local) {
    || l.pc in {Woken, FirstUnlock, Sleep, Relock, Claim, Yield, Signal}
    || (t == 0 && l.round == 0 && l.pc in {PreLock, Try, PreUnlock, Lock, Decide})
  }

  function One(b: bool): nat {
    if b then 1 else 0
  }

  /** The turns that threads 0..n-1 carry. */
  function Turns(threads: seq<Local>, n: nat): nat
    requires n <= |threads|
  {
    if n == 0 then 0 else Turns(threads, n - 1) + One(Carries(n - 1, threads[n - 1]))
  }

  lemma {:induction false} TurnsChange(threads: seq<Local>, t: nat, l: Local, n: nat)
    requires t < |threads| && n <= |threads|
    ensures Turns(threads[t := l], n) ==
              Turns(threads, n) + if t < n then One(Carries(t, l)) - One(Carries(t, threads[t])) else 0
  {
    if n > 0 {
      TurnsChange(threads, t, l, n - 1);
    }
  }

  lemma {:induction false} TurnsAtLeast(threads: seq<Local>, t: nat, n: nat)
    requires t < n <= |threads| && Carries(t, threads[t])
    ensures Turns(threads, n) >= 1
    ensures forall u :: t < u < n && Carries(u, threads[u]) ==> Turns(threads, n) >= 2
  {
    if t < n - 1 {
      TurnsAtLeast(threads, t, n - 1);
    }
  }

  /** Signals that find nobody lose a turn, spurious wakeups make one. */
  ghost predicate Conserved(s: State) {
    Turns(s.threads, |s.threads|) + s.lost == 1 + s.spurious
  }

  lemma AdvanceCarries(B: nat, J: nat, t: nat, l: Local)
    requires LocalInv(B, t, l) && B > 0
    ensures Carries(t, Advance(B, J, t, l)) <==> Carries(t, l) && l.pc != Signal
  {
  }

  lemma WakeTurns(s: State, k: nat)
    requires Queues(s) && k < |s.queue|
    ensures var r := Wake(s, k).threads;
            |r| == |s.threads| && Turns(r, |r|) == Turns(s.threads, |r|) + 1
  {
    var t := s.queue[k];
    TurnsChange(s.threads, t, s.threads[t].(pc := Woken), |s.threads|);
  }

  lemma ShareTurns(s: State, t: nat)
    requires Rounds(s) && t < |s.threads| && s.B > 0
    ensures var r := Share(s, t).threads;
            |r| == |s.threads| && Turns(r, |r|) + One(s.threads[t].pc == Signal) == Turns(s.threads, |r|)
  {
    var l := s.threads[t];
    AdvanceCarries(s.B, s.J, t, l);
    TurnsChange(s.threads, t, Advance(s.B, s.J, t, l), |s.threads|);
  }

  lemma StepConserved(s: State, e: Event)
    requires Conserved(s) && Rounds(s) && Queues(s) && s.B > 0
    ensures Conserved(Step(s, e))
  {
    if Enabled(s, e) {
      match e {
        case Spurious(pos) => WakeTurns(s, pos);
        case Run(t, pick) =>
          ShareTurns(s, t);
          if s.threads[t].pc == Signal && s.queue != [] {
            ShareQueues(s, t);
            WakeTurns(Share(s, t), pick);
          }
      }
    }
  }

  // ----- Claims -----

  /** Claims thread `t` has made: one a round. */
  function ClaimsDue(l: Local): nat {
    l.round + One(l.pc in {Yield, Signal, Unlock})
  }

  ghost predicate Counted(s: State) {
    forall t :: 0 <= t < |s.threads| ==> multiset(s.claims)[t] == ClaimsDue(s.threads[t])
  }

  lemma ShareCounted(s: State, t: nat)
    requires Counted(s) && t < |s.threads|
    ensures Counted(Share(s, t))
  {
  }

  lemma WakeCounted(s: State, k: nat)
    requires Counted(s) && Queues(s) && k < |s.queue|
    ensures Counted(Wake(s, k))
  {
  }

  lemma StepCounted(s: State, e: Event)
    requires Counted(s) && Queues(s)
    ensures Counted(Step(s, e))
  {
    if Enabled(s, e) {
      match e {
        case Spurious(pos) => WakeCounted(s, pos);
        case Run(t, pick) =>
          ShareCounted(s, t);
          if s.threads[t].pc == Signal && s.queue != [] {
            ShareQueues(s, t);
            WakeCounted(Share(s, t), pick);
          }
      }
    }
  }

  // ----- Wasted signals -----

  /** What a signal that found nobody means once there are no spurious wakeups to make up for it. */
  ghost predicate Wasted(s: State) {
    && (s.harmed ==> s.lost > 0)
    && (s.spurious == 0 && s.harmed ==> exists u :: 0 <= u < |s.threads| && multiset(s.claims)[u] < s.B)
    && (s.spurious == 0 && s.lost > 0 && !s.harmed ==>
          forall u :: 0 <= u < |s.threads| ==> multiset(s.claims)[u] == s.B)
  }

  ghost predicate Inv(s: State) {
    && s.B > 0
    && Exclusive(s) && Rounds(s) && Queues(s)
    && Conserved(s) && Counted(s) && Wasted(s)
  }

  lemma SignalWastes(s: State, t: nat)
    requires Inv(s) && t < |s.threads| && s.threads[t].pc == Signal
    ensures Unfinished(s, t) ==> exists u :: 0 <= u < |s.threads| && multiset(s.claims)[u] < s.B
    ensures !Unfinished(s, t) ==> forall u :: 0 <= u < |s.threads| ==> multiset(s.claims)[u] == s.B
  {
    if s.threads[t].round + 1 < s.B {
      assert multiset(s.claims)[t] < s.B;
    } else if exists u :: 0 <= u < |s.threads| && u != t && s.threads[u].pc != Finished {
      var u :| 0 <= u < |s.threads| && u != t && s.threads[u].pc != Finished;
      assert !Holds(s.threads[u].pc);
      assert multiset(s.claims)[u] < s.B;
    }
  }

  /** Only a claim adds to the claims, and only a signal that finds nobody is lost. */
  lemma WastedFrame(s: State, e: Event)
    requires Enabled(s, e) && (e.Run? ==> s.threads[e.tid].pc !in {Signal, Claim})
    ensures var r := Step(s, e);
            && r.claims == s.claims && r.lost == s.lost && r.harmed == s.harmed && r.B == s.B
            && |r.threads| == |s.threads| && r.spurious == s.spurious + One(e.Spurious?)
  {
  }

  lemma SignalFrame(s: State, e: Event)
    requires Enabled(s, e) && e.Run? && s.threads[e.tid].pc == Signal
    ensures var r := Step(s, e);
            && r.claims == s.claims && r.B == s.B && |r.threads| == |s.threads| && r.spurious == s.spurious
            && r.lost == s.lost + One(s.queue == [])
            && r.harmed == (s.harmed || (s.queue == [] && Unfinished(s, e.tid)))
  {
  }

  lemma SignalWasted(s: State, e: Event)
    requires Inv(s) && Enabled(s, e) && e.Run? && s.threads[e.tid].pc == Signal
    ensures Wasted(Step(s, e))
  {
    SignalFrame(s, e);
    SignalWastes(s, e.tid);
    TurnsAtLeast(s.threads, e.tid, |s.threads|);
  }

  lemma ClaimWasted(s: State, e: Event)
    requires Inv(s) && Enabled(s, e) && e.Run? && s.threads[e.tid].pc == Claim
    ensures Wasted(Step(s, e))
  {
    TurnsAtLeast(s.threads, e.tid, |s.threads|);
  }

  lemma StepWasted(s: State, e: Event)
    requires Inv(s)
    ensures Wasted(Step(s, e))
  {
    if Enabled(s, e) {
      if e.Run? && s.threads[e.tid].pc == Signal {
        SignalWasted(s, e);
      } else if e.Run? && s.threads[e.tid].pc == Claim {
        ClaimWasted(s, e);
      } else {
        WastedFrame(s, e);
      }
    }
  }

  lemma StepFrame(s: State, e: Event)
    ensures Step(s, e).B == s.B && |Step(s, e).threads| == |s.threads|
  {
  }

  lemma StepSafe(s: State, e: Event)
    requires Exclusive(s) && Rounds(s) && Queues(s)
    ensures Exclusive(Step(s, e)) && Rounds(Step(s, e)) && Queues(Step(s, e))
  {
    StepExclusive(s, e);
    StepRounds(s, e);
    StepQueues(s, e);
  }

  lemma StepInv(s: State, e: Event)
    requires Inv(s)
    ensures Inv(Step(s, e)) && Step(s, e).B == s.B && |Step(s, e).threads| == |s.threads|
  {
    StepFrame(s, e);
    StepSafe(s, e);
    StepConserved(s, e);
    StepCounted(s, e);
    StepWasted(s, e);
  }

  // ----- All runs -----

  lemma {:induction false} NoTurns(threads: seq<Local>, n: nat)
    requires n <= |threads|
    requires forall t :: 0 <= t < n ==> !Carries(t, threads[t])
    ensures Turns(threads, n) == 0
  {
    if n > 0 {
      NoTurns(threads, n - 1);
    }
  }

  lemma {:induction false} OneTurn(threads: seq<Local>, n: nat)
    requires 0 < n <= |threads|
    requires forall t :: 0 <= t < n ==> (Carries(t, threads[t]) <==> t == 0)
    ensures Turns(threads, n) == 1
  {
    if n > 1 {
      OneTurn(threads, n - 1);
    }
  }

  lemma StartInv(N: nat, B: nat, J: nat)
    requires N > 0 && B > 0
    ensures Inv(Start(N, B, J))
  {
    OneTurn(Start(N, B, J).threads, N);
  }

  lemma {:induction false} RunInv(N: nat, B: nat, J: nat, es: seq<Event>)
    requires N > 0 && B > 0
    ensures var s := Exec(Step, Start(N, B, J), es);
            Inv(s) && s.B == B && |s.threads| == N
  {
    var inv := (t: State) => Inv(t) && t.B == B && |t.threads| == N;
    StartInv(N, B, J);
    forall t, e | inv(t) ensures inv(Step(t, e)) {
      StepInv(t, e);
    }
    Invariance(Step, inv, Start(N, B, J), es);
  }

  /** In every run, spurious wakeups included, nobody sees a foreign claim or gets the mutex twice, claims are
      made one a round, and turns are only lost to signals that find nobody and made by spurious wakeups; without
      those at most one thread has the turn. */
  lemma {:induction false} EveryRunKeepsTheTurn(N: nat, B: nat, J: nat, es: seq<Event>)
    requires N > 0 && B > 0
    ensures var s := Exec(Step, Start(N, B, J), es);
            && !s.failed
            && |s.threads| == N
            && Turns(s.threads, N) + s.lost == 1 + s.spurious
            && (forall t :: 0 <= t < N ==> multiset(s.claims)[t] == ClaimsDue(s.threads[t]) <= B)
            && (s.spurious == 0 ==>
                 forall t, u :: 0 <= t < u < N ==> !(Carries(t, s.threads[t]) && Carries(u, s.threads[u])))
  {
    RunInv(N, B, J, es);
    var s := Exec(Step, Start(N, B, J), es);
    forall t, u | 0 <= t < u < N && Carries(t, s.threads[t]) && Carries(u, s.threads[u])
      ensures Turns(s.threads, N) >= 2
    {
      TurnsAtLeast(s.threads, t, N);
    }
  }

  /** No thread can go on without a spurious wakeup. */
  ghost predicate Stuck(s: State) {
    forall t, pick :: !Enabled(s, Run(t, pick))
  }

  predicate AllFinished(s: State) {
    forall t :: 0 <= t < |s.threads| ==> s.threads[t].pc == Finished
  }

  lemma StuckThreads(s: State)
    requires Exclusive(s) && Queues(s) && Stuck(s)
    ensures forall t :: 0 <= t < |s.threads| ==> s.threads[t].pc in {Queued, Finished}
  {
    assert s.owner.Held? ==> !Enabled(s, Run(s.owner.tid, 0));
    forall t: nat | t < |s.threads| ensures s.threads[t].pc in {Queued, Finished} {
      assert !Enabled(s, Run(t, 0));
    }
  }

  lemma StuckIsThroughIffNotHarmed(s: State)
    requires Inv(s) && Stuck(s)
    ensures s.lost == 1 + s.spurious
    ensures s.spurious == 0 ==> (AllFinished(s) <==> !s.harmed)
    ensures AllFinished(s) ==> forall t :: 0 <= t < |s.threads| ==> multiset(s.claims)[t] == s.B
  {
    StuckThreads(s);
    NoTurns(s.threads, |s.threads|);
    if s.spurious == 0 && !s.harmed {
      assert forall t :: 0 <= t < |s.threads| && s.threads[t].pc == Queued ==> multiset(s.claims)[t] < s.B;
    }
  }

  /** Once no thread can go on, every turn is gone; and if no spurious wakeup helped, all threads are through
      exactly when no signal was wasted. */
  lemma {:induction false} StuckIsFinishedIffNotHarmed(N: nat, B: nat, J: nat, es: seq<Event>)
    requires N > 0 && B > 0
    ensures var s := Exec(Step, Start(N, B, J), es);
            Stuck(s) ==>
              && s.lost == 1 + s.spurious
              && (s.spurious == 0 ==> (AllFinished(s) <==> !s.harmed))
              && (AllFinished(s) ==> forall t :: 0 <= t < N ==> multiset(s.claims)[t] == B)
  {
    RunInv(N, B, J, es);
    var s := Exec(Step, Start(N, B, J), es);
    if Stuck(s) {
      StuckIsThroughIffNotHarmed(s);
    }
  }

  // ----- One thread alone -----

  /** A lone thread signals nobody: it loses a turn every round. */
  ghost predicate Alone(s: State) {
    |s.threads| == 1 && s.lost == s.threads[0].round + One(s.threads[0].pc == Unlock)
  }

  lemma StepAlone(s: State, e: Event)
    requires Alone(s) && Inv(s)
    ensures Alone(Step(s, e))
  {
    assert s.queue != [] ==> s.queue[0] == 0 && s.threads[0].pc == Queued;
    assert LocalInv(s.B, 0, s.threads[0]);
  }

  lemma {:induction false} RunAlone(B: nat, J: nat, es: seq<Event>)
    requires B > 0
    ensures var s := Exec(Step, Start(1, B, J), es); Alone(s) && Inv(s) && s.B == B
  {
    var inv := (t: State) => Alone(t) && Inv(t) && t.B == B;
    StartInv(1, B, J);
    forall t, e | inv(t) ensures inv(Step(t, e)) {
      StepAlone(t, e);
      StepInv(t, e);
    }
    Invariance(Step, inv, Start(1, B, J), es);
  }

  /** A thread that has the test to itself gets through its B rounds exactly when B - 1 spurious wakeups help it: with
      none, exactly when there is one round. */
  lemma {:induction false} LoneThreadNeedsHelp(B: nat, J: nat, es: seq<Event>)
    requires B > 0
    ensures var s := Exec(Step, Start(1, B, J), es);
            Stuck(s) ==> (AllFinished(s) <==> s.spurious == B - 1)
  {
    RunAlone(B, J, es);
    var s := Exec(Step, Start(1, B, J), es);
    if Stuck(s) {
      StuckThreads(s);
      NoTurns(s.threads, 1);
      assert LocalInv(s.B, 0, s.threads[0]);
    }
  }
}
