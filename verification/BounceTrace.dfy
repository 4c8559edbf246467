/**
 What every thread of the bounce phase does whatever the schedule: how often it looks at its claim, and what raises the
 failure flag.
 */
module BounceTrace {
  import opened Runs
  import opened Bounce

  /** Thread `t` looks whether its claim still stands, and yields. */
  predicate Watches(t: nat, s: State, e: Event) {
    && e.Run? && e.tid == t && Enabled(s, e)
    && s.threads[t].pc == Yield && s.threads[t].spins < s.J
  }

  function Watching(t: nat): (State, Event) -> bool {
    (s: State, e: Event) => Watches(t, s, e)
  }

  /** The looks due: J for each claim signalled, and those of the claim that stands. */
  function LooksDue(J: nat, l: Local): int {
    J * l.round + (if l.pc == Yield then l.spins else if l.pc in {Signal, Unlock} then J else 0)
  }

  lemma AddRound(J: nat, n: nat)
    ensures J * (n + 1) == J * n + J
  {
  }

  lemma AdvanceLooks(B: nat, J: nat, t: nat, l: Local)
    requires l.spins <= J
    ensures var r := Advance(B, J, t, l);
            r.spins <= J && LooksDue(J, r) == LooksDue(J, l) + if l.pc == Yield && l.spins < J then 1 else 0
  {
    AddRound(J, l.round);
  }

  /** What a step leaves of a thread: it has advanced, was woken, or did nothing. */
  lemma ThreadAfter(s: State, e: Event, t: nat)
    requires Queues(s) && t < |s.threads|
    ensures var r, l := Step(s, e), s.threads[t];
            && |r.threads| == |s.threads| && r.J == s.J && r.B == s.B
            && if Enabled(s, e) && e.Run? && e.tid == t then r.threads[t] == Advance(s.B, s.J, t, l)
               else r.threads[t] == l || (l.pc == Queued && r.threads[t] == l.(pc := Woken))
  {
  }

  ghost predicate Spun(s: State, J: nat, N: nat) {
    Queues(s) && s.J == J && |s.threads| == N && forall t :: 0 <= t < N ==> s.threads[t].spins <= J
  }

  lemma StepSpun(s: State, e: Event, J: nat, N: nat)
    requires Spun(s, J, N)
    ensures Spun(Step(s, e), J, N)
  {
    StepQueues(s, e);
    StepKeepsSizes(s, e);
    forall t | 0 <= t < N ensures Step(s, e).threads[t].spins <= J {
      ThreadAfter(s, e, t);
      AdvanceLooks(s.B, J, t, s.threads[t]);
    }
  }

  lemma StepKeepsSizes(s: State, e: Event)
    ensures |Step(s, e).threads| == |s.threads| && Step(s, e).J == s.J
  {
  }

  lemma StepLooks(s: State, e: Event, t: nat)
    requires Queues(s) && t < |s.threads| && s.threads[t].spins <= s.J
    ensures |Step(s, e).threads| == |s.threads|
    ensures LooksDue(s.J, Step(s, e).threads[t])
            == LooksDue(s.J, s.threads[t]) + if Watches(t, s, e) then 1 else 0
  {
    ThreadAfter(s, e, t);
    AdvanceLooks(s.B, s.J, t, s.threads[t]);
  }

  /** In every run each thread has looked exactly J times at each claim it signalled, and so often at the claim it holds
      as it has yielded since: no claim is passed on before it stood all J looks. */
  lemma {:induction false} EveryClaimIsWatched(N: nat, B: nat, J: nat, es: seq<Event>, t: nat)
    requires t < N
    ensures var s := Exec(Step, Start(N, B, J), es);
            Spun(s, J, N) && StepsWhere(Step, Watching(t), Start(N, B, J), es) == LooksDue(J, s.threads[t])
  {
    if es != [] {
      var front, e := es[..|es| - 1], es[|es| - 1];
      EveryClaimIsWatched(N, B, J, front, t);
      StepSpun(Exec(Step, Start(N, B, J), front), e, J, N);
      StepLooks(Exec(Step, Start(N, B, J), front), e, t);
    }
  }

  /** A thread gets a mutex it holds already, or finds a foreign claim while it looks. */
  predicate Alarms(s: State, e: Event) {
    && e.Run? && Enabled(s, e)
    && var l := s.threads[e.tid];
       (l.pc == Try && s.owner == Free) || (l.pc == Yield && l.spins < s.J && s.curr != e.tid)
  }

  lemma StepAlarms(s: State, e: Event)
    ensures Step(s, e).failed <==> s.failed || Alarms(s, e)
  {
  }

  /** The failure flag is up exactly when a thread got the mutex twice or met a foreign claim while it held the turn. */
  lemma {:induction false} FailedIffAlarmed(N: nat, B: nat, J: nat, es: seq<Event>)
    ensures Exec(Step, Start(N, B, J), es).failed <==> StepsWhere(Step, Alarms, Start(N, B, J), es) > 0
  {
    forall s, e ensures Step(s, e).failed <==> s.failed || Alarms(s, e) {
      StepAlarms(s, e);
    }
    FlagIffRaised(Step, (s: State) => s.failed, Alarms, Start(N, B, J), es);
  }
}
