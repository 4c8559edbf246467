/**
 How long a run of the bounce phase can be: nobody waits in a loop, so every step, spurious wakeups included, leaves
 less to do.
 */
module BounceBound {
  import opened Runs
  import opened Bounce

  function Gap(n: nat, k: nat): nat {
    if k < n then n - k else 0
  }

  /** The steps left to a thread: at most J + 9 a round. */
  function Rank(B: nat, J: nat, l: Local): nat {
    (J + 9) * Gap(B, l.round) +
    match l.pc
    case PreLock => J + 12 case Try => J + 11 case PreUnlock => J + 10 case Lock => J + 9 case Decide => J + 8
    case FirstUnlock => J + 7 case Sleep => J + 6 case Relock => J + 5 case Queued => J + 6 case Woken => J + 5
    case Claim => J + 4 case Yield => 3 + Gap(J, l.spins) case Signal => 2 case Unlock => 1 case Finished => 0
  }

  function Ranks(B: nat, J: nat, threads: seq<Local>): nat {
    if threads == [] then 0
    else Ranks(B, J, threads[..|threads| - 1]) + Rank(B, J, threads[|threads| - 1])
  }

  function Measure(s: State): nat {
    Ranks(s.B, s.J, s.threads)
  }

  lemma {:induction false} RankChange(B: nat, J: nat, threads: seq<Local>, t: nat, l: Local)
    requires t < |threads|
    ensures Ranks(B, J, threads[t := l]) == Ranks(B, J, threads) + Rank(B, J, l) - Rank(B, J, threads[t])
  {
    var last := |threads| - 1;
    if t < last {
      RankChange(B, J, threads[..last], t, l);
      assert threads[t := l][..last] == threads[..last][t := l];
    } else {
      assert threads[t := l][..last] == threads[..last];
    }
  }

  lemma OneRound(w: nat, n: nat)
    ensures w * (n + 1) == w * n + w
  {
  }

  lemma AdvanceRank(B: nat, J: nat, t: nat, l: Local)
    requires LocalInv(B, t, l) && l.pc !in {Queued, Finished} && l.spins <= J && B > 0
    ensures Rank(B, J, Advance(B, J, t, l)) + 1 <= Rank(B, J, l) && Advance(B, J, t, l).spins <= J
  {
    if l.pc == Unlock {
      OneRound(J + 9, Gap(B, l.round + 1));
    }
  }

  ghost predicate Fits(s: State) {
    && s.B > 0 && Rounds(s) && Queues(s)
    && forall t :: 0 <= t < |s.threads| ==> s.threads[t].spins <= s.J
  }

  lemma ShareLowers(s: State, t: nat)
    requires Fits(s) && t < |s.threads| && s.threads[t].pc !in {Queued, Finished}
    ensures var r := Share(s, t);
            && Measure(r) + 1 <= Measure(s) && r.B == s.B && r.J == s.J
            && forall u :: 0 <= u < |r.threads| ==> r.threads[u].spins <= r.J
  {
    AdvanceRank(s.B, s.J, t, s.threads[t]);
    RankChange(s.B, s.J, s.threads, t, Advance(s.B, s.J, t, s.threads[t]));
  }

  lemma WakeLowers(s: State, k: nat)
    requires Queues(s) && k < |s.queue| && forall u :: 0 <= u < |s.threads| ==> s.threads[u].spins <= s.J
    ensures var r := Wake(s, k);
            && Measure(r) + 1 <= Measure(s) && r.B == s.B && r.J == s.J
            && forall u :: 0 <= u < |r.threads| ==> r.threads[u].spins <= r.J
  {
    RankChange(s.B, s.J, s.threads, s.queue[k], s.threads[s.queue[k]].(pc := Woken));
  }

  lemma StepLowers(s: State, e: Event)
    requires Fits(s) && Enabled(s, e)
    ensures Fits(Step(s, e)) && Measure(Step(s, e)) + 1 <= Measure(s)
  {
    StepRounds(s, e);
    StepQueues(s, e);
    match e {
      case Spurious(pos) => WakeLowers(s, pos);
      case Run(t, pick) =>
        ShareLowers(s, t);
        if s.threads[t].pc == Signal && s.queue != [] {
          ShareQueues(s, t);
          WakeLowers(Share(s, t), pick);
        }
    }
  }

  lemma {:induction false} StartRanks(B: nat, J: nat, threads: seq<Local>)
    requires forall t :: 0 <= t < |threads| ==> threads[t] == Local(PreLock, 0, 0)
    ensures Ranks(B, J, threads) == |threads| * ((J + 9) * B + J + 12)
  {
    if threads != [] {
      StartRanks(B, J, threads[..|threads| - 1]);
      OneRound((J + 9) * B + J + 12, |threads| - 1);
    }
  }

  predicate Never(e: Event) {
    false
  }

  lemma StepsLower()
    ensures Lowers(Step, Enabled, Fits, Measure, Never, 0)
  {
    forall s: State, e: Event | Fits(s) && Enabled(s, e)
      ensures Fits(Step(s, e)) && Measure(Step(s, e)) + 1 <= Measure(s)
    {
      StepLowers(s, e);
    }
  }

  /** Every run of N threads over B rounds with J yields is finite, whatever wakes up spuriously. */
  lemma {:induction false} EveryRunIsBounded(N: nat, B: nat, J: nat, es: seq<Event>)
    requires B > 0 && Effective(Step, Enabled, Start(N, B, J), es)
    ensures |es| <= N * ((J + 9) * B + J + 12)
  {
    StepsLower();
    BoundedRun(Step, Enabled, Fits, Measure, Never, 0, Start(N, B, J), es);
    StartRanks(B, J, Start(N, B, J).threads);
  }
}
