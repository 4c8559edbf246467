/**
 How long a run of the stage scheduler can be: a broadcast may wake threads only to wait again, but not for ever.
 */
module StageBound {
  import opened Runs
  import opened StageScheduler

  function Gap(N: nat, stage: nat): nat {
    if stage < N then N - stage else 0
  }

  /** The steps left to a thread; a broadcast is charged with waking everybody. */
  function Rank(K: nat, N: nat, l: Local): nat {
    9 * Gap(N, l.stage) +
    match l.pc
    case Absent => 3 * K + 10 case Prologue => 3 * K + 11 case Lock => 3 * K + 10
    case Create => 2 * K + 7 + Gap(K, l.k) case Woken => 2 * K + 8 case Test => 2 * K + 7 case Waiting => 2 * K + 6
    case Segment => 2 * K + 6 case Increment => 2 * K + 5 case Broadcast => 2 * K + 3 case Unlock => 1 case Done => 0
  }

  function Ranks(K: nat, N: nat, threads: seq<Local>): nat {
    if threads == [] then 0
    else Ranks(K, N, threads[..|threads| - 1]) + Rank(K, N, threads[|threads| - 1])
  }

  lemma {:induction false} RankChange(K: nat, N: nat, threads: seq<Local>, t: nat, l: Local)
    requires t < |threads|
    ensures Ranks(K, N, threads[t := l]) == Ranks(K, N, threads) + Rank(K, N, l) - Rank(K, N, threads[t])
  {
    var last := |threads| - 1;
    if t < last {
      RankChange(K, N, threads[..last], t, l);
      assert threads[t := l][..last] == threads[..last][t := l];
    } else {
      assert threads[t := l][..last] == threads[..last];
    }
  }

  lemma {:induction false} WakeAllRanks(K: nat, N: nat, threads: seq<Local>)
    ensures Ranks(K, N, WakeAll(threads)) <= Ranks(K, N, threads) + 2 * |threads|
  {
    if threads != [] {
      var last := |threads| - 1;
      WakeAllRanks(K, N, threads[..last]);
      assert WakeAll(threads)[..last] == WakeAll(threads[..last]);
    }
  }

  lemma AdvanceRank(K: nat, R: nat, testStage: nat, t: nat, l: Local)
    requires K > 0 && l.pc !in {Absent, Waiting, Done}
    ensures Rank(K, K * R, Advance(K, R, testStage, t, l)) + 1 + (if l.pc == Broadcast then 2 * K else 0)
              <= Rank(K, K * R, l)
  {
  }

  function Measure<X>(s: State<X>): nat {
    Ranks(s.K, s.K * s.R, s.threads)
  }

  lemma ShareRanks<X>(seg: (nat, X) -> X, s: State<X>, t: nat)
    requires s.K > 0 && Enabled(s, Run(t))
    ensures Measure(Share(seg, s, t)) + 1 + (if s.threads[t].pc == Broadcast then 2 * s.K else 0) <= Measure(s)
  {
    AdvanceRank(s.K, s.R, s.testStage, t, s.threads[t]);
    RankChange(s.K, s.K * s.R, s.threads, t, Advance(s.K, s.R, s.testStage, t, s.threads[t]));
  }

  /** Creating a thread starts it at its own first stage. */
  lemma CreatedRank<X>(s: State<X>, t: nat)
    requires Creation(s) && Turns(s) && Enabled(s, Run(t)) && s.threads[t].pc == Create && s.threads[t].k < s.K
    ensures var k := s.threads[t].k;
            t == 0 < k && Rank(s.K, s.K * s.R, Local(Lock, k, 0)) == Rank(s.K, s.K * s.R, s.threads[k])
  {
    assert TurnOf(s, 0) && TurnOf(s, s.threads[t].k);
  }

  lemma RunLowers<X>(seg: (nat, X) -> X, s: State<X>, t: nat)
    requires Creation(s) && Turns(s) && Enabled(s, Run(t))
    ensures Measure(ApplyRun(seg, s, t)) + 1 <= Measure(s)
  {
    ShareRanks(seg, s, t);
    var l, r := s.threads[t], Share(seg, s, t);
    if l.pc == Broadcast {
      WakeAllRanks(s.K, s.K * s.R, r.threads);
    } else if l.pc == Create && l.k < s.K {
      CreatedRank(s, t);
      RankChange(s.K, s.K * s.R, r.threads, l.k, Local(Lock, l.k, 0));
    }
  }

  lemma SpuriousLowers<X>(seg: (nat, X) -> X, s: State<X>, t: nat)
    requires Enabled(s, Spurious(t))
    ensures Measure(Step(seg, s, Spurious(t))) + 1 <= Measure(s) + 3
  {
    RankChange(s.K, s.K * s.R, s.threads, t, s.threads[t].(pc := Woken));
  }

  lemma {:induction false} StartRanks(K: nat, N: nat, threads: seq<Local>)
    requires forall t :: 0 <= t < |threads| ==> threads[t].pc in {Prologue, Absent}
    ensures Ranks(K, N, threads) <= |threads| * (9 * N + 3 * K + 11)
  {
    if threads != [] {
      var last := |threads| - 1;
      StartRanks(K, N, threads[..last]);
      NextMultiple(last, 9 * N + 3 * K + 11);
    }
  }

  lemma StepLowers<X>(seg: (nat, X) -> X, x: X, s: State<X>, e: Event)
    requires Inv(seg, x, s) && Enabled(s, e)
    ensures Inv(seg, x, Step(seg, s, e)) && Measure(Step(seg, s, e)) + 1 <= Measure(s) + if e.Spurious? then 3 else 0
  {
    StepInv(seg, x, s, e);
    match e {
      case Run(t) => RunLowers(seg, s, t);
      case Spurious(t) => SpuriousLowers(seg, s, t);
    }
  }

  predicate IsEnabled<X>(s: State<X>, e: Event) {
    Enabled(s, e)
  }

  predicate IsSpurious(e: Event) {
    e.Spurious?
  }

  ghost function InvOf<X>(seg: (nat, X) -> X, x: X): State<X> -> bool {
    (s: State<X>) => Inv(seg, x, s)
  }

  lemma StepsLower<X(!new)>(seg: (nat, X) -> X, x: X)
    ensures Lowers(Move(seg), IsEnabled, InvOf(seg, x), Measure, IsSpurious, 3)
  {
    forall s: State<X>, e: Event | InvOf(seg, x)(s) && IsEnabled(s, e)
      ensures InvOf(seg, x)(Move(seg)(s, e))
      ensures Measure(Move(seg)(s, e)) + 1 <= Measure(s) + if IsSpurious(e) then 3 else 0
    {
      StepLowers(seg, x, s, e);
    }
  }

  lemma StartMeasure<X>(K: nat, R: nat, x: X)
    ensures Measure(Start(K, R, x)) <= K * (9 * (K * R) + 3 * K + 11)
  {
    StartRanks(K, K * R, Start(K, R, x).threads);
  }

  /** Every run is finite but for spurious wakeups, of which each costs at most three steps. */
  lemma {:induction false} EveryRunIsBounded<X(!new)>(seg: (nat, X) -> X, K: nat, R: nat, x: X, es: seq<Event>)
    requires K > 0 && R > 0 && Effective(Move(seg), IsEnabled, Start(K, R, x), es)
    ensures |es| <= K * (9 * (K * R) + 3 * K + 11) + 3 * Count(IsSpurious, es)
  {
    StartInv(seg, K, R, x);
    StepsLower(seg, x);
    BoundedRun(Move(seg), IsEnabled, InvOf(seg, x), Measure, IsSpurious, 3, Start(K, R, x), es);
    StartMeasure(K, R, x);
  }

  /** Any run goes on, without spurious wakeups, to where nobody can go on. */
  lemma {:induction false} RunOut<X(!new)>(seg: (nat, X) -> X, x: X, s: State<X>) returns (es: seq<Event>)
    requires Inv(seg, x, s)
    ensures Stuck(Exec(Move(seg), s, es))
    decreases Measure(s)
  {
    if t: nat :| Enabled(s, Run(t)) {
      StepLowers(seg, x, s, Run(t));
      var rest := RunOut(seg, x, Step(seg, s, Run(t)));
      es := [Run(t)] + rest;
      ExecCons(Move(seg), s, Run(t), rest);
    } else {
      es := [];
    }
  }
}
