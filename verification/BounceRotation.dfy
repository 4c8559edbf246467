/**
 The bounce phase under the scheduling its authors counted on: the queue of the condition variable is first in,
 first out, and a thread takes the turn only when all others wait or are through.  Then the claims rotate.
 */
module BounceRotation {
  import opened Runs
  import opened Bounce
  import opened BounceTurn

  predicate OthersAside(s: State, t: nat) {
    forall u :: 0 <= u < |s.threads| && u != t ==> s.threads[u].pc in {Queued, Finished}
  }

  predicate Disciplined(s: State, e: Event) {
    && Enabled(s, e)
    && e.Run?
    && (s.threads[e.tid].pc in {Woken, Relock} ==> OthersAside(s, e.tid))
    && (s.threads[e.tid].pc == Signal ==> e.pick == 0)
  }

  // ----- Rotations -----

  /** N different threads take turns. */
  ghost predicate Rotates(F: seq<nat>, N: nat) {
    && (forall k :: 0 <= k < |F| ==> F[k] < N)
    && (forall j, k :: 0 <= j < |F| && k == j + N && k < |F| ==> F[j] == F[k])
    && (forall j, k :: 0 <= j < k < |F| && k < j + N ==> F[j] != F[k])
  }

  /** B times around. */
  ghost predicate IsRotation(F: seq<nat>, N: nat, B: nat) {
    |F| == N * B && Rotates(F, N)
  }

  function Around(R: seq<nat>, B: nat): (F: seq<nat>)
    ensures |F| == |R| * B
  {
    if B == 0 then [] else R + Around(R, B - 1)
  }

  lemma {:induction false} AroundRotates(R: seq<nat>, B: nat)
    requires |R| > 0 && B > 0
    requires forall k :: 0 <= k < |R| ==> R[k] < |R|
    requires forall j, k :: 0 <= j < k < |R| ==> R[j] != R[k]
    ensures IsRotation(Around(R, B), |R|, B) && R <= Around(R, B)
  {
    var F, N := Around(R, B), |R|;
    if B == 1 {
      assert F == R + [] == R;
    } else {
      var G := Around(R, B - 1);
      AroundRotates(R, B - 1);
      assert F == R + G;
      forall j, k | 0 <= j < |F| && k == j + N && k < |F| ensures F[j] == F[k] {
        if j >= N {
          assert F[j] == G[j - N] && F[k] == G[k - N];
        } else {
          assert F[k] == G[j] == R[j];
        }
      }
      forall j, k | 0 <= j < k < |F| && k < j + N ensures F[j] != F[k] {
        if j >= N {
          assert F[j] == G[j - N] && F[k] == G[k - N];
        } else if k >= N {
          assert F[k] == G[k - N] == R[k - N];
        }
      }
    }
  }

  /** How often the thread at position `k` has occurred by then. */
  function Occurrences(F: seq<nat>, k: nat): nat
    requires k < |F|
  {
    multiset(F[..k + 1])[F[k]]
  }

  lemma OneMoreOccurrence(F: seq<nat>, N: nat, k: nat)
    requires Rotates(F, N) && N <= k < |F| && N > 0
    ensures Occurrences(F, k) == Occurrences(F, k - N) + 1
  {
    var x, w := F[k], F[k - N + 1..k];
    assert F[k - N] == x;
    assert x !in w;
    assert F[..k + 1] == F[..k - N + 1] + w + [x];
  }

  lemma FirstOccurrence(F: seq<nat>, N: nat, k: nat)
    requires Rotates(F, N) && k < |F| && k < N
    ensures Occurrences(F, k) == 1
  {
    assert F[..k + 1] == F[..k] + [F[k]];
    assert F[k] !in F[..k];
  }

  predicate InRound(N: nat, n: nat, k: nat) {
    n >= 1 && N * (n - 1) <= k < N * n
  }

  lemma NextRound(N: nat, n: nat, k: nat)
    requires InRound(N, n, k)
    ensures InRound(N, n + 1, k + N)
  {
  }

  /** The n-th occurrence of a thread is in the n-th round. */
  lemma {:induction false} OccurrenceAt(F: seq<nat>, N: nat, k: nat)
    requires Rotates(F, N) && k < |F| && N > 0
    ensures InRound(N, Occurrences(F, k), k)
  {
    if k < N {
      FirstOccurrence(F, N, k);
    } else {
      OccurrenceAt(F, N, k - N);
      OneMoreOccurrence(F, N, k);
      NextRound(N, Occurrences(F, k - N), k - N);
    }
  }

  lemma MoreRounds(N: nat, B: nat, n: nat, k: nat)
    requires InRound(N, n, k)
    ensures n < B <==> k + N < N * B
  {
    if n < B {
      MulLeq(N, n + 1, B);
    } else {
      MulLeq(N, B, n);
    }
  }

  /** A thread has rounds to go exactly when it occurs again. */
  lemma OccursAgain(F: seq<nat>, N: nat, B: nat, k: nat)
    requires IsRotation(F, N, B) && k < |F| && N > 0
    ensures Occurrences(F, k) < B <==> k + N < |F|
    ensures k + N < |F| ==> F[k + N] == F[k]
  {
    OccurrenceAt(F, N, k);
    MoreRounds(N, B, Occurrences(F, k), k);
  }

  lemma MulLeq(N: nat, a: nat, b: nat)
    requires a <= b
    ensures N * a <= N * b
  {
  }

  // ----- The invariant -----

  function Min(a: int, b: int): int {
    if a < b then a else b
  }

  /** The threads due after claim `c`, except the one that made claim `c - 1` and is on its way back. */
  function Due(F: seq<nat>, N: nat, c: nat): seq<nat>
    requires c <= |F| && N > 0
  {
    F[c..Min(c + N - 1, |F|)]
  }

  /** Before the first claim. */
  ghost predicate Gathering(s: State) {
    && s.claims == [] && s.lost == 0 && !s.harmed
    && |s.threads| > 0
    && (forall t :: 1 <= t < |s.threads| ==>
          s.threads[t].pc in {PreLock, Try, PreUnlock, Lock, Decide, Queued} && s.threads[t].round == 0)
    && s.threads[0].round == 0
    && s.threads[0].pc in {PreLock, Try, PreUnlock, Lock, Decide, FirstUnlock, Sleep, Relock, Claim}
    && (s.threads[0].pc == Claim ==> OthersAside(s, 0))
  }

  /** Between the claim and the signal of thread `p`. */
  ghost predicate Claimed(s: State, F: seq<nat>, p: nat)
    requires p < |s.threads| && |s.claims| <= |F|
  {
    && s.threads[p].pc in {Yield, Signal}
    && OthersAside(s, p)
    && s.queue == Due(F, |s.threads|, |s.claims|)
    && s.lost == 0 && !s.harmed
  }

  /** After the signal of `p`, before the claim of its successor `h`. */
  ghost predicate Passed(s: State, F: seq<nat>, p: nat, h: nat)
    requires p < |s.threads| && h < |s.threads| && |s.claims| < |F|
  {
    var due := Due(F, |s.threads|, |s.claims|);
    && p != h && due != []
    && s.threads[h].pc in {Woken, Claim}
    && s.threads[p].pc in {Unlock, Lock, Decide, Queued, Finished}
    && s.queue == due[1..] + (if s.threads[p].pc == Queued then [p] else [])
    && (s.threads[h].pc == Claim ==> OthersAside(s, h))
    && (forall u :: 0 <= u < |s.threads| && u != p && u != h ==> s.threads[u].pc in {Queued, Finished})
    && s.lost == 0 && !s.harmed
  }

  /** After the last signal. */
  ghost predicate Over(s: State, p: nat)
    requires p < |s.threads|
  {
    && s.threads[p].pc in {Unlock, Finished}
    && (forall u :: 0 <= u < |s.threads| && u != p ==> s.threads[u].pc == Finished)
    && !s.harmed
  }

  ghost predicate Rotating(s: State, F: seq<nat>) {
    && IsRotation(F, |s.threads|, s.B)
    && 0 < |s.claims| <= |F|
    && s.claims == F[..|s.claims|]
    && var p := s.claims[|s.claims| - 1];
       && p < |s.threads|
       && if s.threads[p].pc in {Yield, Signal} then Claimed(s, F, p)
          else if |s.claims| < |F| then F[|s.claims|] < |s.threads| && Passed(s, F, p, F[|s.claims|])
          else Over(s, p)
  }

  lemma GatheringStep(s: State, e: Event)
    requires Inv(s) && Gathering(s) && Disciplined(s, e) && s.threads[e.tid].pc != Claim
    ensures Gathering(Step(s, e))
  {
    assert s.threads[e.tid].pc != Signal;
  }

  function Below(N: nat): (r: set<nat>)
    ensures |r| == N && forall x: nat :: x in r <==> x < N
  {
    if N == 0 then {} else Below(N - 1) + {N - 1}
  }

  function Elements(R: seq<nat>): (r: set<nat>)
    requires forall j, k :: 0 <= j < k < |R| ==> R[j] != R[k]
    ensures |r| == |R| && forall x :: x in r <==> x in R
  {
    if R == [] then {}
    else
      assert R == R[..|R| - 1] + [R[|R| - 1]];
      Elements(R[..|R| - 1]) + {R[|R| - 1]}
  }

  lemma QueueIsDistinct(s: State)
    requires Queues(s) && Gathering(s) && s.threads[0].pc == Claim
    ensures var R := [0] + s.queue;
            && (forall k :: 0 <= k < |R| ==> R[k] < |s.threads|)
            && (forall j, k :: 0 <= j < k < |R| ==> R[j] != R[k])
  {
  }

  lemma EveryoneQueues(s: State, x: nat)
    requires Queues(s) && Gathering(s) && s.threads[0].pc == Claim && x < |s.threads|
    ensures x in [0] + s.queue
  {
    assert x > 0 ==> x in s.queue;
  }

  /** Thread 0 and the queue are all the threads. */
  lemma QueueIsTheRest(s: State)
    requires Queues(s) && Gathering(s) && s.threads[0].pc == Claim
    ensures var R := [0] + s.queue;
            && |R| == |s.threads|
            && (forall k :: 0 <= k < |R| ==> R[k] < |R|)
            && (forall j, k :: 0 <= j < k < |R| ==> R[j] != R[k])
  {
    var R, N := [0] + s.queue, |s.threads|;
    QueueIsDistinct(s);
    forall x: nat | x < N ensures x in R {
      EveryoneQueues(s, x);
    }
    assert Elements(R) == Below(N);
  }

  lemma AroundStarts(R: seq<nat>, B: nat, queue: seq<nat>)
    requires R == [0] + queue && B > 0
    ensures var F, N := Around(R, B), |R|;
            0 < N <= |F| && F[0] == 0 && F[..1] == [0] && Due(F, N, 1) == queue
  {
    var F, N := Around(R, B), |R|;
    MulLeq(N, 1, B);
    assert F[..N] == R;
  }

  /** The first claim fixes the rotation. */
  lemma FirstClaim(s: State, pick: nat) returns (F: seq<nat>)
    requires Queues(s) && Gathering(s) && s.threads[0].pc == Claim && s.B > 0
    ensures Rotating(Step(s, Run(0, pick)), F)
  {
    var R := [0] + s.queue;
    QueueIsTheRest(s);
    F := Around(R, s.B);
    AroundRotates(R, s.B);
    AroundStarts(R, s.B, s.queue);
  }

  lemma YieldStep(s: State, F: seq<nat>, e: Event)
    requires Rotating(s, F) && Disciplined(s, e)
    requires s.threads[s.claims[|s.claims| - 1]].pc == Yield
    ensures Rotating(Step(s, e), F)
  {
    assert e.tid == s.claims[|s.claims| - 1];
  }

  /** The thread that made the last claim is in its last round exactly when it does not occur again. */
  lemma LastRound(s: State, F: seq<nat>)
    requires IsRotation(F, |s.threads|, s.B) && Counted(s)
    requires 0 < |s.claims| <= |F| && s.claims == F[..|s.claims|]
    ensures var c := |s.claims|;
            var p := F[c - 1];
            && s.claims[c - 1] == p < |s.threads|
            && (ClaimsDue(s.threads[p]) < s.B <==> c - 1 + |s.threads| < |F|)
            && ClaimsDue(s.threads[p]) > 0
            && (c - 1 + |s.threads| < |F| ==> F[c - 1 + |s.threads|] == p)
  {
    var c := |s.claims|;
    OccursAgain(F, |s.threads|, s.B, c - 1);
    assert F[..c - 1 + 1] == s.claims;
    assert F[c - 1] in s.claims;
  }

  lemma LastSignalStep(s: State, F: seq<nat>, e: Event)
    requires Rotating(s, F) && Disciplined(s, e) && Queues(s) && Counted(s) && Rounds(s)
    requires s.threads[s.claims[|s.claims| - 1]].pc == Signal && |s.claims| == |F|
    ensures Rotating(Step(s, e), F)
  {
    LastRound(s, F);
    assert e.tid == s.claims[|s.claims| - 1];
    assert s.queue == [];
    assert !Unfinished(s, e.tid);
  }

  lemma SignalStep(s: State, F: seq<nat>, e: Event)
    requires Rotating(s, F) && Disciplined(s, e) && (|s.threads| >= 2 || s.B == 1)
    requires s.threads[s.claims[|s.claims| - 1]].pc == Signal && |s.claims| < |F|
    ensures Rotating(Step(s, e), F)
  {
    var c := |s.claims|;
    assert e.tid == s.claims[c - 1];
    assert s.queue[0] == F[c];
    assert F[c - 1] != F[c];
  }

  ghost predicate Between(s: State, F: seq<nat>) {
    && Rotating(s, F)
    && s.threads[s.claims[|s.claims| - 1]].pc !in {Yield, Signal}
    && |s.claims| < |F|
  }

  /** Only the predecessor, on its way back, and the successor can go on. */
  lemma WhoMoves(s: State, F: seq<nat>, e: Event)
    requires Between(s, F) && Disciplined(s, e)
    ensures |s.threads| >= 2
    ensures if e.tid == s.claims[|s.claims| - 1] then s.threads[e.tid].pc in {Unlock, Lock, Decide}
            else e.tid == F[|s.claims|] && s.threads[e.tid].pc in {Woken, Claim}
  {
  }

  /** The predecessor leaves the mutex, and takes it again unless it is through ... */
  lemma PredecessorLeaves(s: State, F: seq<nat>, e: Event)
    requires Between(s, F) && Disciplined(s, e)
    requires e.tid == s.claims[|s.claims| - 1] && s.threads[e.tid].pc in {Unlock, Lock}
    ensures Rotating(Step(s, e), F)
  {
  }

  /** ... and goes back to the queue. */
  lemma PredecessorWaits(s: State, F: seq<nat>, e: Event)
    requires Between(s, F) && Disciplined(s, e) && Counted(s)
    requires e.tid == s.claims[|s.claims| - 1] && s.threads[e.tid].pc == Decide
    ensures Rotating(Step(s, e), F)
  {
    LastRound(s, F);
  }

  /** The successor takes the mutex. */
  lemma SuccessorLocks(s: State, F: seq<nat>, e: Event)
    requires Between(s, F) && Disciplined(s, e) && s.threads[e.tid].pc == Woken
    ensures Rotating(Step(s, e), F)
  {
  }

  lemma DueNext(F: seq<nat>, N: nat, c: nat, tail: seq<nat>)
    requires 0 < c < |F| && N >= 2
    requires tail == if c - 1 + N < |F| then [F[c - 1 + N]] else []
    ensures Due(F, N, c)[1..] + tail == Due(F, N, c + 1)
  {
  }

  lemma ClaimFrame(s: State, e: Event)
    requires Enabled(s, e) && e.Run? && s.threads[e.tid].pc == Claim
    ensures var r, t := Step(s, e), e.tid;
            && r.threads == s.threads[t := s.threads[t].(pc := Yield, spins := 0)]
            && r.claims == s.claims + [t] && r.queue == s.queue
            && r.lost == s.lost && r.harmed == s.harmed && r.B == s.B
  {
  }

  lemma OneMoreClaim(claims: seq<nat>, F: seq<nat>)
    requires |claims| < |F| && claims == F[..|claims|]
    ensures claims + [F[|claims|]] == F[..|claims| + 1]
  {
  }

  /** The successor claims. */
  lemma SuccessorClaims(s: State, F: seq<nat>, e: Event)
    requires Between(s, F) && Disciplined(s, e) && Counted(s) && Rounds(s) && |s.threads| >= 2
    requires s.threads[e.tid].pc == Claim
    ensures Rotating(Step(s, e), F)
  {
    WhoMoves(s, F, e);
    SuccessorQueue(s, F, e);
    OneMoreClaim(s.claims, F);
    ClaimFrame(s, e);
  }

  lemma SuccessorQueue(s: State, F: seq<nat>, e: Event)
    requires Between(s, F) && Disciplined(s, e) && Counted(s) && Rounds(s) && |s.threads| >= 2
    requires s.threads[e.tid].pc == Claim
    ensures s.queue == Due(F, |s.threads|, |s.claims| + 1)
  {
    var c, p := |s.claims|, s.claims[|s.claims| - 1];
    WhoMoves(s, F, e);
    LastRound(s, F);
    assert LocalInv(s.B, p, s.threads[p]);
    DueNext(F, |s.threads|, c, if s.threads[p].pc == Queued then [p] else []);
  }

  lemma BetweenStep(s: State, F: seq<nat>, e: Event)
    requires Between(s, F) && Disciplined(s, e) && Counted(s) && Rounds(s)
    ensures Rotating(Step(s, e), F)
  {
    WhoMoves(s, F, e);
    match s.threads[e.tid].pc {
      case Unlock => PredecessorLeaves(s, F, e);
      case Lock => PredecessorLeaves(s, F, e);
      case Decide => PredecessorWaits(s, F, e);
      case Woken => SuccessorLocks(s, F, e);
      case Claim => SuccessorClaims(s, F, e);
    }
  }

  lemma OverStep(s: State, F: seq<nat>, e: Event)
    requires Rotating(s, F) && Disciplined(s, e) && Counted(s)
    requires s.threads[s.claims[|s.claims| - 1]].pc !in {Yield, Signal} && |s.claims| == |F|
    ensures Rotating(Step(s, e), F)
  {
    LastRound(s, F);
    assert e.tid == s.claims[|s.claims| - 1];
  }

  lemma RotatingStep(s: State, F: seq<nat>, e: Event)
    requires Inv(s) && Rotating(s, F) && Disciplined(s, e) && (|s.threads| >= 2 || s.B == 1)
    ensures Rotating(Step(s, e), F)
  {
    var p := s.claims[|s.claims| - 1];
    if s.threads[p].pc == Yield {
      YieldStep(s, F, e);
    } else if s.threads[p].pc == Signal {
      if |s.claims| == |F| { LastSignalStep(s, F, e); } else { SignalStep(s, F, e); }
    } else if |s.claims| == |F| {
      OverStep(s, F, e);
    } else {
      BetweenStep(s, F, e);
    }
  }

  ghost predicate Orderly(s: State) {
    Gathering(s) || exists F :: Rotating(s, F)
  }

  lemma OrderlyStep(s: State, e: Event)
    requires Inv(s) && Orderly(s) && Disciplined(s, e) && (|s.threads| >= 2 || s.B == 1)
    ensures Orderly(Step(s, e))
  {
    if Gathering(s) {
      if s.threads[e.tid].pc == Claim {
        var F := FirstClaim(s, e.pick);
      } else {
        GatheringStep(s, e);
      }
    } else {
      var F :| Rotating(s, F);
      RotatingStep(s, F, e);
    }
  }

  lemma {:induction false} OrderlyRun(N: nat, B: nat, J: nat, es: seq<Event>)
    requires B > 0 && (N >= 2 || (N == 1 && B == 1))
    requires Effective(Step, Disciplined, Start(N, B, J), es)
    ensures var s := Exec(Step, Start(N, B, J), es);
            Orderly(s) && Inv(s) && s.B == B && |s.threads| == N
  {
    RunInv(N, B, J, es);
    if es != [] {
      var front := es[..|es| - 1];
      EffectivePrefix(Step, Disciplined, Start(N, B, J), es);
      OrderlyRun(N, B, J, front);
      RunInv(N, B, J, front);
      OrderlyStep(Exec(Step, Start(N, B, J), front), es[|es| - 1]);
    }
  }

  // ----- What the discipline buys -----

  lemma RotatingClaims(s: State, F: seq<nat>)
    requires Rotating(s, F)
    ensures forall j, k :: 0 <= j && k == j + |s.threads| && k < |s.claims| ==> s.claims[j] == s.claims[k]
    ensures forall j, k :: 0 <= j < k < |s.claims| && k < j + |s.threads| ==> s.claims[j] != s.claims[k]
    ensures !s.harmed
  {
  }

  lemma {:induction false} ThreadZeroIsFirst(N: nat, B: nat, J: nat, es: seq<Event>)
    requires B > 0 && (N >= 2 || (N == 1 && B == 1))
    requires Effective(Step, Disciplined, Start(N, B, J), es)
    ensures var s := Exec(Step, Start(N, B, J), es);
            s.claims != [] ==> s.claims[0] == 0
  {
    if es != [] {
      var front, e := es[..|es| - 1], es[|es| - 1];
      EffectivePrefix(Step, Disciplined, Start(N, B, J), es);
      ThreadZeroIsFirst(N, B, J, front);
      OrderlyRun(N, B, J, front);
      ClaimAppends(Exec(Step, Start(N, B, J), front), e);
    }
  }

  lemma ClaimAppends(s: State, e: Event)
    requires Orderly(s) && Disciplined(s, e)
    ensures var r := Step(s, e).claims;
            r == s.claims || (r == s.claims + [e.tid] && (s.claims == [] ==> e.tid == 0))
  {
  }

  /** Under the discipline the claims rotate: thread 0 claims first, every N claims in a row are by N different
      threads, in an order that the first N claims fix, and no signal is wasted. */
  lemma {:induction false} ClaimsRotate(N: nat, B: nat, J: nat, es: seq<Event>)
    requires B > 0 && (N >= 2 || (N == 1 && B == 1))
    requires Effective(Step, Disciplined, Start(N, B, J), es)
    ensures var s := Exec(Step, Start(N, B, J), es);
            && (forall j, k :: 0 <= j && k == j + N && k < |s.claims| ==> s.claims[j] == s.claims[k])
            && (forall j, k :: 0 <= j < k < |s.claims| && k < j + N ==> s.claims[j] != s.claims[k])
            && (s.claims != [] ==> s.claims[0] == 0)
            && !s.harmed
  {
    OrderlyRun(N, B, J, es);
    ThreadZeroIsFirst(N, B, J, es);
    var s := Exec(Step, Start(N, B, J), es);
    if !Gathering(s) {
      var F :| Rotating(s, F);
      RotatingClaims(s, F);
    }
  }

  /** The thread the discipline lets go on. */
  lemma SomeoneMayGo(s: State)
    requires Inv(s) && Orderly(s) && !AllFinished(s)
    ensures exists t :: Disciplined(s, Run(t, 0))
  {
    if Gathering(s) {
      GatheringMayGo(s);
    } else {
      var F :| Rotating(s, F);
      RotatingMayGo(s, F);
    }
  }

  lemma GatheringMayGo(s: State)
    requires Exclusive(s) && Queues(s) && Gathering(s)
    ensures exists t :: Disciplined(s, Run(t, 0))
  {
    if s.owner.Held? {
      OwnerMayGo(s);
    } else if t: nat :| 0 < t < |s.threads| && s.threads[t].pc != Queued {
      assert Disciplined(s, Run(t, 0));
    } else {
      assert Disciplined(s, Run(0, 0));
    }
  }

  lemma RotatingMayGo(s: State, F: seq<nat>)
    requires Exclusive(s) && Queues(s) && Rotating(s, F) && !AllFinished(s)
    ensures exists t :: Disciplined(s, Run(t, 0))
  {
    if s.owner.Held? {
      OwnerMayGo(s);
    } else {
      TurnMayGo(s, F);
    }
  }

  lemma OwnerMayGo(s: State)
    requires Exclusive(s) && Queues(s) && s.owner.Held?
    ensures Disciplined(s, Run(s.owner.tid, 0))
  {
    assert Holds(s.threads[s.owner.tid].pc);
  }

  lemma TurnMayGo(s: State, F: seq<nat>)
    requires Exclusive(s) && Rotating(s, F) && !AllFinished(s) && s.owner == Free
    ensures exists t :: Disciplined(s, Run(t, 0))
  {
    var p := s.claims[|s.claims| - 1];
    assert !Holds(s.threads[p].pc);
    if s.threads[p].pc == Lock {
      assert Disciplined(s, Run(p, 0));
    } else {
      assert s.threads[p].pc in {Queued, Finished};
      assert |s.claims| < |F|;
      var h := F[|s.claims|];
      assert !Holds(s.threads[h].pc);
      assert Disciplined(s, Run(h, 0));
    }
  }

  /** Under the discipline no run stops before every thread has claimed exactly B times and is through. */
  lemma {:induction false} DisciplinedRunsFinish(N: nat, B: nat, J: nat, es: seq<Event>)
    requires B > 0 && (N >= 2 || (N == 1 && B == 1))
    requires Effective(Step, Disciplined, Start(N, B, J), es)
    ensures var s := Exec(Step, Start(N, B, J), es);
            && |s.threads| == N
            && (AllFinished(s) || exists t :: Disciplined(s, Run(t, 0)))
            && (AllFinished(s) ==> forall t :: 0 <= t < N ==> multiset(s.claims)[t] == B)
  {
    OrderlyRun(N, B, J, es);
    var s := Exec(Step, Start(N, B, J), es);
    if !AllFinished(s) {
      SomeoneMayGo(s);
    }
  }
}
