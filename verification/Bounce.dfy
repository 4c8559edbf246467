/**
 The bounce phase of `thread_top_exec` (tests/pthread/src/pthread.c): N threads hand a single turn around through
 one condition variable, B rounds each, and nothing but a wakeup carries the turn.
 */
module Bounce {
  import opened Runs

  datatype Owner = Free | Held(tid: nat)

  /** PreLock, Try and PreUnlock are the double-lock attempt; thread 0 starts its first round with FirstUnlock,
      Sleep and Relock instead of waiting; Queued threads wait on `cvar0`. */
  datatype Pc = PreLock | Try | PreUnlock | Lock | Decide | Queued | Woken | FirstUnlock | Sleep | Relock
              | Claim | Yield | Signal | Unlock | Finished

  /** `round` is the loop variable i, `spins` the loop variable j. */
  datatype Local = Local(pc: Pc, round: nat, spins: nat)

  /** `queue` is the wait queue of `cvar0`, `claims` the log of claims of `curr_bounce_thread`, `lost` counts the
      signals that found nobody, `harmed` says that one of them left a thread with rounds to go, and `spurious`
      counts spurious wakeups. */
  datatype State = State(B: nat, J: nat, owner: Owner, threads: seq<Local>, queue: seq<nat>, curr: int,
                         claims: seq<nat>, lost: nat, harmed: bool, spurious: nat, failed: bool)

  /** One step of a thread, whose signal wakes the thread at position `pick` of the queue, or a spurious wakeup of
      the thread at position `pos` of the queue. */
  datatype Event = Run(tid: nat, pick: nat) | Spurious(pos: nat)

  function Goto(s: State, t: nat, pc: Pc): State
    requires t < |s.threads|
  {
    s.(threads := s.threads[t := s.threads[t].(pc := pc)])
  }

  /** Thread at position `k` leaves the queue. */
  function Wake(s: State, k: nat): State
    requires k < |s.queue| && s.queue[k] < |s.threads|
  {
    Goto(s, s.queue[k], Woken).(queue := s.queue[..k] + s.queue[k + 1..])
  }

  predicate Enabled(s: State, e: Event) {
    match e
    case Spurious(pos) => pos < |s.queue| && s.queue[pos] < |s.threads|
    case Run(t, pick) =>
      && t < |s.threads|
      && match s.threads[t].pc {
        case PreLock => s.owner == Free
        case Lock => s.owner == Free
        case Woken => s.owner == Free
        case Relock => s.owner == Free
        case Signal => s.queue == [] || (pick < |s.queue| && s.queue[pick] < |s.threads|)
        case Queued => false
        case Finished => false
        case _ => true
      }
  }

  /** Some thread would still have to claim after the claim of `t`. */
  predicate Unfinished(s: State, t: nat)
    requires t < |s.threads|
  {
    s.threads[t].round + 1 < s.B || exists u :: 0 <= u < |s.threads| && u != t && s.threads[u].pc != Finished
  }

  predicate Acquires(pc: Pc) {
    pc in {PreLock, Lock, Woken, Relock}
  }

  /** The wait releases the mutex; thread 0 does not wait in its first round. */
  predicate Releases(t: nat, l: Local) {
    l.pc in {PreUnlock, FirstUnlock, Unlock} || (l.pc == Decide && (t != 0 || l.round != 0))
  }

  /** What a step of thread `t` does to what the thread owns. */
  function Advance(B: nat, J: nat, t: nat, l: Local): Local {
    match l.pc
    case PreLock => l.(pc := Try)
    case Try => l.(pc := PreUnlock)
    case PreUnlock => l.(pc := if B == 0 then Finished else Lock)
    case Lock => l.(pc := Decide)
    case Decide => l.(pc := if t == 0 && l.round == 0 then FirstUnlock else Queued)
    case FirstUnlock => l.(pc := Sleep)
    case Sleep => l.(pc := Relock)
    case Relock => l.(pc := Claim)
    case Woken => l.(pc := Claim)
    case Claim => l.(pc := Yield, spins := 0)
    case Yield => if l.spins == J then l.(pc := Signal) else l.(spins := l.spins + 1)
    case Signal => l.(pc := Unlock)
    case Unlock => l.(pc := if l.round + 1 < B then Lock else Finished, round := l.round + 1)
    case Queued => l
    case Finished => l
  }

  /** What a step of thread `t` does to what the threads share, the wait queue apart. */
  function Share(s: State, t: nat): State
    requires t < |s.threads|
  {
    var l := s.threads[t];
    s.(owner := if Acquires(l.pc) then Held(t) else if Releases(t, l) then Free else s.owner,
       curr := if l.pc == Claim then t else s.curr,
       claims := if l.pc == Claim then s.claims + [t] else s.claims,
       failed := s.failed || (l.pc == Try && s.owner == Free) || (l.pc == Yield && l.spins < s.J && s.curr != t),
       lost := if l.pc == Signal && s.queue == [] then s.lost + 1 else s.lost,
       harmed := s.harmed || (l.pc == Signal && s.queue == [] && Unfinished(s, t)),
       threads := s.threads[t := Advance(s.B, s.J, t, l)])
  }

  function ApplyRun(s: State, t: nat, pick: nat): State
    requires Enabled(s, Run(t, pick))
  {
    var r, l := Share(s, t), s.threads[t];
    if l.pc == Decide && Releases(t, l) then r.(queue := s.queue + [t])
    else if l.pc == Signal && s.queue != [] then Wake(r, pick)
    else r
  }

  function Apply(s: State, e: Event): State
    requires Enabled(s, e)
  {
    match e
    case Spurious(pos) => Wake(s, pos).(spurious := s.spurious + 1)
    case Run(t, pick) => ApplyRun(s, t, pick)
  }

  function Step(s: State, e: Event): State {
    if Enabled(s, e) then Apply(s, e) else s
  }

  function Start(N: nat, B: nat, J: nat): State {
    State(B, J, Free, seq(N, _ => Local(PreLock, 0, 0)), [], -1, [], 0, false, 0, false)
  }

  // ----- Mutual exclusion -----

  predicate Holds(pc: Pc) {
    pc in {Try, PreUnlock, Decide, FirstUnlock, Claim, Yield, Signal, Unlock}
  }

  predicate LocalInv(B: nat, t: nat, l: Local) {
    && (l.pc in {PreLock, Try, PreUnlock} ==> l.round == 0)
    && (l.pc == Finished ==> l.round == B)
    && (l.pc !in {PreLock, Try, PreUnlock, Finished} ==> l.round < B)
    && (l.pc in {FirstUnlock, Sleep, Relock} ==> t == 0 && l.round == 0)
    && (l.pc in {Queued, Woken} ==> t != 0 || l.round != 0)
  }

  /** A thread is inside the mutex exactly when it owns it, and only the claimer is between claim and signal. */
  ghost predicate Exclusive(s: State) {
    && (forall t :: 0 <= t < |s.threads| ==> (Holds(s.threads[t].pc) <==> s.owner == Held(t)))
    && (forall t :: 0 <= t < |s.threads| && s.threads[t].pc in {Yield, Signal} ==> s.curr == t)
    && (s.owner.Held? ==> s.owner.tid < |s.threads|)
    && !s.failed
  }

  ghost predicate Rounds(s: State) {
    forall t :: 0 <= t < |s.threads| ==> LocalInv(s.B, t, s.threads[t])
  }

  /** The queue holds each queued thread once. */
  ghost predicate Queues(s: State) {
    && (forall k :: 0 <= k < |s.queue| ==> s.queue[k] < |s.threads| && s.threads[s.queue[k]].pc == Queued)
    && (forall j, k :: 0 <= j < k < |s.queue| ==> s.queue[j] != s.queue[k])
    && (forall t :: 0 <= t < |s.threads| && s.threads[t].pc == Queued ==> t in s.queue)
  }

  lemma ShareExclusive(s: State, t: nat)
    requires Exclusive(s) && t < |s.threads| && s.threads[t].pc !in {Queued, Finished}
    requires Acquires(s.threads[t].pc) ==> s.owner == Free
    ensures Exclusive(Share(s, t))
  {
    assert Holds(s.threads[t].pc) <==> s.owner == Held(t);
  }

  lemma WakeExclusive(s: State, k: nat)
    requires Exclusive(s) && k < |s.queue| && s.queue[k] < |s.threads| && s.threads[s.queue[k]].pc == Queued
    ensures Exclusive(Wake(s, k))
  {
  }

  lemma StepExclusive(s: State, e: Event)
    requires Exclusive(s) && Queues(s)
    ensures Exclusive(Step(s, e))
  {
    if Enabled(s, e) {
      match e {
        case Spurious(pos) => WakeExclusive(s, pos);
        case Run(t, pick) =>
          ShareExclusive(s, t);
          if s.threads[t].pc == Signal && s.queue != [] {
            WakeExclusive(Share(s, t), pick);
          }
      }
    }
  }

  lemma StepRounds(s: State, e: Event)
    requires Rounds(s) && Queues(s)
    ensures Rounds(Step(s, e))
  {
    if Enabled(s, e) && e.Run? {
      AdvanceRounds(s.B, s.J, e.tid, s.threads[e.tid]);
    }
  }

  lemma AdvanceRounds(B: nat, J: nat, t: nat, l: Local)
    requires LocalInv(B, t, l)
    ensures LocalInv(B, t, Advance(B, J, t, l))
  {
  }

  lemma WakeQueues(s: State, k: nat)
    requires Queues(s) && k < |s.queue|
    ensures Queues(Wake(s, k))
  {
    var r := Wake(s, k);
    forall t | 0 <= t < |r.threads| && r.threads[t].pc == Queued ensures t in r.queue {
      var i :| 0 <= i < |s.queue| && s.queue[i] == t;
      assert i != k;
      assert r.queue[if i < k then i else i - 1] == t;
    }
  }

  lemma ShareQueues(s: State, t: nat)
    requires Queues(s) && t < |s.threads| && s.threads[t].pc != Queued
    ensures if s.threads[t].pc == Decide && Releases(t, s.threads[t])
            then Queues(Share(s, t).(queue := s.queue + [t]))
            else Queues(Share(s, t))
  {
  }

  lemma StepQueues(s: State, e: Event)
    requires Queues(s)
    ensures Queues(Step(s, e))
  {
    if Enabled(s, e) {
      match e {
        case Spurious(pos) => WakeQueues(s, pos);
        case Run(t, pick) =>
          ShareQueues(s, t);
          if s.threads[t].pc == Signal && s.queue != [] {
            WakeQueues(Share(s, t), pick);
          }
      }
    }
  }
}
