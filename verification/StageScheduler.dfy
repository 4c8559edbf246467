/**
 The round-robin stages of tests/pthread/src/pthread_specific.c: K threads take turns under one mutex, each waiting
 for the stage counter to reach its own next stage, and between waits run their script segments on shared data.
 */
module StageScheduler {
  import opened Runs

  datatype Owner = Free | Held(tid: nat)

  /** Thread 0 is main: it runs its first segment (Prologue), locks and creates the others; threads in Waiting wait on
      `cv`. */
  datatype Pc = Absent | Prologue | Lock | Create | Test | Waiting | Woken | Segment | Increment | Broadcast | Unlock
              | Done

  /** `stage` is the local stage, `k` main's count of created threads. */
  datatype Local = Local(pc: Pc, stage: nat, k: nat)

  /** Thread `tid` ran the segment of stage `cycle * K + tid`. */
  datatype Entry = Entry(tid: nat, cycle: nat)

  /** K threads run R segments each.  `data` is what the segments work on.  The stage counter is
      `testStage == cycle * K + due`: `due` is the thread whose stage it is. */
  datatype State<X> = State(K: nat, R: nat, testStage: nat, due: nat, cycle: nat, owner: Owner, threads: seq<Local>,
                            log: seq<Entry>, data: X)

  datatype Event = Run(tid: nat) | Spurious(tid: nat)

  predicate Enabled<X>(s: State<X>, e: Event) {
    && e.tid < |s.threads|
    && match e
       case Spurious(t) => s.threads[t].pc == Waiting
       case Run(t) =>
         match s.threads[t].pc {
           case Absent => false
           case Waiting => false
           case Done => false
           case Lock => s.owner == Free
           case Woken => s.owner == Free
           case _ => true
         }
  }

  /** What a step of thread `t` does to its own variables. */
  function Advance(K: nat, R: nat, testStage: nat, t: nat, l: Local): Local {
    match l.pc
    case Prologue => l.(pc := Lock)
    case Lock => if t == 0 then l.(pc := Create, k := 1) else l.(pc := Test)
    case Create => if l.k < K then l.(k := l.k + 1) else l.(pc := Increment)
    case Test => l.(pc := if testStage == l.stage then Segment else Waiting)
    case Woken => l.(pc := Test)
    case Segment => l.(pc := Increment)
    case Increment => l.(pc := Broadcast)
    case Broadcast => if l.stage + K < K * R then l.(pc := Test, stage := l.stage + K) else l.(pc := Unlock)
    case Unlock => l.(pc := Done)
    case Absent => l
    case Waiting => l
    case Done => l
  }

  /** What a step of thread `t` does, the other threads' variables apart. */
  function Share<X>(seg: (nat, X) -> X, s: State<X>, t: nat): State<X>
    requires t < |s.threads|
  {
    var l := s.threads[t];
    var wraps := s.due + 1 == s.K;
    s.(threads := s.threads[t := Advance(s.K, s.R, s.testStage, t, l)],
       owner := if l.pc in {Lock, Woken} then Held(t)
                else if l.pc == Unlock || (l.pc == Test && s.testStage != l.stage) then Free
                else s.owner,
       testStage := if l.pc == Increment then s.testStage + 1 else s.testStage,
       due := if l.pc == Increment then (if wraps then 0 else s.due + 1) else s.due,
       cycle := if l.pc == Increment && wraps then s.cycle + 1 else s.cycle,
       log := if l.pc in {Prologue, Segment} then s.log + [Entry(t, s.cycle)] else s.log,
       data := if l.pc in {Prologue, Segment} then seg(l.stage, s.data) else s.data)
  }

  function WakeAll(threads: seq<Local>): (r: seq<Local>)
    ensures |r| == |threads|
  {
    seq(|threads|, t requires 0 <= t < |threads| =>
      if threads[t].pc == Waiting then threads[t].(pc := Woken) else threads[t])
  }

  function ApplyRun<X>(seg: (nat, X) -> X, s: State<X>, t: nat): State<X>
    requires Enabled(s, Run(t))
  {
    var l, r := s.threads[t], Share(seg, s, t);
    if l.pc == Broadcast then r.(threads := WakeAll(r.threads))
    else if l.pc == Create && l.k < s.K && l.k < |s.threads| then
      r.(threads := r.threads[l.k := Local(Lock, l.k, 0)])
    else r
  }

  function Step<X>(seg: (nat, X) -> X, s: State<X>, e: Event): State<X> {
    if !Enabled(s, e) then s
    else
      match e
      case Run(t) => ApplyRun(seg, s, t)
      case Spurious(t) => s.(threads := s.threads[t := s.threads[t].(pc := Woken)])
  }

  function Start<X>(K: nat, R: nat, x: X): State<X> {
    State(K, R, 0, 0, 0, Free,
          seq(K, t requires 0 <= t => Local(if t == 0 then Prologue else Absent, t, 0)), [], x)
  }

  // ----- Mutual exclusion -----

  predicate Holds(pc: Pc) {
    pc in {Create, Test, Segment, Increment, Broadcast, Unlock}
  }

  ghost predicate Exclusive<X>(s: State<X>) {
    && |s.threads| == s.K
    && (forall t :: 0 <= t < s.K ==> (Holds(s.threads[t].pc) <==> s.owner == Held(t)))
    && (s.owner.Held? ==> s.owner.tid < s.K)
  }

  /** Main creates the others one by one before anything else happens. */
  ghost predicate Creation<X>(s: State<X>) {
    && |s.threads| == s.K
    && (forall t :: 0 <= t < s.K && s.threads[t].pc == Absent ==>
          t > 0 && s.threads[0].pc in {Prologue, Lock, Create}
          && (s.threads[0].pc == Create ==> s.threads[0].k <= t))
    && (forall t :: 0 <= t < s.K && s.threads[t].pc in {Prologue, Create} ==> t == 0)
    && (s.K > 0 && s.threads[0].pc in {Prologue, Lock} ==> forall t :: 1 <= t < s.K ==> s.threads[t].pc == Absent)
    && (s.K > 0 && s.threads[0].pc == Create ==>
          && 1 <= s.threads[0].k
          && forall t :: 1 <= t < s.K ==> s.threads[t].pc == (if t < s.threads[0].k then Lock else Absent))
  }

  // ----- The turn -----

  /** How many stages after the current one the next stage of thread `t` is. */
  function Ahead<X>(s: State<X>, t: nat): int {
    if t >= s.due then t - s.due else s.K - s.due + t
  }

  /** The cycle of the next segment of thread `t`. */
  function NextCycle<X>(s: State<X>, t: nat): nat {
    if t >= s.due then s.cycle else s.cycle + 1
  }

  /** The thread that just counted its stage is the one before the thread due. */
  predicate JustCounted<X>(s: State<X>, t: nat) {
    if s.due == 0 then t == s.K - 1 && s.cycle > 0 else t == s.due - 1
  }

  ghost predicate TurnOf<X>(s: State<X>, t: nat)
    requires t < |s.threads|
  {
    var l := s.threads[t];
    match l.pc
    case Segment => t == s.due && l.stage == s.testStage && s.cycle < s.R
    case Increment => t == s.due && l.stage == s.testStage && s.cycle < s.R
    case Prologue => AtStart(s) && l.stage == 0
    case Create => AtStart(s) && l.stage == 0
    case Broadcast => JustCounted(s, t) && l.stage + 1 == s.testStage
    case Unlock => NextCycle(s, t) >= s.R
    case Done => NextCycle(s, t) >= s.R
    case _ => l.stage == s.testStage + Ahead(s, t) && NextCycle(s, t) < s.R
              && (l.pc == Lock && t == 0 ==> AtStart(s))
  }

  predicate AtStart<X>(s: State<X>) {
    s.testStage == 0 && s.due == 0 && s.cycle == 0
  }

  ghost predicate Turns<X>(s: State<X>) {
    && |s.threads| == s.K && s.R > 0
    && s.due < s.K && s.testStage == s.cycle * s.K + s.due
    && s.cycle <= s.R && (s.cycle == s.R ==> s.due == 0)
    && forall t :: 0 <= t < s.K ==> TurnOf(s, t)
  }

  /** A thread waits only for a stage that has not come, or is just being announced. */
  ghost predicate Announced<X>(s: State<X>) {
    && |s.threads| == s.K
    && forall t :: 0 <= t < s.K && s.threads[t].pc == Waiting && s.threads[t].stage == s.testStage ==>
         s.owner.Held? && s.owner.tid < s.K && s.threads[s.owner.tid].pc == Broadcast
  }

  function One(b: bool): nat {
    if b then 1 else 0
  }

  /** The data after the first `n` segments, run one after the other. */
  function Serial<X>(seg: (nat, X) -> X, x: X, n: nat): X {
    if n == 0 then x else seg(n - 1, Serial(seg, x, n - 1))
  }

  /** The segment of the current stage has run already. */
  predicate HasRun<X>(s: State<X>) {
    s.due < |s.threads| && (s.threads[s.due].pc == Increment || s.threads[0].pc in {Lock, Create})
  }

  /** Segment k ran k-th, and the data is as if the segments had run one after the other. */
  ghost predicate Logged<X>(seg: (nat, X) -> X, x: X, s: State<X>) {
    && |s.log| == s.testStage + One(HasRun(s))
    && (forall k :: 0 <= k < |s.log| ==> s.log[k].tid < s.K && k == s.log[k].cycle * s.K + s.log[k].tid)
    && s.data == Serial(seg, x, |s.log|)
  }

  ghost predicate Inv<X>(seg: (nat, X) -> X, x: X, s: State<X>) {
    Exclusive(s) && Creation(s) && Turns(s) && Announced(s) && Logged(seg, x, s)
  }

  lemma ShareExclusive<X>(seg: (nat, X) -> X, s: State<X>, t: nat)
    requires Exclusive(s) && Enabled(s, Run(t))
    ensures Exclusive(Share(seg, s, t))
  {
    assert Holds(s.threads[t].pc) <==> s.owner == Held(t);
  }

  lemma StepExclusive<X>(seg: (nat, X) -> X, s: State<X>, e: Event)
    requires Exclusive(s) && Creation(s)
    ensures Exclusive(Step(seg, s, e))
  {
    if Enabled(s, e) && e.Run? {
      ShareExclusive(seg, s, e.tid);
    }
  }

  lemma ShareCreation<X>(seg: (nat, X) -> X, s: State<X>, t: nat)
    requires Exclusive(s) && Creation(s) && Enabled(s, Run(t)) && s.threads[t].pc != Create
    ensures Creation(Share(seg, s, t))
  {
  }

  lemma CreateCreation<X>(seg: (nat, X) -> X, s: State<X>, t: nat)
    requires Creation(s) && Enabled(s, Run(t)) && s.threads[t].pc == Create
    ensures Creation(ApplyRun(seg, s, t))
  {
  }

  lemma WakingCreation<X>(s: State<X>)
    requires Creation(s)
    ensures Creation(s.(threads := WakeAll(s.threads)))
  {
  }

  lemma StepCreation<X>(seg: (nat, X) -> X, s: State<X>, e: Event)
    requires Exclusive(s) && Creation(s)
    ensures Creation(Step(seg, s, e))
  {
    if Enabled(s, e) && e.Run? {
      if s.threads[e.tid].pc == Create {
        CreateCreation(seg, s, e.tid);
      } else {
        ShareCreation(seg, s, e.tid);
        WakingCreation(Share(seg, s, e.tid));
      }
    }
  }

  lemma NextMultiple(c: nat, K: nat)
    ensures (c + 1) * K == c * K + K
  {
  }

  /** A stage is below K * R exactly when its cycle is below R. */
  lemma StageBelow(c: nat, t: nat, K: nat, R: nat)
    requires t < K
    ensures c * K + t < K * R <==> c < R
  {
    if c < R {
      NextMultiple(c, K);
      MulLeq(c + 1, R, K);
    } else {
      MulLeq(R, c, K);
    }
  }

  lemma MulLeq(a: nat, b: nat, K: nat)
    requires a <= b
    ensures a * K <= b * K
  {
  }

  lemma IncrementTurns<X>(seg: (nat, X) -> X, s: State<X>, t: nat)
    requires Exclusive(s) && Creation(s) && Turns(s) && Enabled(s, Run(t)) && s.threads[t].pc == Increment
    ensures Turns(ApplyRun(seg, s, t))
  {
    assert TurnOf(s, t);
    NextMultiple(s.cycle, s.K);
    var r := ApplyRun(seg, s, t);
    forall u | 0 <= u < s.K ensures TurnOf(r, u) {
      assert TurnOf(s, u);
      assert u != t ==> !Holds(s.threads[u].pc);
    }
  }

  lemma BroadcastTurns<X>(seg: (nat, X) -> X, s: State<X>, t: nat)
    requires Turns(s) && Enabled(s, Run(t)) && s.threads[t].pc == Broadcast
    ensures Turns(ApplyRun(seg, s, t))
  {
    assert TurnOf(s, t);
    StageBelow(NextCycle(s, t), t, s.K, s.R);
    if s.due == 0 {
      NextMultiple(s.cycle - 1, s.K);
    } else {
      NextMultiple(s.cycle, s.K);
    }
    var r := ApplyRun(seg, s, t);
    forall u | 0 <= u < s.K ensures TurnOf(r, u) {
      assert TurnOf(s, u);
    }
  }

  lemma CreateTurns<X>(seg: (nat, X) -> X, s: State<X>, t: nat)
    requires Creation(s) && Turns(s) && Enabled(s, Run(t)) && s.threads[t].pc == Create
    ensures Turns(ApplyRun(seg, s, t))
  {
    assert TurnOf(s, t);
    var r := ApplyRun(seg, s, t);
    forall u | 0 <= u < s.K ensures TurnOf(r, u) {
      assert TurnOf(s, u);
    }
  }

  lemma OtherFrame<X>(seg: (nat, X) -> X, s: State<X>, t: nat)
    requires Enabled(s, Run(t)) && s.threads[t].pc !in {Increment, Broadcast, Create}
    ensures var r := ApplyRun(seg, s, t);
            && r.threads == s.threads[t := Advance(s.K, s.R, s.testStage, t, s.threads[t])]
            && r.K == s.K && r.R == s.R && r.testStage == s.testStage && r.due == s.due && r.cycle == s.cycle
  {
  }

  lemma OtherTurns<X>(seg: (nat, X) -> X, s: State<X>, t: nat)
    requires Creation(s) && Turns(s) && Enabled(s, Run(t))
    requires s.threads[t].pc !in {Increment, Broadcast, Create}
    ensures Turns(ApplyRun(seg, s, t))
  {
    assert TurnOf(s, t);
    OtherFrame(seg, s, t);
    var r := ApplyRun(seg, s, t);
    assert TurnOf(r, t);
    forall u | 0 <= u < s.K ensures TurnOf(r, u) {
      assert TurnOf(s, u);
    }
  }

  lemma SpuriousTurns<X>(seg: (nat, X) -> X, s: State<X>, t: nat)
    requires Turns(s) && Enabled(s, Spurious(t))
    ensures Turns(Step(seg, s, Spurious(t)))
  {
    var r := Step(seg, s, Spurious(t));
    forall u | 0 <= u < s.K ensures TurnOf(r, u) {
      assert TurnOf(s, u);
    }
  }

  lemma StepTurns<X>(seg: (nat, X) -> X, s: State<X>, e: Event)
    requires Exclusive(s) && Creation(s) && Turns(s)
    ensures Turns(Step(seg, s, e))
  {
    if Enabled(s, e) {
      match e {
        case Spurious(t) => SpuriousTurns(seg, s, t);
        case Run(t) =>
          match s.threads[t].pc {
            case Increment => IncrementTurns(seg, s, t);
            case Broadcast => BroadcastTurns(seg, s, t);
            case Create => CreateTurns(seg, s, t);
            case _ => OtherTurns(seg, s, t);
          }
      }
    }
  }

  lemma StepAnnounced<X>(seg: (nat, X) -> X, s: State<X>, e: Event)
    requires Exclusive(s) && Announced(s)
    ensures Announced(Step(seg, s, e))
  {
    if Enabled(s, e) && e.Run? {
      assert Holds(s.threads[e.tid].pc) <==> s.owner == Held(e.tid);
    }
  }

  /** Running a segment: it is the one of the current stage, and had not run. */
  lemma SegmentRuns<X>(seg: (nat, X) -> X, s: State<X>, t: nat)
    requires Exclusive(s) && Creation(s) && Turns(s) && Enabled(s, Run(t)) && s.threads[t].pc in {Prologue, Segment}
    ensures !HasRun(s) && HasRun(ApplyRun(seg, s, t))
    ensures s.threads[t].stage == s.testStage == s.cycle * s.K + t
  {
    assert TurnOf(s, t) && TurnOf(s, 0);
    assert s.threads[t].pc == Segment ==> s.owner == Held(t);
  }

  lemma IncrementHasRun<X>(seg: (nat, X) -> X, s: State<X>, t: nat)
    requires Exclusive(s) && Creation(s) && Turns(s) && Enabled(s, Run(t)) && s.threads[t].pc == Increment
    ensures HasRun(s) && !HasRun(ApplyRun(seg, s, t))
  {
    var r := ApplyRun(seg, s, t);
    assert TurnOf(s, t) && TurnOf(s, 0);
    assert Holds(s.threads[r.due].pc) <==> s.owner == Held(r.due);
    assert s.testStage > 0 ==> s.threads[0].pc !in {Lock, Create};
  }

  lemma OtherHasRun<X>(seg: (nat, X) -> X, s: State<X>, e: Event)
    requires Exclusive(s) && Creation(s) && Turns(s) && Enabled(s, e)
    requires e.Run? ==> s.threads[e.tid].pc !in {Prologue, Segment, Increment}
    ensures HasRun(Step(seg, s, e)) == HasRun(s)
  {
    assert TurnOf(s, e.tid);
  }

  /** What a step does to the record of the segments. */
  lemma LogFrame<X>(seg: (nat, X) -> X, s: State<X>, e: Event)
    requires Enabled(s, e)
    ensures var r := Step(seg, s, e);
            var runs := e.Run? && s.threads[e.tid].pc in {Prologue, Segment};
            && r.log == (if runs then s.log + [Entry(e.tid, s.cycle)] else s.log)
            && r.data == (if runs then seg(s.threads[e.tid].stage, s.data) else s.data)
            && r.testStage == s.testStage + One(e.Run? && s.threads[e.tid].pc == Increment)
            && r.K == s.K
  {
  }

  lemma StepLogged<X>(seg: (nat, X) -> X, x: X, s: State<X>, e: Event)
    requires Exclusive(s) && Creation(s) && Turns(s) && Logged(seg, x, s)
    ensures Logged(seg, x, Step(seg, s, e))
  {
    if Enabled(s, e) {
      LogFrame(seg, s, e);
      if e.Run? && s.threads[e.tid].pc in {Prologue, Segment} {
        SegmentRuns(seg, s, e.tid);
      } else if e.Run? && s.threads[e.tid].pc == Increment {
        IncrementHasRun(seg, s, e.tid);
      } else {
        OtherHasRun(seg, s, e);
      }
    }
  }

  lemma StepInv<X>(seg: (nat, X) -> X, x: X, s: State<X>, e: Event)
    requires Inv(seg, x, s)
    ensures Inv(seg, x, Step(seg, s, e)) && Step(seg, s, e).K == s.K && Step(seg, s, e).R == s.R
  {
    StepExclusive(seg, s, e);
    StepCreation(seg, s, e);
    StepTurns(seg, s, e);
    StepAnnounced(seg, s, e);
    StepLogged(seg, x, s, e);
  }

  // ----- All runs -----

  lemma StartInv<X>(seg: (nat, X) -> X, K: nat, R: nat, x: X)
    requires K > 0 && R > 0
    ensures Inv(seg, x, Start(K, R, x))
  {
    var s := Start(K, R, x);
    forall t | 0 <= t < K ensures TurnOf(s, t) {
      assert s.threads[t] == Local(if t == 0 then Prologue else Absent, t, 0);
    }
  }

  function Move<X>(seg: (nat, X) -> X): (State<X>, Event) -> State<X> {
    (s: State<X>, e: Event) => Step(seg, s, e)
  }

  lemma {:induction false} RunInv<X(!new)>(seg: (nat, X) -> X, K: nat, R: nat, x: X, es: seq<Event>)
    requires K > 0 && R > 0
    ensures var s := Exec(Move(seg), Start(K, R, x), es);
            Inv(seg, x, s) && s.K == K && s.R == R
  {
    var inv := (t: State<X>) => Inv(seg, x, t) && t.K == K && t.R == R;
    StartInv(seg, K, R, x);
    forall t: State<X>, e | inv(t) ensures inv(Move(seg)(t, e)) {
      StepInv(seg, x, t, e);
    }
    Invariance(Move(seg), inv, Start(K, R, x), es);
  }

  /** Past its stage wait, or main before its first. */
  predicate InTurn(l: Local) {
    l.pc in {Segment, Increment}
  }

  predicate AllDone<X>(s: State<X>) {
    forall t :: 0 <= t < |s.threads| ==> s.threads[t].pc == Done
  }

  /** All runs execute the segments in one total order: segment k is the k-th to run, on thread k mod K, and the data
      is what running them one after the other gives.  At most one thread is in its turn; it owns the mutex, its
      local stage is the stage counter, and that is congruent to its index. */
  lemma {:induction false} EveryRunIsSerial<X(!new)>(seg: (nat, X) -> X, K: nat, R: nat, x: X, es: seq<Event>)
    requires K > 0 && R > 0
    ensures var s := Exec(Move(seg), Start(K, R, x), es);
            && |s.threads| == K
            && (forall t, u :: 0 <= t < K && 0 <= u < K && InTurn(s.threads[t]) && InTurn(s.threads[u]) ==> t == u)
            && (forall t :: 0 <= t < K && InTurn(s.threads[t]) ==>
                 s.owner == Held(t) && s.threads[t].stage == s.testStage && s.testStage == s.cycle * K + t)
            && s.testStage <= |s.log| <= s.testStage + 1
            && (forall k :: 0 <= k < |s.log| ==> s.log[k].tid < K && k == s.log[k].cycle * K + s.log[k].tid)
            && s.data == Serial(seg, x, |s.log|)
  {
    RunInv(seg, K, R, x, es);
    var s := Exec(Move(seg), Start(K, R, x), es);
    forall t | 0 <= t < K && InTurn(s.threads[t])
      ensures s.owner == Held(t) && s.threads[t].stage == s.testStage && s.testStage == s.cycle * K + t
    {
      assert TurnOf(s, t);
      assert Holds(s.threads[t].pc) <==> s.owner == Held(t);
    }
  }

  // ----- No deadlock -----

  ghost predicate Stuck<X>(s: State<X>) {
    forall t :: !Enabled(s, Run(t))
  }

  lemma StuckThreads<X>(s: State<X>)
    requires Exclusive(s) && Creation(s) && Stuck(s)
    ensures s.owner == Free
    ensures forall t :: 0 <= t < s.K ==> s.threads[t].pc in {Waiting, Done}
  {
    assert s.owner.Held? ==> !Enabled(s, Run(s.owner.tid));
    forall t: nat | t < s.K ensures s.threads[t].pc in {Waiting, Done, Absent} {
      assert !Enabled(s, Run(t));
    }
    if s.K > 0 {
      assert s.threads[0].pc in {Waiting, Done, Absent};
    }
  }

  lemma StuckIsOver<X>(s: State<X>)
    requires Exclusive(s) && Creation(s) && Turns(s) && Announced(s) && Stuck(s)
    ensures s.cycle == s.R && AllDone(s)
  {
    StuckThreads(s);
    assert TurnOf(s, s.due);
    assert s.cycle == s.R;
    forall t | 0 <= t < s.K ensures s.threads[t].pc == Done {
      assert TurnOf(s, t);
    }
  }

  /** A run that cannot go on without a spurious wakeup is over: every thread is done, the counter is K * R and every
      segment has run. */
  lemma {:induction false} StuckRunsAreOver<X(!new)>(seg: (nat, X) -> X, K: nat, R: nat, x: X, es: seq<Event>)
    requires K > 0 && R > 0
    ensures var s := Exec(Move(seg), Start(K, R, x), es);
            Stuck(s) ==> AllDone(s) && s.testStage == R * K && s.data == Serial(seg, x, R * K)
  {
    RunInv(seg, K, R, x, es);
    var s := Exec(Move(seg), Start(K, R, x), es);
    if Stuck(s) {
      StuckIsOver(s);
    }
  }
}
