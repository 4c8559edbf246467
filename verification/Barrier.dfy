/**
 What follows the bounce phase (tests/pthread/src/pthread.c): the workers report to main through a semaphore, main
 wakes them all with one broadcast, they line up on a barrier and report again.
 */
module Barrier {
  import opened Runs

  datatype Owner = Free | Held(tid: nat)

  /** The program counters of a worker, in order.  Bouncing stands for the whole bounce phase; Waiting workers wait
      on `cvar1`; AtBarrier workers are inside `pthread_barrier_wait`. */
  datatype Pc = Bouncing | Lock | SetDone | Post1 | Wait | Waiting | Woken | Unlock | Check | AtBarrier | Record
              | SetBarrier | Post2 | Exit

  /** `k` is the loop variable of the early-exit check. */
  datatype Worker = Worker(pc: Pc, k: nat)

  /** Main's program counters: each of its two loops tests the failure flag, scans the done flags and waits for the
      semaphore; between them it broadcasts. */
  datatype MainPc = Test1 | Scan1 | Sem1 | MLock | Broadcast | MUnlock | Test2 | Scan2 | Sem2 | Join | Ended

  /** Worker t is `workers[t]`, main is thread |workers|; `k` is main's loop variable, `serial` the thread that got
      PTHREAD_BARRIER_SERIAL_THREAD once the barrier is `open`. */
  datatype State = State(owner: Owner, workers: seq<Worker>, bounceDone: seq<bool>, barrierDone: seq<bool>,
                         returned: seq<bool>, arrived: nat, open: bool, serial: nat, sem: nat, failed: bool,
                         main: MainPc, k: nat, spurious: nat)

  /** One step of a worker, one step of main, or a spurious wakeup; `pick` is the serial thread if the step opens
      the barrier. */
  datatype Event = Run(tid: nat, pick: nat) | Main | Spurious(tid: nat)

  predicate Shape(s: State) {
    |s.bounceDone| == |s.barrierDone| == |s.returned| == |s.workers|
  }

  predicate Acquires(pc: Pc) {
    pc in {Lock, Woken}
  }

  predicate Releases(pc: Pc) {
    pc in {Wait, Unlock}
  }

  predicate Enabled(s: State, e: Event) {
    && Shape(s)
    && match e
       case Spurious(t) => t < |s.workers| && s.workers[t].pc == Waiting
       case Run(t, pick) =>
         && t < |s.workers|
         && pick < |s.workers|
         && s.workers[t].pc !in {Waiting, Exit}
         && (Acquires(s.workers[t].pc) ==> s.owner == Free)
         && (s.workers[t].pc == AtBarrier ==> s.open)
       case Main =>
         match s.main {
           case Sem1 => s.sem > 0
           case Sem2 => s.sem > 0
           case MLock => s.owner == Free
           case Join => forall t :: 0 <= t < |s.workers| ==> s.workers[t].pc == Exit
           case Ended => false
           case _ => true
         }
  }

  function Advance(N: nat, w: Worker): Worker {
    match w.pc
    case Bouncing => w.(pc := Lock)
    case Lock => w.(pc := SetDone)
    case SetDone => w.(pc := Post1)
    case Post1 => w.(pc := Wait)
    case Wait => w.(pc := Waiting)
    case Waiting => w.(pc := Woken)
    case Woken => w.(pc := Unlock)
    case Unlock => w.(pc := Check, k := 0)
    case Check => if w.k < N then w.(k := w.k + 1) else w.(pc := AtBarrier)
    case AtBarrier => w.(pc := Record)
    case Record => w.(pc := SetBarrier)
    case SetBarrier => w.(pc := Post2)
    case Post2 => w.(pc := Exit)
    case Exit => w
  }

  /** The worker finds another one through the barrier already. */
  predicate SeesEarlyExit(s: State, w: Worker)
    requires Shape(s)
  {
    w.pc == Check && w.k < |s.workers| && s.barrierDone[w.k]
  }

  function RunWorker(s: State, t: nat, pick: nat): State
    requires Enabled(s, Run(t, pick))
  {
    var w, N := s.workers[t], |s.workers|;
    var arrives := w.pc == Check && w.k >= N;
    var opens := arrives && s.arrived + 1 == N;
    var posts := w.pc in {Post1, Post2} || SeesEarlyExit(s, w);
    s.(workers := s.workers[t := Advance(N, w)],
       owner := if Acquires(w.pc) then Held(t) else if Releases(w.pc) then Free else s.owner,
       bounceDone := if w.pc == SetDone then s.bounceDone[t := true] else s.bounceDone,
       barrierDone := if w.pc == SetBarrier then s.barrierDone[t := true] else s.barrierDone,
       returned := if w.pc == Record then s.returned[t := t == s.serial] else s.returned,
       arrived := if arrives then s.arrived + 1 else s.arrived,
       open := s.open || opens,
       serial := if opens then pick else s.serial,
       sem := if posts then s.sem + 1 else s.sem,
       failed := s.failed || SeesEarlyExit(s, w))
  }

  function WakeAll(workers: seq<Worker>): seq<Worker> {
    seq(|workers|, t requires 0 <= t < |workers| =>
      if workers[t].pc == Waiting then workers[t].(pc := Woken) else workers[t])
  }

  function RunMain(s: State): State
    requires Enabled(s, Main)
  {
    var N := |s.workers|;
    match s.main
    case Test1 => s.(main := Scan1, k := 0)
    case Scan1 =>
      if s.k >= N then s.(main := MLock)
      else if s.bounceDone[s.k] then s.(k := s.k + 1)
      else s.(main := Sem1)
    case Sem1 => s.(main := Test1, sem := s.sem - 1)
    case MLock => s.(main := Broadcast, owner := Held(N))
    case Broadcast => s.(main := MUnlock, workers := WakeAll(s.workers))
    case MUnlock => s.(main := Test2, owner := Free)
    case Test2 => if s.failed then s.(main := Join) else s.(main := Scan2, k := 0)
    case Scan2 =>
      if s.k >= N then s.(main := Join)
      else if s.barrierDone[s.k] then s.(k := s.k + 1)
      else s.(main := Sem2)
    case Sem2 => s.(main := Test2, sem := s.sem - 1)
    case Join => s.(main := Ended)
  }

  function Apply(s: State, e: Event): State
    requires Enabled(s, e)
  {
    match e
    case Spurious(t) => s.(workers := s.workers[t := Advance(|s.workers|, s.workers[t])], spurious := s.spurious + 1)
    case Run(t, pick) => RunWorker(s, t, pick)
    case Main => RunMain(s)
  }

  function Step(s: State, e: Event): State {
    if Enabled(s, e) then Apply(s, e) else s
  }

  function Repeat<T>(N: nat, x: T): (r: seq<T>)
    ensures |r| == N && forall t :: 0 <= t < N ==> r[t] == x
  {
    if N == 0 then [] else Repeat(N - 1, x) + [x]
  }

  /** `sem_init(&main_sem, 0, 1)`, an unused barrier for N threads, and N workers */
  function Start(N: nat): State {
    State(Free, Repeat(N, Worker(Bouncing, 0)), Repeat(N, false), Repeat(N, false), Repeat(N, false),
          0, false, 0, 1, false, Test1, 0, 0)
  }

  // ----- The invariant -----

  /** The position of a program counter in the worker's code. */
  function At(pc: Pc): nat {
    match pc
    case Bouncing => 0 case Lock => 1 case SetDone => 2 case Post1 => 3 case Wait => 4 case Waiting => 5
    case Woken => 6 case Unlock => 7 case Check => 8 case AtBarrier => 9 case Record => 10 case SetBarrier => 11
    case Post2 => 12 case Exit => 13
  }

  predicate Holds(pc: Pc) {
    pc in {SetDone, Post1, Wait, Unlock}
  }

  ghost predicate Exclusive(s: State) {
    && Shape(s)
    && (forall t :: 0 <= t < |s.workers| ==> (Holds(s.workers[t].pc) <==> s.owner == Held(t)))
    && (s.main in {Broadcast, MUnlock} <==> s.owner == Held(|s.workers|))
    && (s.owner.Held? ==> s.owner.tid <= |s.workers|)
  }

  predicate FlagsFit(pc: Pc, bounceDone: bool, barrierDone: bool, returned: bool, isSerial: bool) {
    && (bounceDone <==> At(pc) > At(SetDone))
    && (barrierDone <==> At(pc) > At(SetBarrier))
    && (At(pc) > At(Record) ==> (returned <==> isSerial))
  }

  /** The flags of a worker say where it is. */
  ghost predicate Flags(s: State) {
    && Shape(s)
    && (forall t :: 0 <= t < |s.workers| ==>
          FlagsFit(s.workers[t].pc, s.bounceDone[t], s.barrierDone[t], s.returned[t], t == s.serial))
  }

  function One(b: bool): nat {
    if b then 1 else 0
  }

  /** Workers among 0..n-1 that have come to the barrier. */
  function Arrivals(workers: seq<Worker>, n: nat): (r: nat)
    requires n <= |workers|
    ensures r <= n
  {
    if n == 0 then 0 else Arrivals(workers, n - 1) + One(At(workers[n - 1].pc) >= At(AtBarrier))
  }

  /** The barrier opens when everybody has come, and nobody passes it before. */
  ghost predicate Lined(s: State) {
    && s.arrived == Arrivals(s.workers, |s.workers|)
    && (s.open <==> s.arrived == |s.workers|)
    && (s.open ==> s.serial < |s.workers|)
    && (forall t :: 0 <= t < |s.workers| && At(s.workers[t].pc) > At(AtBarrier) ==> s.open)
    && !s.failed
  }

  lemma {:induction false} ArrivalsChange(workers: seq<Worker>, t: nat, w: Worker, n: nat)
    requires t < |workers| && n <= |workers|
    ensures Arrivals(workers[t := w], n) == Arrivals(workers, n) +
              if t < n then One(At(w.pc) >= At(AtBarrier)) - One(At(workers[t].pc) >= At(AtBarrier)) else 0
  {
    if n > 0 {
      ArrivalsChange(workers, t, w, n - 1);
    }
  }

  lemma {:induction false} AllArrived(workers: seq<Worker>, n: nat)
    requires n <= |workers|
    ensures Arrivals(workers, n) == n <==> forall t :: 0 <= t < n ==> At(workers[t].pc) >= At(AtBarrier)
  {
    if n > 0 {
      AllArrived(workers, n - 1);
    }
  }

  lemma {:induction false} WakeAllArrivals(workers: seq<Worker>, n: nat)
    requires n <= |workers|
    ensures Arrivals(WakeAll(workers), n) == Arrivals(workers, n)
  {
    if n > 0 {
      WakeAllArrivals(workers, n - 1);
    }
  }

  lemma WorkerExclusive(s: State, t: nat, pick: nat)
    requires Exclusive(s) && Enabled(s, Run(t, pick))
    ensures Exclusive(RunWorker(s, t, pick))
  {
    var w := s.workers[t];
    assert Holds(Advance(|s.workers|, w).pc) <==> Acquires(w.pc) || (Holds(w.pc) && !Releases(w.pc));
  }

  lemma MainExclusive(s: State)
    requires Exclusive(s) && Enabled(s, Main)
    ensures Exclusive(RunMain(s))
  {
  }

  lemma AdvanceFlags(N: nat, w: Worker, b: bool, r: bool, ret: bool, isSerial: bool)
    requires FlagsFit(w.pc, b, r, ret, isSerial)
    ensures FlagsFit(Advance(N, w).pc, b || w.pc == SetDone, r || w.pc == SetBarrier,
                     if w.pc == Record then isSerial else ret, isSerial)
  {
  }

  lemma WorkerFlags(s: State, t: nat, pick: nat)
    requires Flags(s) && Lined(s) && Enabled(s, Run(t, pick))
    ensures Flags(RunWorker(s, t, pick))
  {
    var r, N, w := RunWorker(s, t, pick), |s.workers|, s.workers[t];
    AdvanceFlags(N, w, s.bounceDone[t], s.barrierDone[t], s.returned[t], t == s.serial);
    forall u | 0 <= u < N
      ensures FlagsFit(r.workers[u].pc, r.bounceDone[u], r.barrierDone[u], r.returned[u], u == r.serial)
    {
      assert FlagsFit(s.workers[u].pc, s.bounceDone[u], s.barrierDone[u], s.returned[u], u == s.serial);
      if r.serial != s.serial {
        assert !s.open;
      }
    }
  }

  lemma MainFrame(s: State)
    requires Enabled(s, Main)
    ensures var r := RunMain(s);
            && r.workers == (if s.main == Broadcast then WakeAll(s.workers) else s.workers)
            && r.bounceDone == s.bounceDone && r.barrierDone == s.barrierDone && r.returned == s.returned
            && r.arrived == s.arrived && r.open == s.open && r.serial == s.serial && r.failed == s.failed
  {
  }

  lemma MainFlags(s: State)
    requires Flags(s) && Enabled(s, Main)
    ensures Flags(RunMain(s))
  {
    MainFrame(s);
    var r := RunMain(s);
    forall u | 0 <= u < |r.workers|
      ensures FlagsFit(r.workers[u].pc, r.bounceDone[u], r.barrierDone[u], r.returned[u], u == r.serial)
    {
      WokenFits(s.workers[u].pc, s.bounceDone[u], s.barrierDone[u], s.returned[u], u == s.serial);
    }
  }

  lemma WokenFits(pc: Pc, b: bool, r: bool, ret: bool, isSerial: bool)
    requires FlagsFit(pc, b, r, ret, isSerial)
    ensures FlagsFit(if pc == Waiting then Woken else pc, b, r, ret, isSerial)
  {
  }

  lemma WorkerLined(s: State, t: nat, pick: nat)
    requires Flags(s) && Lined(s) && Enabled(s, Run(t, pick))
    ensures Lined(RunWorker(s, t, pick))
  {
    var N, w := |s.workers|, s.workers[t];
    ArrivalsChange(s.workers, t, Advance(N, w), N);
    AllArrived(s.workers, N);
  }

  lemma MainLined(s: State)
    requires Lined(s) && Enabled(s, Main)
    ensures Lined(RunMain(s))
  {
    MainFrame(s);
    WakeAllArrivals(s.workers, |s.workers|);
  }

  // ----- Main's loops -----

  /** Main's first loop trusts flags that stay set, and a worker that reports after main looked leaves main a token. */
  ghost predicate FirstReports(s: State) {
    && Shape(s)
    && (s.main in {Scan1, Sem1} ==> s.k <= |s.workers|)
    && (s.main == Scan1 ==> forall t :: 0 <= t < s.k ==> s.bounceDone[t])
    && (s.main == Sem1 ==> s.k < |s.workers| && (At(s.workers[s.k].pc) > At(Post1) ==> s.sem > 0))
    && (s.main !in {Test1, Scan1, Sem1} ==> forall t :: 0 <= t < |s.workers| ==> s.bounceDone[t])
  }

  /** Nobody goes past its wait before the broadcast but for a spurious wakeup, and the broadcast reaches all. */
  ghost predicate Gate(s: State) {
    && (s.main !in {Test1, Scan1, Sem1, MLock, Broadcast} ==>
          forall t :: 0 <= t < |s.workers| ==> At(s.workers[t].pc) > At(Waiting))
    && (s.main in {Test1, Scan1, Sem1, MLock, Broadcast} && s.spurious == 0 ==>
          forall t :: 0 <= t < |s.workers| ==> At(s.workers[t].pc) <= At(Waiting))
  }

  /** The same for main's second loop. */
  ghost predicate SecondReports(s: State) {
    && Shape(s)
    && (s.main in {Scan2, Sem2} ==> s.k <= |s.workers|)
    && (s.main == Scan2 ==> forall t :: 0 <= t < s.k ==> s.barrierDone[t])
    && (s.main == Sem2 ==> s.k < |s.workers| && (s.workers[s.k].pc == Exit ==> s.sem > 0))
    && (s.main in {Join, Ended} ==> forall t :: 0 <= t < |s.workers| ==> s.barrierDone[t])
    && (s.main == Ended ==> forall t :: 0 <= t < |s.workers| ==> s.workers[t].pc == Exit)
  }

  ghost predicate Reports(s: State) {
    FirstReports(s) && Gate(s) && SecondReports(s)
  }

  /** When main has the mutex for its broadcast, every worker is in the wait set of `cvar1`, or has left it. */
  lemma AllAsleep(s: State)
    requires Exclusive(s) && Flags(s) && Reports(s) && s.main == Broadcast
    ensures forall t :: 0 <= t < |s.workers| ==> At(s.workers[t].pc) >= At(Waiting)
    ensures s.spurious == 0 ==> forall t :: 0 <= t < |s.workers| ==> s.workers[t].pc == Waiting
  {
    forall t | 0 <= t < |s.workers| ensures At(s.workers[t].pc) >= At(Waiting) {
      assert FlagsFit(s.workers[t].pc, s.bounceDone[t], s.barrierDone[t], s.returned[t], t == s.serial);
      assert !Holds(s.workers[t].pc);
    }
  }

  lemma WorkerFirstReports(s: State, t: nat, pick: nat)
    requires FirstReports(s) && Enabled(s, Run(t, pick))
    ensures FirstReports(RunWorker(s, t, pick))
  {
  }

  lemma WorkerGate(s: State, t: nat, pick: nat)
    requires Gate(s) && Enabled(s, Run(t, pick))
    ensures Gate(RunWorker(s, t, pick))
  {
  }

  lemma WorkerSecondReports(s: State, t: nat, pick: nat)
    requires SecondReports(s) && Enabled(s, Run(t, pick))
    ensures SecondReports(RunWorker(s, t, pick))
  {
  }

  lemma WorkerReports(s: State, t: nat, pick: nat)
    requires Reports(s) && Enabled(s, Run(t, pick))
    ensures Reports(RunWorker(s, t, pick))
  {
    WorkerFirstReports(s, t, pick);
    WorkerGate(s, t, pick);
    WorkerSecondReports(s, t, pick);
  }

  lemma SpuriousReports(s: State, t: nat)
    requires Reports(s) && Enabled(s, Spurious(t))
    ensures Reports(Apply(s, Spurious(t)))
  {
  }

  lemma FirstLoopReports(s: State)
    requires Flags(s) && Reports(s) && Enabled(s, Main) && s.main in {Test1, Scan1, Sem1}
    ensures Reports(RunMain(s))
  {
    if s.main == Scan1 && s.k < |s.workers| {
      assert FlagsFit(s.workers[s.k].pc, s.bounceDone[s.k], s.barrierDone[s.k], s.returned[s.k], s.k == s.serial);
    }
  }

  lemma BroadcastReports(s: State)
    requires Exclusive(s) && Flags(s) && Reports(s) && Enabled(s, Main) && s.main in {MLock, Broadcast, MUnlock}
    ensures Reports(RunMain(s))
  {
    if s.main == Broadcast {
      AllAsleep(s);
    }
  }

  lemma SecondScanReports(s: State)
    requires Flags(s) && Reports(s) && Enabled(s, Main) && s.main == Scan2
    ensures Reports(RunMain(s))
  {
    if s.k < |s.workers| {
      assert FlagsFit(s.workers[s.k].pc, s.bounceDone[s.k], s.barrierDone[s.k], s.returned[s.k], s.k == s.serial);
    }
  }

  lemma SecondLoopReports(s: State)
    requires Lined(s) && Reports(s) && Enabled(s, Main) && s.main in {Test2, Sem2, Join}
    ensures Reports(RunMain(s))
  {
  }

  ghost predicate Inv(s: State) {
    |s.workers| > 0 && Exclusive(s) && Flags(s) && Lined(s) && Reports(s)
  }

  lemma WorkerInv(s: State, t: nat, pick: nat)
    requires Inv(s) && Enabled(s, Run(t, pick))
    ensures Inv(RunWorker(s, t, pick))
  {
    WorkerExclusive(s, t, pick);
    WorkerFlags(s, t, pick);
    WorkerLined(s, t, pick);
    WorkerReports(s, t, pick);
  }

  lemma MainInv(s: State)
    requires Inv(s) && Enabled(s, Main)
    ensures Inv(RunMain(s))
  {
    MainExclusive(s);
    MainFlags(s);
    MainLined(s);
    if s.main in {Test1, Scan1, Sem1} {
      FirstLoopReports(s);
    } else if s.main in {MLock, Broadcast, MUnlock} {
      BroadcastReports(s);
    } else if s.main == Scan2 {
      SecondScanReports(s);
    } else {
      SecondLoopReports(s);
    }
  }

  lemma SpuriousInv(s: State, t: nat)
    requires Inv(s) && Enabled(s, Spurious(t))
    ensures Inv(Apply(s, Spurious(t)))
  {
    ArrivalsChange(s.workers, t, Advance(|s.workers|, s.workers[t]), |s.workers|);
    SpuriousReports(s, t);
    SpuriousFlags(s, t);
  }

  lemma SpuriousFlags(s: State, t: nat)
    requires Flags(s) && Enabled(s, Spurious(t))
    ensures Flags(Apply(s, Spurious(t)))
  {
    WokenFits(s.workers[t].pc, s.bounceDone[t], s.barrierDone[t], s.returned[t], t == s.serial);
  }

  lemma StepInv(s: State, e: Event)
    requires Inv(s)
    ensures Inv(Step(s, e)) && |Step(s, e).workers| == |s.workers|
  {
    if Enabled(s, e) {
      match e {
        case Run(t, pick) => WorkerInv(s, t, pick);
        case Main => MainInv(s); MainFrame(s);
        case Spurious(t) => SpuriousInv(s, t);
      }
    }
  }

  // ----- All runs -----

  lemma {:induction false} NobodyArrived(workers: seq<Worker>, n: nat)
    requires n <= |workers|
    requires forall t :: 0 <= t < n ==> workers[t].pc == Bouncing
    ensures Arrivals(workers, n) == 0
  {
    if n > 0 {
      NobodyArrived(workers, n - 1);
    }
  }

  lemma StartInv(N: nat)
    requires N > 0
    ensures Inv(Start(N))
  {
    var s := Start(N);
    NobodyArrived(s.workers, N);
    StartFlags(N);
    assert Exclusive(s);
    assert Lined(s);
    assert Reports(s);
  }

  lemma StartFlags(N: nat)
    ensures Flags(Start(N))
  {
    var s := Start(N);
    forall t | 0 <= t < |s.workers|
      ensures FlagsFit(s.workers[t].pc, s.bounceDone[t], s.barrierDone[t], s.returned[t], t == s.serial)
    {
      assert s.workers[t].pc == Bouncing && !s.bounceDone[t] && !s.barrierDone[t] && !s.returned[t];
    }
  }

  lemma {:induction false} RunInv(N: nat, es: seq<Event>)
    requires N > 0
    ensures var s := Exec(Step, Start(N), es);
            Inv(s) && |s.workers| == N
  {
    var inv := (t: State) => Inv(t) && |t.workers| == N;
    StartInv(N);
    forall t, e | inv(t) ensures inv(Step(t, e)) {
      StepInv(t, e);
    }
    Invariance(Step, inv, Start(N), es);
  }

  /** The broadcast loses no one: when main holds the mutex for it, every worker waits on `cvar1` unless a spurious
      wakeup took it out; and nobody is seen through the barrier by a worker that is not in it yet. */
  lemma {:induction false} BroadcastReachesAll(N: nat, es: seq<Event>)
    requires N > 0
    ensures var s := Exec(Step, Start(N), es);
            && !s.failed
            && |s.workers| == N
            && (s.main == Broadcast ==> forall t :: 0 <= t < N ==>
                 At(s.workers[t].pc) >= At(Waiting) && (s.spurious == 0 ==> s.workers[t].pc == Waiting))
            && (forall t, u :: 0 <= t < N && 0 <= u < N && At(s.workers[t].pc) > At(AtBarrier) ==>
                 At(s.workers[u].pc) >= At(AtBarrier))
  {
    RunInv(N, es);
    var s := Exec(Step, Start(N), es);
    if s.main == Broadcast {
      AllAsleep(s);
    }
    AllArrived(s.workers, N);
  }

  // ----- Main never waits for ever -----

  /** Nobody can move, except by a spurious wakeup. */
  ghost predicate Stuck(s: State) {
    && !Enabled(s, Main)
    && (forall t, pick :: !Enabled(s, Run(t, pick)))
  }

  lemma StuckWorkers(s: State)
    requires Exclusive(s) && Stuck(s) && |s.workers| > 0
    ensures s.owner == Free
    ensures forall t :: 0 <= t < |s.workers| ==>
              s.workers[t].pc in {Waiting, Exit} || (s.workers[t].pc == AtBarrier && !s.open)
  {
    assert s.main !in {Broadcast, MUnlock};
    assert s.owner.Held? ==> !Enabled(s, Run(s.owner.tid, 0));
    forall t: nat | t < |s.workers|
      ensures s.workers[t].pc in {Waiting, Exit} || (s.workers[t].pc == AtBarrier && !s.open)
    {
      assert !Enabled(s, Run(t, 0));
    }
  }

  lemma StuckIsEnded(s: State)
    requires Inv(s) && Stuck(s)
    ensures s.main == Ended
  {
    StuckWorkers(s);
    AllArrived(s.workers, |s.workers|);
  }

  function Serials(returned: seq<bool>): nat {
    if returned == [] then 0 else Serials(returned[..|returned| - 1]) + One(returned[|returned| - 1])
  }

  lemma {:induction false} OneSerial(returned: seq<bool>, serial: nat)
    requires forall t :: 0 <= t < |returned| ==> (returned[t] <==> t == serial)
    ensures Serials(returned) == One(serial < |returned|)
  {
    if returned != [] {
      OneSerial(returned[..|returned| - 1], serial);
    }
  }

  lemma ExitedReturns(s: State)
    requires Flags(s) && Lined(s) && |s.workers| > 0 && forall t :: 0 <= t < |s.workers| ==> s.workers[t].pc == Exit
    ensures Serials(s.returned) == 1
  {
    forall t | 0 <= t < |s.returned| ensures s.returned[t] <==> t == s.serial {
      assert FlagsFit(s.workers[t].pc, s.bounceDone[t], s.barrierDone[t], s.returned[t], t == s.serial);
    }
    assert s.workers[0].pc == Exit;
    OneSerial(s.returned, s.serial);
  }

  /** A run that cannot go on has ended: main found no failure, and exactly one worker was told that it was the
      serial thread of the barrier. */
  lemma {:induction false} StuckRunsHaveEnded(N: nat, es: seq<Event>)
    requires N > 0
    ensures var s := Exec(Step, Start(N), es);
            Stuck(s) ==> s.main == Ended && !s.failed && Serials(s.returned) == 1
  {
    RunInv(N, es);
    var s := Exec(Step, Start(N), es);
    if Stuck(s) {
      StuckIsEnded(s);
      ExitedReturns(s);
    }
  }

  // ----- The check for an early exit -----

  /** The step in which worker `t` looks at the flag of worker `j`. */
  predicate LooksAt(t: nat, j: nat, s: State, e: Event) {
    e.Run? && e.tid == t && Enabled(s, e) && s.workers[t].pc == Check && s.workers[t].k == j
  }

  /** Worker `t` has yet to look at the flag of worker `j`. */
  function Looks(t: nat, j: nat, s: State): nat {
    if t < |s.workers|
       && (At(s.workers[t].pc) < At(Check) || (s.workers[t].pc == Check && s.workers[t].k <= j))
    then 1 else 0
  }

  lemma AdvanceLooks(N: nat, w: Worker, j: nat)
    requires j < N
    ensures var r := Advance(N, w);
            (At(r.pc) < At(Check) || (r.pc == Check && r.k <= j))
            <==> (At(w.pc) < At(Check) || (w.pc == Check && w.k <= j)) && !(w.pc == Check && w.k == j)
  {
  }

  lemma LooksStep(N: nat, t: nat, j: nat, s: State, e: Event)
    requires |s.workers| == N && t < N && j < N
    ensures var r := Step(s, e);
            |r.workers| == N && Looks(t, j, r) == Looks(t, j, s) - if LooksAt(t, j, s, e) then 1 else 0
  {
    if Enabled(s, e) {
      AdvanceLooks(N, s.workers[t], j);
      match e {
        case Spurious(u) =>
        case Run(u, pick) =>
          assert Step(s, e).workers == s.workers[u := Advance(N, s.workers[u])];
        case Main => MainFrame(s);
      }
    }
  }

  function Looking(t: nat, j: nat): (State, Event) -> bool {
    (s: State, e: Event) => LooksAt(t, j, s, e)
  }

  lemma {:induction false} LooksAddUp(N: nat, es: seq<Event>, t: nat, j: nat)
    requires t < N && j < N
    ensures var s := Exec(Step, Start(N), es);
            |s.workers| == N && StepsWhere(Step, Looking(t, j), Start(N), es) + Looks(t, j, s) == 1
  {
    if es != [] {
      var front, e := es[..|es| - 1], es[|es| - 1];
      LooksAddUp(N, front, t, j);
      LooksStep(N, t, j, Exec(Step, Start(N), front), e);
    }
  }

  lemma LooksThrough(t: nat, j: nat, s: State)
    requires t < |s.workers|
    ensures s.workers[t].pc in {AtBarrier, Record, SetBarrier, Post2, Exit} ==> Looks(t, j, s) == 0
  {
  }

  /** Before it comes to the barrier every worker looks at the flag of every worker, itself among them, exactly once. */
  lemma {:induction false} EveryFlagIsLookedAt(N: nat, es: seq<Event>, t: nat, j: nat)
    requires t < N && j < N
    ensures var s := Exec(Step, Start(N), es);
            var looks := StepsWhere(Step, Looking(t, j), Start(N), es);
            && |s.workers| == N && looks <= 1
            && (s.workers[t].pc in {AtBarrier, Record, SetBarrier, Post2, Exit} ==> looks == 1)
  {
    LooksAddUp(N, es, t, j);
    LooksThrough(t, j, Exec(Step, Start(N), es));
  }

  /** A worker that finds another one through the barrier raises the failure flag. */
  predicate Alarms(s: State, e: Event) {
    && e.Run? && Enabled(s, e) && s.workers[e.tid].pc == Check
    && s.workers[e.tid].k < |s.barrierDone| && s.barrierDone[s.workers[e.tid].k]
  }

  lemma StepAlarms(s: State, e: Event)
    ensures Step(s, e).failed <==> s.failed || Alarms(s, e)
  {
    if Enabled(s, e) && e.Main? {
      MainFrame(s);
    }
  }

  /** The failure flag is up exactly when some worker found another one through the barrier before it came there. */
  lemma {:induction false} FailedIffAlarmed(N: nat, es: seq<Event>)
    ensures Exec(Step, Start(N), es).failed <==> StepsWhere(Step, Alarms, Start(N), es) > 0
  {
    forall s, e ensures Step(s, e).failed <==> s.failed || Alarms(s, e) {
      StepAlarms(s, e);
    }
    FlagIffRaised(Step, (s: State) => s.failed, Alarms, Start(N), es);
  }

  // ----- How long a run can be -----

  function Gap(N: nat, k: nat): nat {
    if k < N then N - k else 0
  }

  /** The steps left to a worker, plus `token` for each report it will make. */
  function WorkerRank(N: nat, token: nat, w: Worker): nat {
    match w.pc
    case Bouncing => 13 + 2 * token + N case Lock => 12 + 2 * token + N case SetDone => 11 + 2 * token + N
    case Post1 => 10 + 2 * token + N case Wait => 9 + token + N case Waiting => 8 + token + N
    case Woken => 7 + token + N case Unlock => 6 + token + N case Check => 5 + token + Gap(N, w.k)
    case AtBarrier => 4 + token case Record => 3 + token case SetBarrier => 2 + token case Post2 => 1 + token
    case Exit => 0
  }

  function WorkersRank(N: nat, token: nat, workers: seq<Worker>): nat {
    if workers == [] then 0
    else WorkersRank(N, token, workers[..|workers| - 1]) + WorkerRank(N, token, workers[|workers| - 1])
  }

  /** The steps left to main until it waits for the semaphore again or ends. */
  function MainRank(N: nat, main: MainPc, k: nat): nat {
    match main
    case Test1 => 8 + 2 * N case Scan1 => 7 + N + Gap(N, k) case Sem1 => 7 + N case MLock => 6 + N
    case Broadcast => 5 + N case MUnlock => 4 + N case Test2 => 3 + N case Scan2 => 2 + Gap(N, k) case Sem2 => 2
    case Join => 1 case Ended => 0
  }

  function Measure(s: State): nat {
    var N := |s.workers|;
    WorkersRank(N, N + 5, s.workers) + (N + 5) * s.sem + MainRank(N, s.main, s.k)
  }

  lemma {:induction false} RankChange(N: nat, token: nat, workers: seq<Worker>, t: nat, w: Worker)
    requires t < |workers|
    ensures WorkersRank(N, token, workers[t := w]) ==
              WorkersRank(N, token, workers) + WorkerRank(N, token, w) - WorkerRank(N, token, workers[t])
  {
    var last := |workers| - 1;
    if t < last {
      RankChange(N, token, workers[..last], t, w);
      assert workers[t := w][..last] == workers[..last][t := w];
    } else {
      assert workers[t := w][..last] == workers[..last];
    }
  }

  lemma {:induction false} WakeAllRank(N: nat, token: nat, workers: seq<Worker>)
    ensures WorkersRank(N, token, WakeAll(workers)) <= WorkersRank(N, token, workers)
  {
    if workers != [] {
      var last := |workers| - 1;
      WakeAllRank(N, token, workers[..last]);
      assert WakeAll(workers)[..last] == WakeAll(workers[..last]);
    }
  }

  lemma TokenCost(c: nat, n: nat)
    ensures c * (n + 1) == c * n + c && (n > 0 ==> c * n == c * (n - 1) + c)
  {
  }

  lemma AdvanceRank(N: nat, token: nat, w: Worker)
    requires w.pc != Exit
    ensures WorkerRank(N, token, Advance(N, w)) + 1 + (if w.pc in {Post1, Post2} then token else 0)
              <= WorkerRank(N, token, w)
  {
  }

  lemma MainStepRank(s: State)
    requires Enabled(s, Main) && !s.failed
    ensures var r, N, waits := RunMain(s), |s.workers|, s.main in {Sem1, Sem2};
            && MainRank(N, r.main, r.k) + 1 <= MainRank(N, s.main, s.k) + (if waits then N + 5 else 0)
            && r.sem == s.sem - (if waits then 1 else 0)
  {
  }

  lemma WorkerFrame(s: State, t: nat, pick: nat)
    requires Enabled(s, Run(t, pick)) && !RunWorker(s, t, pick).failed
    ensures var r, w := RunWorker(s, t, pick), s.workers[t];
            && r.workers == s.workers[t := Advance(|s.workers|, w)]
            && r.main == s.main && r.k == s.k
            && r.sem == s.sem + if w.pc in {Post1, Post2} then 1 else 0
  {
  }

  lemma AdvanceWorkersRank(N: nat, token: nat, workers: seq<Worker>, t: nat)
    requires t < |workers| && workers[t].pc != Exit
    ensures WorkersRank(N, token, workers[t := Advance(N, workers[t])]) + 1
              + (if workers[t].pc in {Post1, Post2} then token else 0) <= WorkersRank(N, token, workers)
  {
    AdvanceRank(N, token, workers[t]);
    RankChange(N, token, workers, t, Advance(N, workers[t]));
  }

  lemma ReportKeepsMeasure(s: State, r: State, posts: bool)
    requires |r.workers| == |s.workers| && r.main == s.main && r.k == s.k && r.sem == s.sem + One(posts)
    requires var N := |s.workers|;
             WorkersRank(N, N + 5, r.workers) + 1 + (if posts then N + 5 else 0) <= WorkersRank(N, N + 5, s.workers)
    ensures Measure(r) + 1 <= Measure(s)
  {
    TokenCost(|s.workers| + 5, s.sem);
  }

  lemma WorkerLowers(s: State, t: nat, pick: nat)
    requires Enabled(s, Run(t, pick)) && !RunWorker(s, t, pick).failed
    ensures Measure(RunWorker(s, t, pick)) + 1 <= Measure(s)
  {
    WorkerFrame(s, t, pick);
    AdvanceWorkersRank(|s.workers|, |s.workers| + 5, s.workers, t);
    ReportKeepsMeasure(s, RunWorker(s, t, pick), s.workers[t].pc in {Post1, Post2});
  }

  lemma MainLowers(s: State)
    requires Enabled(s, Main) && !s.failed
    ensures Measure(RunMain(s)) + 1 <= Measure(s)
  {
    MainFrame(s);
    MainStepRank(s);
    WakeAllRank(|s.workers|, |s.workers| + 5, s.workers);
    TokenCost(|s.workers| + 5, s.sem);
  }

  lemma SpuriousLowers(s: State, t: nat)
    requires Enabled(s, Spurious(t))
    ensures Measure(Apply(s, Spurious(t))) + 1 <= Measure(s)
  {
    AdvanceWorkersRank(|s.workers|, |s.workers| + 5, s.workers, t);
  }

  lemma StepLowers(s: State, e: Event)
    requires Inv(s) && Enabled(s, e)
    ensures Measure(Step(s, e)) + 1 <= Measure(s)
  {
    match e {
      case Run(t, pick) => WorkerLined(s, t, pick); WorkerLowers(s, t, pick);
      case Main => MainLowers(s);
      case Spurious(t) => SpuriousLowers(s, t);
    }
  }

  lemma {:induction false} StartRank(N: nat, token: nat, n: nat)
    ensures WorkersRank(N, token, Repeat(n, Worker(Bouncing, 0))) == n * (13 + 2 * token + N)
  {
    if n > 0 {
      StartRank(N, token, n - 1);
      assert Repeat(n, Worker(Bouncing, 0))[..n - 1] == Repeat(n - 1, Worker(Bouncing, 0));
      TokenCost(13 + 2 * token + N, n);
    }
  }

  lemma StartMeasure(N: nat)
    ensures Measure(Start(N)) == N * (3 * N + 23) + 3 * N + 13
  {
    StartRank(N, N + 5, N);
    assert 13 + 2 * (N + 5) + N == 3 * N + 23;
  }

  lemma StepsLower()
    ensures Lowers(Step, Enabled, Inv, Measure, (e: Event) => false, 0)
  {
    forall s: State, e: Event | Inv(s) && Enabled(s, e)
      ensures Inv(Step(s, e)) && Measure(Step(s, e)) + 1 <= Measure(s)
    {
      StepInv(s, e);
      StepLowers(s, e);
    }
  }

  /** Every run is finite, with or without spurious wakeups: the semaphore sends main around its loops at most once
      for each report, and once for its initial count. */
  lemma {:induction false} EveryRunIsBounded(N: nat, es: seq<Event>)
    requires N > 0 && Effective(Step, Enabled, Start(N), es)
    ensures |es| <= N * (3 * N + 23) + 3 * N + 13
  {
    StartInv(N);
    StepsLower();
    BoundedRun(Step, Enabled, Inv, Measure, (e: Event) => false, 0, Start(N), es);
    StartMeasure(N);
  }
}
