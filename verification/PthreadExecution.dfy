/**
 `test_pthread_execution` (tests/pthread/src/pthread.c) as objects stepped in place: the bounce phase, and what main
 and the workers do after it.
 */
module PthreadExecution {
  import opened Runs
  import B = Bounce
  import Turn = BounceTurn
  import L = Barrier
  import Whole = Execution

  /** The shared variables of the bounce phase and the locals of its threads. */
  class BounceTest {
    const bounces: nat
    const spins: nat
    var owner: B.Owner
    var threads: seq<B.Local>
    var queue: seq<nat>
    var currBounceThread: int
    var claims: seq<nat>
    var lost: nat
    var harmed: bool
    var spurious: nat
    var bounceFailed: bool

    function View(): B.State
      reads this
    {
      B.State(bounces, spins, owner, threads, queue, currBounceThread, claims, lost, harmed, spurious, bounceFailed)
    }

    constructor (n: nat, bounces: nat, spins: nat)
      ensures View() == B.Start(n, bounces, spins)
    {
      this.bounces, this.spins := bounces, spins;
      owner, threads, queue := B.Free, seq(n, _ => B.Local(B.PreLock, 0, 0)), [];
      currBounceThread, claims, lost, harmed, spurious, bounceFailed := -1, [], 0, false, 0, false;
    }

    method Goto(t: nat, pc: B.Pc)
      requires t < |threads|
      modifies this`threads
      ensures threads == old(threads)[t := old(threads)[t].(pc := pc)]
    {
      threads := threads[t := threads[t].(pc := pc)];
    }

    /** The thread at position `k` leaves the queue of `cvar0`. */
    method Wake(k: nat)
      requires k < |queue| && queue[k] < |threads|
      modifies this`threads, this`queue
      ensures View() == B.Wake(old(View()), k)
    {
      Goto(queue[k], B.Woken);
      queue := queue[..k] + queue[k + 1..];
    }

    method TakeLock(t: nat, pc: B.Pc)
      requires t < |threads|
      modifies this`threads, this`owner
      ensures threads == old(threads)[t := old(threads)[t].(pc := pc)] && owner == B.Held(t)
    {
      owner := B.Held(t);
      Goto(t, pc);
    }

    method DropLock(t: nat, pc: B.Pc)
      requires t < |threads|
      modifies this`threads, this`owner
      ensures threads == old(threads)[t := old(threads)[t].(pc := pc)] && owner == B.Free
    {
      owner := B.Free;
      Goto(t, pc);
    }

    /** `pthread_cond_signal(&cvar0)` */
    method SignalNext(t: nat, pick: nat)
      requires B.Enabled(View(), B.Run(t, pick)) && threads[t].pc == B.Signal
      modifies this
      ensures View() == B.ApplyRun(old(View()), t, pick)
    {
      if queue == [] {
        lost := lost + 1;
        harmed := harmed || threads[t].round + 1 < bounces
                  || exists u :: 0 <= u < |threads| && u != t && threads[u].pc != B.Finished;
        Goto(t, B.Unlock);
      } else {
        Goto(t, B.Unlock);
        if queue[pick] == t {
          threads := threads[t := threads[t].(pc := B.Woken)];
          queue := queue[..pick] + queue[pick + 1..];
        } else {
          Wake(pick);
        }
      }
    }

    /** The double lock at the top of `thread_top_exec`. */
    method TryDoubleLock(t: nat)
      requires B.Enabled(View(), B.Run(t, 0)) && threads[t].pc in {B.PreLock, B.Try, B.PreUnlock}
      modifies this
      ensures View() == B.ApplyRun(old(View()), t, 0)
    {
      match threads[t].pc {
        case PreLock => TakeLock(t, B.Try);
        case Try =>
          bounceFailed := bounceFailed || owner == B.Free;
          Goto(t, B.PreUnlock);
        case PreUnlock => DropLock(t, if bounces == 0 then B.Finished else B.Lock);
      }
    }

    /** Waiting for the turn; thread 0 sleeps instead in its first round. */
    method AwaitTurn(t: nat)
      requires B.Enabled(View(), B.Run(t, 0))
      requires threads[t].pc in {B.Lock, B.Decide, B.FirstUnlock, B.Sleep, B.Relock, B.Woken}
      modifies this
      ensures View() == B.ApplyRun(old(View()), t, 0)
    {
      var id, i := t, threads[t].round;
      match threads[t].pc {
        case Lock => TakeLock(t, B.Decide);
        case Decide =>
          if id == 0 && i == 0 {
            Goto(t, B.FirstUnlock);
          } else {
            queue := queue + [t];
            DropLock(t, B.Queued);
          }
        case FirstUnlock => DropLock(t, B.Sleep);
        case Sleep => Goto(t, B.Relock);
        case Relock => TakeLock(t, B.Claim);
        case Woken => TakeLock(t, B.Claim);
      }
    }

    /** Claiming, yielding and leaving the mutex at the end of the round. */
    method UseTurn(t: nat)
      requires B.Enabled(View(), B.Run(t, 0)) && threads[t].pc in {B.Claim, B.Yield, B.Unlock}
      modifies this
      ensures View() == B.ApplyRun(old(View()), t, 0)
    {
      var id, l := t, threads[t];
      match l.pc {
        case Claim =>
          currBounceThread, claims := id, claims + [id];
          threads := threads[t := l.(pc := B.Yield, spins := 0)];
        case Yield =>
          if l.spins == spins {
            Goto(t, B.Signal);
          } else {
            bounceFailed := bounceFailed || (l.spins < spins && currBounceThread != id);
            threads := threads[t := l.(spins := l.spins + 1)];
          }
        case Unlock =>
          owner := B.Free;
          threads := threads[t := l.(pc := if l.round + 1 < bounces then B.Lock else B.Finished, round := l.round + 1)];
      }
    }

    /** One step of `thread_top_exec` in its first phase; a signal wakes the thread at position `pick`. */
    method ThreadTopExec(t: nat, pick: nat)
      requires B.Enabled(View(), B.Run(t, pick))
      modifies this
      ensures View() == B.ApplyRun(old(View()), t, pick)
    {
      if threads[t].pc in {B.PreLock, B.Try, B.PreUnlock} {
        TryDoubleLock(t);
      } else if threads[t].pc == B.Signal {
        SignalNext(t, pick);
      } else if threads[t].pc in {B.Claim, B.Yield, B.Unlock} {
        UseTurn(t);
      } else {
        AwaitTurn(t);
      }
    }

    method StepOnce(e: B.Event)
      modifies this
      ensures View() == B.Step(old(View()), e)
    {
      if B.Enabled(View(), e) {
        match e {
          case Run(t, pick) => ThreadTopExec(t, pick);
          case Spurious(pos) =>
            Wake(pos);
            spurious := spurious + 1;
        }
      }
    }

    /** Runs the bounce phase under a schedule: nobody sees a foreign claim, and if no thread can go on without a
        spurious wakeup and there was none, all threads are through exactly when no signal was wasted. */
    method Run(schedule: seq<B.Event>)
      requires |threads| > 0 && bounces > 0 && View() == B.Start(|threads|, bounces, spins)
      modifies this
      ensures |threads| == old(|threads|)
      ensures View() == Exec(B.Step, B.Start(|threads|, bounces, spins), schedule)
      ensures !bounceFailed
      ensures Turn.Stuck(View()) && spurious == 0 ==>
                ((forall t :: 0 <= t < |threads| ==> threads[t].pc == B.Finished) <==> !harmed)
    {
      ghost var start, n := View(), |threads|;
      for k := 0 to |schedule|
        invariant View() == Exec(B.Step, start, schedule[..k])
      {
        assert schedule[..k + 1][..k] == schedule[..k];
        StepOnce(schedule[k]);
      }
      assert schedule[..|schedule|] == schedule;
      Turn.EveryRunKeepsTheTurn(n, bounces, spins, schedule);
      Turn.StuckIsFinishedIffNotHarmed(n, bounces, spins, schedule);
    }
  }

  /** The shared variables of the second half of the test, and the locals of main and the workers. */
  class BarrierTest {
    var owner: L.Owner
    var workers: seq<L.Worker>
    var bounceDone: seq<bool>
    var barrierDone: seq<bool>
    var barrierReturn: seq<bool>
    var arrived: nat
    var open: bool
    var serial: nat
    var mainSem: nat
    var barrierFailed: bool
    var main: L.MainPc
    var i: nat
    var spurious: nat

    function View(): L.State
      reads this
    {
      L.State(owner, workers, bounceDone, barrierDone, barrierReturn, arrived, open, serial, mainSem, barrierFailed,
              main, i, spurious)
    }

    constructor (n: nat)
      ensures View() == L.Start(n)
    {
      owner, workers := L.Free, L.Repeat(n, L.Worker(L.Bouncing, 0));
      bounceDone, barrierDone, barrierReturn := L.Repeat(n, false), L.Repeat(n, false), L.Repeat(n, false);
      arrived, open, serial, mainSem, barrierFailed := 0, false, 0, 1, false;
      main, i, spurious := L.Test1, 0, 0;
    }

    method Goto(t: nat, pc: L.Pc)
      requires t < |workers|
      modifies this`workers
      ensures workers == old(workers)[t := old(workers)[t].(pc := pc)]
    {
      workers := workers[t := workers[t].(pc := pc)];
    }

    /** One step of a worker up to and including its wait for the broadcast. */
    method Report(t: nat)
      requires L.Enabled(View(), L.Run(t, 0)) && L.At(workers[t].pc) <= L.At(L.Unlock)
      modifies this
      ensures View() == L.RunWorker(old(View()), t, 0)
    {
      match workers[t].pc {
        case Bouncing => Goto(t, L.Lock);
        case Lock => owner := L.Held(t); Goto(t, L.SetDone);
        case SetDone => bounceDone := bounceDone[t := true]; Goto(t, L.Post1);
        case Post1 => mainSem := mainSem + 1; Goto(t, L.Wait);
        case Wait => owner := L.Free; Goto(t, L.Waiting);
        case Woken => owner := L.Held(t); Goto(t, L.Unlock);
        case Unlock => owner := L.Free; workers := workers[t := L.Worker(L.Check, 0)];
      }
    }

    /** One step of the early-exit check, the last of which enters the barrier; if that opens the barrier, `pick` is
        the serial thread. */
    method CheckEarlyExit(t: nat, pick: nat)
      requires L.Enabled(View(), L.Run(t, pick)) && workers[t].pc == L.Check
      modifies this
      ensures View() == L.RunWorker(old(View()), t, pick)
    {
      if workers[t].k < |workers| {
        LookAt(t, pick);
      } else {
        EnterBarrier(t, pick);
      }
    }

    method LookAt(t: nat, pick: nat)
      requires L.Enabled(View(), L.Run(t, pick)) && workers[t].pc == L.Check && workers[t].k < |workers|
      modifies this
      ensures View() == L.RunWorker(old(View()), t, pick)
    {
      ghost var s := View();
      var k := workers[t].k;
      var early := barrierDone[k];
      assert L.SeesEarlyExit(s, s.workers[t]) == early;
      if early {
        barrierFailed, mainSem := true, mainSem + 1;
      }
      workers := workers[t := L.Worker(L.Check, k + 1)];
      assert L.Advance(|s.workers|, s.workers[t]) == L.Worker(L.Check, k + 1);
    }

    /** `pthread_barrier_wait`: the last worker to come opens the barrier. */
    method EnterBarrier(t: nat, pick: nat)
      requires L.Enabled(View(), L.Run(t, pick)) && workers[t].pc == L.Check && workers[t].k >= |workers|
      modifies this
      ensures View() == L.RunWorker(old(View()), t, pick)
    {
      arrived := arrived + 1;
      open := open || arrived == |workers|;
      serial := if arrived == |workers| then pick else serial;
      workers := workers[t := workers[t].(pc := L.AtBarrier)];
    }

    /** One step of a worker behind the barrier. */
    method LeaveBarrier(t: nat)
      requires L.Enabled(View(), L.Run(t, 0)) && L.At(workers[t].pc) >= L.At(L.AtBarrier)
      modifies this
      ensures View() == L.RunWorker(old(View()), t, 0)
    {
      match workers[t].pc {
        case AtBarrier => Goto(t, L.Record);
        case Record => barrierReturn := barrierReturn[t := t == serial]; Goto(t, L.SetBarrier);
        case SetBarrier => barrierDone := barrierDone[t := true]; Goto(t, L.Post2);
        case Post2 => mainSem := mainSem + 1; Goto(t, L.Exit);
      }
    }

    method WorkerStep(t: nat, pick: nat)
      requires L.Enabled(View(), L.Run(t, pick))
      modifies this
      ensures View() == L.RunWorker(old(View()), t, pick)
    {
      if L.At(workers[t].pc) <= L.At(L.Unlock) {
        Report(t);
      } else if workers[t].pc == L.Check {
        CheckEarlyExit(t, pick);
      } else {
        LeaveBarrier(t);
      }
    }

    /** One step of main, in `bounce_test_done`, the broadcast, `barrier_test_done` or a semaphore wait. */
    method MainStep()
      requires L.Enabled(View(), L.Main)
      modifies this
      ensures View() == L.RunMain(old(View()))
    {
      match main {
        case Test1 => main, i := L.Scan1, 0;
        case Scan1 =>
          if i >= |workers| { main := L.MLock; }
          else if bounceDone[i] { i := i + 1; }
          else { main := L.Sem1; }
        case Sem1 => main, mainSem := L.Test1, mainSem - 1;
        case MLock => main, owner := L.Broadcast, L.Held(|workers|);
        case Broadcast => main, workers := L.MUnlock, L.WakeAll(workers);
        case MUnlock => main, owner := L.Test2, L.Free;
        case Test2 =>
          if barrierFailed { main := L.Join; } else { main, i := L.Scan2, 0; }
        case Scan2 =>
          if i >= |workers| { main := L.Join; }
          else if barrierDone[i] { i := i + 1; }
          else { main := L.Sem2; }
        case Sem2 => main, mainSem := L.Test2, mainSem - 1;
        case Join => main := L.Ended;
      }
    }

    method StepOnce(e: L.Event)
      modifies this
      ensures View() == L.Step(old(View()), e)
    {
      if L.Enabled(View(), e) {
        match e {
          case Run(t, pick) =>
            WorkerStep(t, pick);
          case Main => MainStep();
          case Spurious(t) =>
            Goto(t, L.Woken);
            spurious := spurious + 1;
        }
      }
    }

    /** Runs main and the workers under a schedule: nobody fails the barrier check, and if nobody can go on main has
        ended and found exactly one serial thread. */
    method Run(schedule: seq<L.Event>)
      requires |workers| > 0 && View() == L.Start(|workers|)
      modifies this
      ensures |workers| == old(|workers|)
      ensures View() == Exec(L.Step, L.Start(|workers|), schedule)
      ensures !barrierFailed
      ensures L.Stuck(View()) ==> main == L.Ended && L.Serials(barrierReturn) == 1
    {
      ghost var start, n := View(), |workers|;
      for k := 0 to |schedule|
        invariant View() == Exec(L.Step, start, schedule[..k])
      {
        assert schedule[..k + 1][..k] == schedule[..k];
        StepOnce(schedule[k]);
      }
      assert schedule[..|schedule|] == schedule;
      L.BroadcastReachesAll(n, schedule);
      L.StuckRunsHaveEnded(n, schedule);
    }
  }

  /** The whole test: both parts share the mutex, and a thread begins the second when it is through with the first. */
  class ExecutionTest {
    const bounce: BounceTest
    const rest: BarrierTest

    ghost function View(): Whole.State
      reads this, bounce, rest
    {
      Whole.State(bounce.View(), rest.View())
    }

    constructor (n: nat, bounces: nat, spins: nat)
      ensures fresh(bounce) && fresh(rest) && View() == Whole.Start(n, bounces, spins)
    {
      bounce := new BounceTest(n, bounces, spins);
      rest := new BarrierTest(n);
    }

    /** One step of the bounce rounds, unless it needs the mutex and the other part has it. */
    method BounceOnce(b: B.Event)
      modifies bounce
      ensures View() == Whole.Step(old(View()), Whole.Bounce(b))
    {
      var locks := b.Run? && b.tid < |bounce.threads| && B.Acquires(bounce.threads[b.tid].pc);
      if !locks || (bounce.owner == B.Free && rest.owner == L.Free) {
        bounce.StepOnce(b);
      }
    }

    /** One step after the bounce rounds, unless it needs the mutex and the other part has it, or the thread is not
        through with its rounds. */
    method RestOnce(l: L.Event)
      modifies rest
      ensures View() == Whole.Step(old(View()), Whole.Rest(l))
    {
      var locks, through := false, true;
      match l {
        case Run(t, _) =>
          if t < |rest.workers| {
            locks := rest.workers[t].pc in {L.Lock, L.Woken};
            through := rest.workers[t].pc != L.Bouncing
                       || (t < |bounce.threads| && bounce.threads[t].pc == B.Finished);
          }
        case Main => locks := rest.main == L.MLock;
        case Spurious(_) =>
      }
      if through && (!locks || (bounce.owner == B.Free && rest.owner == L.Free)) {
        rest.StepOnce(l);
      }
    }

    method StepOnce(e: Whole.Event)
      modifies bounce, rest
      ensures View() == Whole.Step(old(View()), e)
    {
      match e {
        case Bounce(b) => BounceOnce(b);
        case Rest(l) => RestOnce(l);
      }
    }

    /** Runs the whole test under a schedule: no check fails, and where nobody can go on it has ended with one serial
        thread exactly when every thread is through its rounds. */
    method Run(schedule: seq<Whole.Event>, ghost n: nat, ghost bounces: nat, ghost spins: nat)
      requires n > 0 && bounces > 0 && View() == Whole.Start(n, bounces, spins)
      modifies bounce, rest
      ensures View() == Exec(Whole.Step, Whole.Start(n, bounces, spins), schedule)
      ensures !bounce.bounceFailed && !rest.barrierFailed
      ensures Whole.Stuck(View()) ==>
                && (rest.main == L.Ended <==> Turn.AllFinished(bounce.View()))
                && (rest.main == L.Ended ==> L.Serials(rest.barrierReturn) == 1)
    {
      ghost var start := View();
      for k := 0 to |schedule|
        invariant View() == Exec(Whole.Step, start, schedule[..k])
      {
        assert schedule[..k + 1][..k] == schedule[..k];
        StepOnce(schedule[k]);
      }
      assert schedule[..|schedule|] == schedule;
      Whole.EveryRunIsSafe(n, bounces, spins, schedule);
      Whole.StuckRunsEndIffNotHarmed(n, bounces, spins, schedule);
    }
  }
}
