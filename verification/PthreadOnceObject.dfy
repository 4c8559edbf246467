/**
 The tests of tests/pthread/src/pthread_once.c as objects changed in place.
 */
module PthreadOnceObject {
  import opened Runs
  import P = PthreadOnce
  import Launch = PthreadOnceStart

  const EINVAL := 22

  /** `once_value` and a once control, used by one thread alone. */
  class Single {
    var onceValue: nat
    var control: P.Once

    constructor (control: P.Once)
      ensures onceValue == 0 && this.control == control
    {
      onceValue, this.control := 0, control;
    }

    /** `pthread_once(&control, &InitFunc)` */
    method CallOnce() returns (status: int)
      requires control != P.Running
      modifies this
      ensures old(control) == P.Bad ==> status == EINVAL && onceValue == old(onceValue) && control == P.Bad
      ensures old(control) != P.Bad ==> status == 0 && control == P.Complete
      ensures old(control) == P.Init ==> onceValue == old(onceValue) + 1
      ensures old(control) == P.Complete ==> onceValue == old(onceValue)
    {
      match control {
        case Bad => status := EINVAL;
        case Init =>
          control := P.Running;
          onceValue := onceValue + 1;
          control := P.Complete;
          status := 0;
        case Complete => status := 0;
      }
    }

    /** `test_0_single` and more: however often it is called, the init function runs once; and `test_1_badvalue`. */
    method CallMany(calls: nat) returns (statuses: seq<int>)
      requires onceValue == 0 && control in {P.Init, P.Bad}
      modifies this
      ensures |statuses| == calls
      ensures forall k :: 0 <= k < calls ==> statuses[k] == (if old(control) == P.Bad then EINVAL else 0)
      ensures onceValue == if calls == 0 || old(control) == P.Bad then 0 else 1
    {
      statuses := [];
      for k := 0 to calls
        invariant |statuses| == k
        invariant forall n :: 0 <= n < k ==> statuses[n] == (if old(control) == P.Bad then EINVAL else 0)
        invariant control == if k == 0 || old(control) == P.Bad then old(control) else P.Complete
        invariant onceValue == if k == 0 || old(control) == P.Bad then 0 else 1
      {
        var status := CallOnce();
        statuses := statuses + [status];
      }
    }
  }

  /** The shared variables of `test_2_parallel`, and the locals of main and the threads. */
  class ParallelTest {
    var owner: P.Owner
    var threads: seq<P.Thread>
    var main: P.MainPc
    var i: nat
    var j: nat
    var onceControl: P.Once
    var onceValue: nat
    var runner: nat
    var failed: bool
    var spurious: nat
    var mainSpurious: nat

    function View(): P.State
      reads this
    {
      P.State(owner, threads, main, i, j, onceControl, onceValue, runner, failed, spurious, mainSpurious)
    }

    constructor (n: nat)
      ensures View() == P.Start(n, P.Init)
    {
      owner, threads, main, i, j := P.Free, seq(n, _ => P.Thread(P.Absent, 0, 0)), P.MLock, 0, 0;
      onceControl, onceValue, runner, failed, spurious, mainSpurious := P.Init, 0, 0, false, 0, 0;
    }

    method Goto(t: nat, pc: P.Pc)
      requires t < |threads|
      modifies this`threads
      ensures threads == old(threads)[t := old(threads)[t].(pc := pc)]
    {
      threads := threads[t := threads[t].(pc := pc)];
    }

    /** One step of `AThread` up to its start. */
    method StartUp(t: nat)
      requires P.Enabled(View(), P.Run(t))
      requires threads[t].pc in {P.ReadArg, P.Lock, P.Signal, P.Wait, P.Woken, P.Unlock}
      modifies this
      ensures View() == P.RunThread(old(View()), t)
    {
      match threads[t].pc {
        case ReadArg => threads := threads[t := threads[t].(id := i, pc := P.Lock)];
        case Lock => owner := P.Held(t); Goto(t, P.Signal);
        case Signal =>
          if main == P.MWaiting { main := P.MWoken; }
          Goto(t, P.Wait);
        case Wait => owner := P.Free; Goto(t, P.Waiting);
        case Woken => owner := P.Held(t); Goto(t, P.Unlock);
        case Unlock => owner := P.Free; Goto(t, P.Enter);
      }
    }

    /** One step of `InitFunc`, and of leaving `pthread_once` after it. */
    method InitFunc(t: nat)
      requires P.Enabled(View(), P.Run(t)) && P.InInit(threads[t].pc)
      modifies this
      ensures View() == P.RunThread(old(View()), t)
    {
      match threads[t].pc {
        case InitGet => Goto(t, P.InitInc);
        case InitInc => onceValue := onceValue + 1; Goto(t, P.Finish);
        case Finish => onceControl := P.Complete; Goto(t, P.Check);
      }
    }

    /** One step of the rest of `AThread`. */
    method CallOnce(t: nat)
      requires P.Enabled(View(), P.Run(t)) && threads[t].pc in {P.Enter, P.Blocked, P.Check}
      modifies this
      ensures View() == P.RunThread(old(View()), t)
    {
      match threads[t].pc {
        case Enter =>
          match onceControl {
            case Init => onceControl, runner := P.Running, t; Goto(t, P.InitGet);
            case Running => Goto(t, P.Blocked);
            case Complete => Goto(t, P.Check);
            case Bad => failed := true; Goto(t, P.Exit);
          }
        case Blocked => Goto(t, P.Check);
        case Check =>
          failed := failed || onceValue != 1;
          threads := threads[t := threads[t].(got := onceValue, pc := P.Exit)];
      }
    }

    /** One step of `test_2_parallel` itself; a signal wakes thread `pick`. */
    method MainStep(pick: nat)
      requires P.Enabled(View(), P.Main(pick))
      modifies this
      ensures View() == P.RunMain(old(View()), pick)
    {
      match main {
        case MLock => owner, main, i := P.Held(|threads|), P.MCreate, 0;
        case MCreate =>
          if i < |threads| {
            threads, main := threads[i := P.Thread(P.ReadArg, 0, 0)], P.MWait;
          } else {
            main, j := P.MSignal, 0;
          }
        case MWait => owner, main := P.Free, P.MWaiting;
        case MWoken => owner, main, i := P.Held(|threads|), P.MCreate, i + 1;
        case MSignal =>
          if j >= |threads| {
            main := P.MUnlock;
          } else {
            if P.WaitsOn(View(), pick, j) { Goto(pick, P.Woken); }
            j := j + 1;
          }
        case MUnlock => owner, main := P.Free, P.MJoin;
        case MJoin => main, failed := P.MEnded, failed || onceValue != 1;
      }
    }

    method StepOnce(e: P.Event)
      modifies this
      ensures View() == P.Step(old(View()), e)
    {
      if P.Enabled(View(), e) {
        match e {
          case Main(pick) => MainStep(pick);
          case Spurious(t) => Goto(t, P.Woken); spurious := spurious + 1;
          case SpuriousMain => main, mainSpurious := P.MWoken, mainSpurious + 1;
          case Run(t) =>
            if P.InInit(threads[t].pc) {
              InitFunc(t);
            } else if threads[t].pc in {P.Enter, P.Blocked, P.Check} {
              CallOnce(t);
            } else {
              StartUp(t);
            }
        }
      }
    }

    /** Runs the test under a schedule. */
    method Run(schedule: seq<P.Event>)
      requires |threads| > 0 && View() == P.Start(|threads|, P.Init)
      modifies this
      ensures |threads| == old(|threads|)
      ensures View() == Exec(P.Step, P.Start(|threads|, P.Init), schedule)
      ensures !failed && onceValue <= 1
      ensures forall t :: 0 <= t < |threads| && threads[t].pc == P.Exit ==> threads[t].got == 1
      ensures mainSpurious == 0 ==> Launch.ReadsOwn(View()) && (Launch.Stuck(View()) ==> main == P.MEnded)
    {
      ghost var start, n := View(), |threads|;
      for k := 0 to |schedule|
        invariant View() == Exec(P.Step, start, schedule[..k])
      {
        assert schedule[..k + 1][..k] == schedule[..k];
        StepOnce(schedule[k]);
      }
      assert schedule[..|schedule|] == schedule;
      P.EveryCallerReadsOne(n, schedule);
      Launch.NoStartSignalIsLost(n, P.Init, schedule);
      Launch.StuckRunsHaveEnded(n, schedule);
    }
  }
}
