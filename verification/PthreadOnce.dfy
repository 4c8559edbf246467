/**
 `test_2_parallel` (tests/pthread/src/pthread_once.c): main launches K threads one by one, each reading its index through
 a pointer to main's loop variable, lets them all go, and they race to run an initialisation once.
 */
module PthreadOnce {
  import opened Runs

  datatype Owner = Free | Held(tid: nat)

  /** The once control; late callers wait while the function runs. */
  datatype Once = Init | Running | Complete | Bad

  datatype Pc = Absent | ReadArg | Lock | Signal | Wait | Waiting | Woken | Unlock | Enter | InitGet | InitInc | Finish
              | Blocked | Check | Exit

  /** `id` is what the thread read through its argument, `got` what it reads after `pthread_once`. */
  datatype Thread = Thread(pc: Pc, id: nat, got: nat)

  datatype MainPc = MLock | MCreate | MWait | MWaiting | MWoken | MSignal | MUnlock | MJoin | MEnded

  /** `i` is the loop variable the threads read, `j` that of the loop that signals.  `runner` is the thread that runs
      the init function, `failed` says that a check after `pthread_once` failed; `spurious` and `mainSpurious`
      count the spurious wakeups of the threads and of main. */
  datatype State = State(owner: Owner, threads: seq<Thread>, main: MainPc, i: nat, j: nat, control: Once, value: nat,
                         runner: nat, failed: bool, spurious: nat, mainSpurious: nat)

  /** A thread steps; main steps, a signal waking thread `pick`; a thread or main wakes up spuriously. */
  datatype Event = Run(tid: nat) | Main(pick: nat) | Spurious(tid: nat) | SpuriousMain

  /** Thread `t` waits on `cv_run[id]`. */
  predicate WaitsOn(s: State, t: nat, id: nat) {
    t < |s.threads| && s.threads[t].pc == Waiting && s.threads[t].id == id
  }

  predicate MainEnabled(s: State, pick: nat) {
    match s.main
    case MLock => s.owner == Free
    case MWoken => s.owner == Free
    case MWaiting => false
    case MSignal => (exists t :: 0 <= t < |s.threads| && WaitsOn(s, t, s.j)) ==> WaitsOn(s, pick, s.j)
    case MJoin => forall t :: 0 <= t < |s.threads| ==> s.threads[t].pc == Exit
    case MEnded => false
    case _ => true
  }

  predicate ThreadEnabled(s: State, t: nat)
    requires t < |s.threads|
  {
    match s.threads[t].pc
    case Absent => false
    case Lock => s.owner == Free
    case Waiting => false
    case Woken => s.owner == Free
    case Blocked => s.control == Complete
    case Exit => false
    case _ => true
  }

  predicate Enabled(s: State, e: Event) {
    match e
    case Run(t) => t < |s.threads| && ThreadEnabled(s, t)
    case Main(pick) => MainEnabled(s, pick)
    case Spurious(t) => t < |s.threads| && s.threads[t].pc == Waiting
    case SpuriousMain => s.main == MWaiting
  }

  /** What a step does to the locals of a thread. */
  function Advance(l: Thread, i: nat, control: Once, value: nat): Thread {
    match l.pc
    case ReadArg => l.(pc := Lock, id := i)
    case Lock => l.(pc := Signal)
    case Signal => l.(pc := Wait)
    case Wait => l.(pc := Waiting)
    case Woken => l.(pc := Unlock)
    case Unlock => l.(pc := Enter)
    case Enter => l.(pc := if control == Init then InitGet else if control == Running then Blocked
                           else if control == Complete then Check else Exit)
    case InitGet => l.(pc := InitInc)
    case InitInc => l.(pc := Finish)
    case Finish => l.(pc := Check)
    case Blocked => l.(pc := Check)
    case Check => l.(pc := Exit, got := value)
    case Absent => l
    case Waiting => l
    case Exit => l
  }

  function RunThread(s: State, t: nat): State
    requires t < |s.threads| && ThreadEnabled(s, t)
  {
    var l := s.threads[t];
    s.(threads := s.threads[t := Advance(l, s.i, s.control, s.value)],
       owner := if l.pc in {Lock, Woken} then Held(t) else if l.pc in {Wait, Unlock} then Free else s.owner,
       main := if l.pc == Signal && s.main == MWaiting then MWoken else s.main,
       control := if l.pc == Enter && s.control == Init then Running
                  else if l.pc == Finish then Complete
                  else s.control,
       runner := if l.pc == Enter && s.control == Init then t else s.runner,
       value := if l.pc == InitInc then s.value + 1 else s.value,
       failed := s.failed || (l.pc == Check && s.value != 1) || (l.pc == Enter && s.control == Bad))
  }

  function RunMain(s: State, pick: nat): State
    requires MainEnabled(s, pick)
  {
    var K := |s.threads|;
    match s.main
    case MLock => s.(owner := Held(K), main := MCreate, i := 0)
    case MCreate =>
      if s.i < K then s.(threads := s.threads[s.i := Thread(ReadArg, 0, 0)], main := MWait)
      else s.(main := MSignal, j := 0)
    case MWait => s.(owner := Free, main := MWaiting)
    case MWoken => s.(owner := Held(K), main := MCreate, i := s.i + 1)
    case MSignal =>
      if s.j >= K then s.(main := MUnlock)
      else s.(j := s.j + 1,
              threads := if WaitsOn(s, pick, s.j) then s.threads[pick := s.threads[pick].(pc := Woken)] else s.threads)
    case MUnlock => s.(owner := Free, main := MJoin)
    case MJoin => s.(main := MEnded, failed := s.failed || s.value != 1)
    case MWaiting => s
    case MEnded => s
  }

  function Step(s: State, e: Event): State {
    if !Enabled(s, e) then s
    else
      match e
      case Run(t) => RunThread(s, t)
      case Main(pick) => RunMain(s, pick)
      case Spurious(t) => s.(threads := s.threads[t := s.threads[t].(pc := Woken)], spurious := s.spurious + 1)
      case SpuriousMain => s.(main := MWoken, mainSpurious := s.mainSpurious + 1)
  }

  function Start(K: nat, control: Once): State {
    State(Free, seq(K, _ => Thread(Absent, 0, 0)), MLock, 0, 0, control, 0, 0, false, 0, 0)
  }

  // ----- The init function runs once -----

  predicate InInit(pc: Pc) {
    pc in {InitGet, InitInc, Finish}
  }

  /** Nothing but the control decides where a thread can be. */
  predicate OnceFits(s: State, t: nat)
    requires t < |s.threads|
  {
    var l := s.threads[t];
    && (InInit(l.pc) <==> s.control == Running && t == s.runner)
    && (l.pc == Blocked ==> s.control in {Running, Complete})
    && (l.pc in {Check, Exit} && s.control != Bad ==> s.control == Complete)
    && (s.control == Bad ==> l.pc !in {Blocked, Check})
    && (l.pc == Exit && s.control != Bad ==> l.got == 1)
  }

  ghost predicate OnceInv(s: State) {
    && (forall t :: 0 <= t < |s.threads| ==> OnceFits(s, t))
    && (s.control == Running ==> s.runner < |s.threads|) && (s.control == Complete ==> |s.threads| > 0)
    && s.value == (match s.control case Complete => 1 case Running => (if s.threads[s.runner].pc == Finish then 1 else 0)
                                   case _ => 0)
    && (s.control != Bad ==> (s.failed <==> |s.threads| == 0 && s.main == MEnded))
  }

  lemma ThreadOnce(s: State, t: nat)
    requires OnceInv(s) && t < |s.threads| && ThreadEnabled(s, t)
    ensures OnceInv(RunThread(s, t))
  {
    var r := RunThread(s, t);
    assert OnceFits(s, t);
    forall u | 0 <= u < |s.threads| ensures OnceFits(r, u) {
      assert OnceFits(s, u);
    }
  }

  lemma MainOnce(s: State, pick: nat)
    requires OnceInv(s) && MainEnabled(s, pick)
    requires s.main == MCreate && s.i < |s.threads| ==> s.threads[s.i].pc == Absent
    ensures OnceInv(RunMain(s, pick))
  {
    var r := RunMain(s, pick);
    forall u | 0 <= u < |s.threads| ensures OnceFits(r, u) {
      assert OnceFits(s, u);
    }
    if s.main == MJoin && |s.threads| > 0 {
      assert OnceFits(s, 0);
    }
  }

  /** Main creates the threads in order. */
  predicate Created(s: State) {
    && s.i <= |s.threads| && (s.main == MLock ==> s.i == 0)
    && (s.main in {MWait, MWaiting, MWoken} ==> s.i < |s.threads|)
    && forall t :: 0 <= t < |s.threads| ==>
         (s.threads[t].pc == Absent <==> s.main in {MLock, MCreate, MWait, MWaiting, MWoken}
                                         && (t > s.i || (t == s.i && s.main in {MLock, MCreate})))
  }

  lemma StepCreated(s: State, e: Event)
    requires Created(s)
    ensures Created(Step(s, e)) && |Step(s, e).threads| == |s.threads|
  {
  }

  lemma StepOnce(s: State, e: Event)
    requires OnceInv(s) && Created(s)
    ensures OnceInv(Step(s, e)) && (Step(s, e).control == Bad <==> s.control == Bad)
  {
    if Enabled(s, e) {
      match e {
        case Run(t) => ThreadOnce(s, t);
        case Main(pick) => MainOnce(s, pick);
        case Spurious(t) =>
          forall u | 0 <= u < |s.threads| ensures OnceFits(Step(s, e), u) {
            assert OnceFits(s, u);
          }
        case SpuriousMain =>
          forall u | 0 <= u < |s.threads| ensures OnceFits(Step(s, e), u) {
            assert OnceFits(s, u);
          }
      }
    }
  }

  lemma {:induction false} RunOnce(K: nat, control: Once, es: seq<Event>)
    requires control in {Init, Bad}
    ensures var s := Exec(Step, Start(K, control), es);
            OnceInv(s) && Created(s) && |s.threads| == K && (s.control == Bad <==> control == Bad)
  {
    var inv := (s: State) => OnceInv(s) && Created(s) && |s.threads| == K && (s.control == Bad <==> control == Bad);
    forall s, e | inv(s) ensures inv(Step(s, e)) {
      StepCreated(s, e);
      StepOnce(s, e);
    }
    Invariance(Step, inv, Start(K, control), es);
  }

  /** In every run, with whatever spurious wakeups, at most one thread runs the init function, it increments at most
      once, and every caller of `pthread_once` returns after that and reads 1.  The last check of main fails exactly
      when there are no threads. */
  lemma {:induction false} EveryCallerReadsOne(K: nat, es: seq<Event>)
    ensures var s := Exec(Step, Start(K, Init), es);
            && |s.threads| == K && s.value <= 1
            && (forall t, u :: 0 <= t < K && 0 <= u < K && InInit(s.threads[t].pc) && InInit(s.threads[u].pc) ==> t == u)
            && (forall t :: 0 <= t < K && s.threads[t].pc in {Check, Exit} ==> s.control == Complete && s.value == 1)
            && (forall t :: 0 <= t < K && s.threads[t].pc == Exit ==> s.threads[t].got == 1)
            && (s.failed <==> K == 0 && s.main == MEnded)
  {
    RunOnce(K, Init, es);
    var s := Exec(Step, Start(K, Init), es);
    forall t | 0 <= t < K
      ensures InInit(s.threads[t].pc) ==> t == s.runner
      ensures s.threads[t].pc in {Check, Exit} ==> s.control == Complete && s.value == 1
      ensures s.threads[t].pc == Exit ==> s.threads[t].got == 1
    {
      assert OnceFits(s, t);
    }
  }

  /** A control that is neither of the values of a fresh or used one is refused: the init function never runs. */
  lemma {:induction false} BadControlNeverRuns(K: nat, es: seq<Event>)
    ensures var s := Exec(Step, Start(K, Bad), es);
            |s.threads| == K && s.value == 0 && forall t :: 0 <= t < K ==> !InInit(s.threads[t].pc)
  {
    RunOnce(K, Bad, es);
    var s := Exec(Step, Start(K, Bad), es);
    forall t | 0 <= t < K ensures !InInit(s.threads[t].pc) {
      assert OnceFits(s, t);
    }
  }

  /** A check that fails: a caller of `pthread_once`, or main after the joins, reads anything but 1, or a caller is
      refused. */
  predicate Mismatch(s: State, e: Event) {
    && Enabled(s, e)
    && match e
       case Run(t) => (s.threads[t].pc == Check && s.value != 1) || (s.threads[t].pc == Enter && s.control == Bad)
       case Main(pick) => s.main == MJoin && s.value != 1
       case _ => false
  }

  lemma StepFails(s: State, e: Event)
    ensures Step(s, e).failed <==> s.failed || Mismatch(s, e)
  {
  }

  /** The checks have failed exactly when one of them met a value other than 1, or a caller was refused. */
  lemma {:induction false} FailedIffMismatch(K: nat, control: Once, es: seq<Event>)
    ensures Exec(Step, Start(K, control), es).failed <==> StepsWhere(Step, Mismatch, Start(K, control), es) > 0
  {
    forall s, e ensures Step(s, e).failed <==> s.failed || Mismatch(s, e) {
      StepFails(s, e);
    }
    FlagIffRaised(Step, (s: State) => s.failed, Mismatch, Start(K, control), es);
  }
}
