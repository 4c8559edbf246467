/**
 The handshake of samples/cpp_exceptions/src/main.cpp and tests/cpp/concurrency/src/cpp_exceptions.cpp: main and a second
 thread count one state up in turns, under a mutex with one condition variable, from within their exception handlers.
 */
module StateHandshake {
  import opened Runs

  datatype Owner = Free | Held(tid: nat)

  datatype Pc = Absent | Throw | DropPtr | Unwind | Catch | Capture | Check | Lock | Set | Signal | Test | Waiting | Woken
              | Unlock | Recheck | Create | Rethrow | Join | Final | Leave | Exit

  /** Main's phases: 0 sets the first state and creates the other thread, 1 waits for it, and in phase p >= 2 main handles
      its exception number p.  The other thread is in phase k in its k-th nested handler. */
  datatype Local = Local(pc: Pc, phase: nat)

  /** Thread 0 is main.  R is the number of handshakes each way (2 in the source); with `viaPtr` the other thread
      rethrows through an exception pointer.  `history` lists the values assigned to `state`. */
  datatype Control = Control(R: nat, viaPtr: bool, owner: Owner, threads: seq<Local>, state: nat, history: seq<nat>,
                             spurious: nat)

  datatype Event = Run(tid: nat) | Spurious(tid: nat)

  /** `SetStateSignalAndWait(next, waitingFor)`; phase 1 of main is `WaitState(waitingFor)`. */
  function NextState(t: nat, phase: nat): nat {
    if t == 0 then (if phase == 0 then 0 else 2 * (phase - 1)) else 2 * phase + 1
  }

  function WaitingFor(R: nat, t: nat, phase: nat): nat {
    if t == 0 then (if phase == 0 then 0 else if phase <= R then 2 * phase - 1 else 2 * R) else 2 * phase + 2
  }

  predicate Enabled(c: Control, e: Event) {
    && |c.threads| == 2 && e.tid < 2
    && match e
       case Spurious(t) => c.threads[t].pc == Waiting
       case Run(t) =>
         match c.threads[t].pc {
           case Absent => false
           case Waiting => false
           case Exit => false
           case Lock => c.owner == Free
           case Woken => c.owner == Free
           case Join => c.threads[1].pc == Exit
           case _ => true
         }
  }

  /** Where a thread goes on after its wait. */
  function AfterWait(t: nat, phase: nat): Pc {
    if t == 0 && phase == 0 then Create else if t == 0 && phase == 1 then Throw else Recheck
  }

  function AfterRecheck(R: nat, t: nat, phase: nat): Pc {
    if t == 0 then (if phase <= R then Throw else Join) else if phase + 1 < R then Rethrow else Leave
  }

  function Advance(R: nat, viaPtr: bool, t: nat, l: Local, state: nat): Local {
    match l.pc
    case Throw => if t == 1 then l.(pc := Catch)
                  else Local(if l.phase == 1 then Catch else Unwind, l.phase + 1)
    case Rethrow => Local(if viaPtr then DropPtr else Unwind, l.phase + 1)
    case DropPtr => l.(pc := Unwind)
    case Unwind => l.(pc := Catch)
    case Catch => l.(pc := if viaPtr && t == 1 && l.phase + 1 < R then Capture else Check)
    case Capture => l.(pc := Check)
    case Check => l.(pc := Lock)
    case Lock => l.(pc := if t == 0 && l.phase == 1 then Test else Set)
    case Set => l.(pc := Signal)
    case Signal => l.(pc := Test)
    case Test => l.(pc := if state == WaitingFor(R, t, l.phase) then Unlock else Waiting)
    case Woken => l.(pc := Test)
    case Unlock => l.(pc := AfterWait(t, l.phase))
    case Create => Local(Lock, 1)
    case Recheck => l.(pc := AfterRecheck(R, t, l.phase))
    case Join => l.(pc := Final)
    case Final => l.(pc := Leave)
    case Leave => l.(pc := Exit)
    case Absent => l
    case Waiting => l
    case Exit => l
  }

  /** A step of thread `t`, its effect on the other thread apart. */
  function Share(c: Control, t: nat): Control
    requires |c.threads| == 2 && t < 2
  {
    var l := c.threads[t];
    c.(threads := c.threads[t := Advance(c.R, c.viaPtr, t, l, c.state)],
       owner := if l.pc in {Lock, Woken} then Held(t)
                else if l.pc == Unlock || (l.pc == Test && c.state != WaitingFor(c.R, t, l.phase)) then Free
                else c.owner,
       state := if l.pc == Set then NextState(t, l.phase) else c.state,
       history := if l.pc == Set then c.history + [NextState(t, l.phase)] else c.history)
  }

  function Move(c: Control, u: nat, pc: Pc): Control
    requires u < |c.threads|
  {
    c.(threads := c.threads[u := c.threads[u].(pc := pc)])
  }

  function Apply(c: Control, e: Event): Control
    requires Enabled(c, e)
  {
    match e
    case Spurious(t) => Move(c, t, Woken).(spurious := c.spurious + 1)
    case Run(t) =>
      var r, u := Share(c, t), 1 - t;
      if c.threads[t].pc == Signal && c.threads[u].pc == Waiting then Move(r, u, Woken)
      else if c.threads[t].pc == Create then Move(r, 1, Throw)
      else r
  }

  function Step(c: Control, e: Event): Control {
    if Enabled(c, e) then Apply(c, e) else c
  }

  function Start(R: nat, viaPtr: bool): Control {
    Control(R, viaPtr, Free, [Local(Lock, 0), Local(Absent, 0)], 0, [], 0)
  }

  // ----- Taking turns -----

  function One(b: bool): nat {
    if b then 1 else 0
  }

  /** The states main and the other thread have set. */
  function SetByMain(l: Local): int {
    if l.phase == 0 then One(l.pc !in {Lock, Set})
    else if l.phase == 1 then 1
    else l.phase - 1 + One(l.pc !in {Unwind, Catch, Check, Lock, Set})
  }

  function SetByOther(l: Local): int {
    l.phase + One(l.pc !in {Absent, Throw, DropPtr, Unwind, Catch, Capture, Check, Lock, Set})
  }

  /** Main may set the next state, or is about to see that it may. */
  predicate MainTurn(R: nat, l: Local) {
    || (l.phase >= 2 && l.pc in {Unwind, Catch, Check, Lock, Set})
    || (1 <= l.phase <= R && l.pc in {Unlock, Recheck, Throw})
  }

  predicate OtherTurn(l: Local) {
    l.pc !in {Absent, Signal, Test, Waiting, Woken}
  }

  predicate InWait(pc: Pc) {
    pc in {Lock, Test, Waiting, Woken, Unlock}
  }

  predicate MainFits(R: nat, l: Local) {
    && l.phase <= R + 1
    && (l.phase == 0 ==> InWait(l.pc) || l.pc in {Set, Signal, Create})
    && (l.phase == 1 ==> InWait(l.pc) || l.pc == Throw)
    && (l.phase >= 2 ==> l.pc !in {Absent, Create, Rethrow, Capture, DropPtr})
    && (l.pc in {Join, Final, Leave, Exit} ==> l.phase == R + 1)
    && (l.pc == Throw ==> l.phase <= R)
  }

  predicate OtherFits(R: nat, l: Local) {
    && l.phase < R
    && (l.pc in {Absent, Throw} ==> l.phase == 0)
    && (l.pc in {Capture, Rethrow} ==> l.phase + 1 < R)
    && (l.pc in {Leave, Exit} ==> l.phase + 1 == R)
    && l.pc !in {Create, Join, Final}
  }

  /** One of the two is one state ahead, or they are level. */
  predicate Turns(R: nat, x: Local, y: Local, state: nat) {
    var a, b := SetByMain(x), SetByOther(y);
    && MainFits(R, x) && OtherFits(R, y)
    && (x.phase == 0 <==> y.pc == Absent)
    && b <= a <= b + 1
    && (MainTurn(R, x) ==> a == b) && (OtherTurn(y) ==> a == b + 1)
    && state == (if a == 0 then 0 else a + b - 1)
  }

  lemma MainTurns(R: nat, viaPtr: bool, x: Local, y: Local, state: nat)
    requires R > 0 && Turns(R, x, y, state) && x.pc !in {Create, Waiting}
    ensures var r := Advance(R, viaPtr, 0, x, state);
            && Turns(R, r, y, if x.pc == Set then NextState(0, x.phase) else state)
            && SetByMain(r) == SetByMain(x) + One(x.pc == Set)
            && (x.pc == Set ==> NextState(0, x.phase) == SetByMain(x) + SetByOther(y))
  {
  }

  lemma OtherTurns(R: nat, viaPtr: bool, x: Local, y: Local, state: nat)
    requires R > 0 && Turns(R, x, y, state) && y.pc != Waiting
    ensures var r := Advance(R, viaPtr, 1, y, state);
            && Turns(R, x, r, if y.pc == Set then NextState(1, y.phase) else state)
            && SetByOther(r) == SetByOther(y) + One(y.pc == Set)
            && (y.pc == Set ==> NextState(1, y.phase) == SetByMain(x) + SetByOther(y))
  {
  }

  // ----- Every step -----

  predicate Holds(pc: Pc) {
    pc in {Set, Signal, Test, Unlock}
  }

  ghost predicate Exclusive(c: Control) {
    && |c.threads| == 2
    && (forall t :: 0 <= t < 2 ==> (Holds(c.threads[t].pc) <==> c.owner == Held(t)))
    && (c.owner.Held? ==> c.owner.tid < 2)
  }

  /** A thread waits only for a state that has not come, or of which it is just being told. */
  predicate Told(c: Control, t: nat)
    requires |c.threads| == 2 && t < 2
  {
    c.threads[t].pc == Waiting && c.state == WaitingFor(c.R, t, c.threads[t].phase) ==> c.threads[1 - t].pc == Signal
  }

  predicate JustSet(c: Control, t: nat)
    requires |c.threads| == 2 && t < 2
  {
    c.threads[t].pc == Signal ==> c.state == NextState(t, c.threads[t].phase)
  }

  /** The states 0, 1, 2, ... have been set in this order. */
  predicate LevelWith(R: nat, x: Local, y: Local, state: nat, history: seq<nat>) {
    && Turns(R, x, y, state)
    && |history| == SetByMain(x) + SetByOther(y)
    && (forall k :: 0 <= k < |history| ==> history[k] == k)
  }

  ghost predicate Inv(c: Control) {
    && c.R > 0 && Exclusive(c)
    && LevelWith(c.R, c.threads[0], c.threads[1], c.state, c.history)
    && Told(c, 0) && Told(c, 1)
    && JustSet(c, 0) && JustSet(c, 1)
  }

  lemma ShareExclusive(c: Control, t: nat)
    requires Exclusive(c) && Enabled(c, Run(t))
    ensures Exclusive(Share(c, t)) && Share(c, t).threads[1 - t] == c.threads[1 - t]
  {
    assert Holds(c.threads[t].pc) <==> c.owner == Held(t);
  }

  lemma MoveExclusive(c: Control, u: nat, pc: Pc)
    requires Exclusive(c) && u < 2 && !Holds(c.threads[u].pc) && !Holds(pc)
    ensures Exclusive(Move(c, u, pc))
  {
  }

  lemma RunExclusive(c: Control, t: nat)
    requires Exclusive(c) && Enabled(c, Run(t)) && (c.threads[t].pc == Create ==> t == 0 && c.threads[1].pc == Absent)
    ensures Exclusive(Apply(c, Run(t)))
  {
    ShareExclusive(c, t);
    if c.threads[t].pc == Signal && c.threads[1 - t].pc == Waiting {
      MoveExclusive(Share(c, t), 1 - t, Woken);
    } else if c.threads[t].pc == Create {
      MoveExclusive(Share(c, t), 1, Throw);
    }
  }

  lemma WakingTurns(R: nat, x: Local, y: Local, state: nat)
    requires Turns(R, x, y, state)
    ensures x.pc == Waiting ==> Turns(R, x.(pc := Woken), y, state) && SetByMain(x.(pc := Woken)) == SetByMain(x)
    ensures y.pc == Waiting ==> Turns(R, x, y.(pc := Woken), state) && SetByOther(y.(pc := Woken)) == SetByOther(y)
  {
  }

  lemma CreateTurns(R: nat, x: Local, y: Local, state: nat)
    requires Turns(R, x, y, state) && x.pc == Create
    ensures Turns(R, Local(Lock, 1), Local(Throw, 0), state) && y.phase == 0
    ensures SetByMain(Local(Lock, 1)) == SetByMain(x) && SetByOther(Local(Throw, 0)) == SetByOther(y)
  {
  }

  /** The locals and the state after a step of main, and after one of the other thread. */
  lemma MainFrame(c: Control)
    requires Enabled(c, Run(0))
    ensures var r, x, y := Apply(c, Run(0)), c.threads[0], c.threads[1];
            && |r.threads| == 2 && r.R == c.R
            && r.threads[0] == Advance(c.R, c.viaPtr, 0, x, c.state)
            && r.threads[1] == (if x.pc == Signal && y.pc == Waiting then y.(pc := Woken)
                                else if x.pc == Create then y.(pc := Throw) else y)
            && r.state == (if x.pc == Set then NextState(0, x.phase) else c.state)
            && r.history == (if x.pc == Set then c.history + [r.state] else c.history)
  {
  }

  lemma OtherFrame(c: Control)
    requires Enabled(c, Run(1)) && c.threads[1].pc != Create
    ensures var r, x, y := Apply(c, Run(1)), c.threads[0], c.threads[1];
            && |r.threads| == 2 && r.R == c.R
            && r.threads[0] == (if y.pc == Signal && x.pc == Waiting then x.(pc := Woken) else x)
            && r.threads[1] == Advance(c.R, c.viaPtr, 1, y, c.state)
            && r.state == (if y.pc == Set then NextState(1, y.phase) else c.state)
            && r.history == (if y.pc == Set then c.history + [r.state] else c.history)
  {
  }

  lemma MainLevel(c: Control)
    requires Inv(c) && Enabled(c, Run(0))
    ensures var r := Apply(c, Run(0));
            |r.threads| == 2 && r.R == c.R && LevelWith(r.R, r.threads[0], r.threads[1], r.state, r.history)
  {
    var x, y := c.threads[0], c.threads[1];
    MainFrame(c);
    if x.pc == Create {
      CreateTurns(c.R, x, y, c.state);
    } else {
      MainTurns(c.R, c.viaPtr, x, y, c.state);
      WakingTurns(c.R, Advance(c.R, c.viaPtr, 0, x, c.state), y, if x.pc == Set then NextState(0, x.phase) else c.state);
    }
  }

  lemma OtherLevel(c: Control)
    requires Inv(c) && Enabled(c, Run(1))
    ensures var r := Apply(c, Run(1));
            |r.threads| == 2 && r.R == c.R && LevelWith(r.R, r.threads[0], r.threads[1], r.state, r.history)
  {
    var x, y := c.threads[0], c.threads[1];
    OtherFrame(c);
    OtherTurns(c.R, c.viaPtr, x, y, c.state);
    WakingTurns(c.R, x, Advance(c.R, c.viaPtr, 1, y, c.state), if y.pc == Set then NextState(1, y.phase) else c.state);
  }

  lemma MainTold(c: Control)
    requires Inv(c) && Enabled(c, Run(0))
    ensures var r := Apply(c, Run(0)); Told(r, 0) && Told(r, 1) && JustSet(r, 0) && JustSet(r, 1)
  {
    assert Holds(c.threads[0].pc) <==> c.owner == Held(0);
    MainFrame(c);
  }

  lemma OtherTold(c: Control)
    requires Inv(c) && Enabled(c, Run(1))
    ensures var r := Apply(c, Run(1)); Told(r, 0) && Told(r, 1) && JustSet(r, 0) && JustSet(r, 1)
  {
    assert Holds(c.threads[1].pc) <==> c.owner == Held(1);
    OtherFrame(c);
  }

  lemma SpuriousInv(c: Control, t: nat)
    requires Inv(c) && Enabled(c, Spurious(t))
    ensures Inv(Apply(c, Spurious(t)))
  {
    WakingTurns(c.R, c.threads[0], c.threads[1], c.state);
    MoveExclusive(c, t, Woken);
  }

  lemma StepInv(c: Control, e: Event)
    requires Inv(c)
    ensures Inv(Step(c, e)) && Step(c, e).R == c.R && Step(c, e).viaPtr == c.viaPtr
  {
    if Enabled(c, e) {
      match e {
        case Spurious(t) => SpuriousInv(c, t);
        case Run(t) =>
          RunExclusive(c, t);
          if t == 0 {
            MainLevel(c);
            MainTold(c);
          } else {
            OtherLevel(c);
            OtherTold(c);
          }
      }
    }
  }

  // ----- All runs -----

  lemma {:induction false} RunInv(R: nat, viaPtr: bool, es: seq<Event>)
    requires R > 0
    ensures var c := Exec(Step, Start(R, viaPtr), es); Inv(c) && c.R == R && c.viaPtr == viaPtr
  {
    var inv := (c: Control) => Inv(c) && c.R == R && c.viaPtr == viaPtr;
    forall c, e | inv(c) ensures inv(Step(c, e)) {
      StepInv(c, e);
    }
    Invariance(Step, inv, Start(R, viaPtr), es);
  }

  /** Thread `t` has yet to see the state it waits for. */
  predicate Awaits(t: nat, l: Local) {
    l.pc in {Signal, Test, Waiting, Woken} || (t == 0 && l.phase == 1 && l.pc == Lock)
  }

  lemma NoneOverwritten(R: nat, x: Local, y: Local, state: nat)
    requires Turns(R, x, y, state)
    ensures x.pc == Set && Awaits(1, y) ==> state != WaitingFor(R, 1, y.phase)
    ensures y.pc == Set && Awaits(0, x) ==> state != WaitingFor(R, 0, x.phase)
    ensures SetByMain(x) + SetByOther(y) <= 2 * R + 1
  {
  }

  lemma WokenInTime(R: nat, x: Local, y: Local, state: nat)
    requires Turns(R, x, y, state)
    ensures x.pc == Signal && state == NextState(0, x.phase) && y.pc == Waiting ==> state == WaitingFor(R, 1, y.phase)
    ensures y.pc == Signal && state == NextState(1, y.phase) && x.pc == Waiting ==> state == WaitingFor(R, 0, x.phase)
  {
  }

  /** In every run the state takes the values 0, 1, 2, ... up to 2*R in this order; no state is overwritten before the
      thread that waits for it has seen it; and a signal that finds the other thread waiting wakes it for its state. */
  lemma {:induction false} StatesInOrder(R: nat, viaPtr: bool, es: seq<Event>)
    requires R > 0
    ensures var c := Exec(Step, Start(R, viaPtr), es);
            && |c.threads| == 2 && |c.history| <= 2 * R + 1
            && (forall k :: 0 <= k < |c.history| ==> c.history[k] == k)
            && (c.history != [] ==> c.state == |c.history| - 1)
    ensures var c := Exec(Step, Start(R, viaPtr), es);
            forall t: nat :: t < 2 ==>
              var l, u := c.threads[t], 1 - t;
              && (c.threads[u].pc == Set && Awaits(t, l) ==> c.state != WaitingFor(R, t, l.phase))
              && (c.threads[u].pc == Signal && l.pc == Waiting ==> c.state == WaitingFor(R, t, l.phase))
  {
    RunInv(R, viaPtr, es);
    var c := Exec(Step, Start(R, viaPtr), es);
    NoneOverwritten(R, c.threads[0], c.threads[1], c.state);
    WokenInTime(R, c.threads[0], c.threads[1], c.state);
  }

  // ----- Every run ends -----

  ghost predicate Stuck(c: Control) {
    forall t :: !Enabled(c, Run(t))
  }

  lemma StuckPcs(c: Control)
    requires Inv(c) && Stuck(c)
    ensures c.owner == Free && c.threads[0].pc in {Waiting, Join, Exit} && c.threads[1].pc in {Absent, Waiting, Exit}
    ensures c.threads[0].pc == Join ==> c.threads[1].pc != Exit
  {
    assert !Enabled(c, Run(0)) && !Enabled(c, Run(1));
    assert forall t :: 0 <= t < 2 ==> (Holds(c.threads[t].pc) <==> c.owner == Held(t));
  }

  lemma StuckTurns(R: nat, x: Local, y: Local, state: nat)
    requires Turns(R, x, y, state) && x.pc in {Waiting, Join, Exit} && y.pc in {Absent, Waiting, Exit}
    requires x.pc == Join ==> y.pc != Exit
    requires x.pc == Waiting ==> state != WaitingFor(R, 0, x.phase)
    requires y.pc == Waiting ==> state != WaitingFor(R, 1, y.phase)
    ensures x.pc == Exit && y.pc == Exit && state == 2 * R
  {
  }

  /** When neither thread can go on without a spurious wakeup both are through and the state is 2*R. */
  lemma {:induction false} StuckRunsAreOver(R: nat, viaPtr: bool, es: seq<Event>)
    requires R > 0
    ensures var c := Exec(Step, Start(R, viaPtr), es);
            |c.threads| == 2 && (Stuck(c) ==> c.threads[0].pc == Exit && c.threads[1].pc == Exit && c.state == 2 * R)
  {
    RunInv(R, viaPtr, es);
    var c := Exec(Step, Start(R, viaPtr), es);
    if Stuck(c) {
      StuckPcs(c);
      StuckTurns(R, c.threads[0], c.threads[1], c.state);
    }
  }

  // ----- How long a run can be -----

  function Rank(t: nat, pc: Pc): int {
    match pc
    case Absent => 22 case Throw => (if t == 0 then 5 else 21) case DropPtr => 20 case Unwind => 19 case Catch => 18
    case Capture => 17 case Check => 16 case Lock => 15 case Set => 14 case Signal => 13 case Woken => 11
    case Test => 10 case Waiting => 9 case Unlock => 8 case Recheck => 7 case Create => 5 case Rethrow => 5 case Join => 4
    case Final => 3 case Leave => 2 case Exit => 0
  }

  function Left(R: nat, t: nat, l: Local): int {
    16 * ((if t == 0 then R + 1 else R - 1) - l.phase) + Rank(t, l.pc)
  }

  lemma AdvanceLeft(R: nat, viaPtr: bool, t: nat, l: Local, state: nat)
    requires t < 2 && l.pc !in {Absent, Waiting, Exit} && (t == 0 ==> MainFits(R, l)) && (t == 1 ==> OtherFits(R, l))
    ensures Left(R, t, Advance(R, viaPtr, t, l, state)) + 1 + (if l.pc == Signal then 2 else 0) <= Left(R, t, l)
  {
  }

  function Measure(c: Control): nat {
    if |c.threads| != 2 then 0
    else
      var n := Left(c.R, 0, c.threads[0]) + Left(c.R, 1, c.threads[1]);
      if n < 0 then 0 else n
  }

  lemma MainLowers(c: Control)
    requires Inv(c) && Enabled(c, Run(0))
    ensures Measure(Apply(c, Run(0))) + 1 <= Measure(c)
  {
    MainFrame(c);
    AdvanceLeft(c.R, c.viaPtr, 0, c.threads[0], c.state);
  }

  lemma OtherLowers(c: Control)
    requires Inv(c) && Enabled(c, Run(1))
    ensures Measure(Apply(c, Run(1))) + 1 <= Measure(c)
  {
    OtherFrame(c);
    AdvanceLeft(c.R, c.viaPtr, 1, c.threads[1], c.state);
  }

  lemma StepLowers(c: Control, e: Event)
    requires Inv(c) && Enabled(c, e)
    ensures Measure(Step(c, e)) + 1 <= Measure(c) + if e.Spurious? then 3 else 0
  {
    match e {
      case Spurious(t) =>
      case Run(t) => if t == 0 { MainLowers(c); } else { OtherLowers(c); }
    }
  }

  predicate IsSpurious(e: Event) {
    e.Spurious?
  }

  lemma StepsLower()
    ensures Lowers(Step, Enabled, Inv, Measure, IsSpurious, 3)
  {
    forall c: Control, e: Event | Inv(c) && Enabled(c, e)
      ensures Inv(Step(c, e)) && Measure(Step(c, e)) + 1 <= Measure(c) + if IsSpurious(e) then 3 else 0
    {
      StepInv(c, e);
      StepLowers(c, e);
    }
  }

  lemma StartFits(R: nat, viaPtr: bool)
    requires R > 0
    ensures Inv(Start(R, viaPtr)) && Measure(Start(R, viaPtr)) == 32 * R + 37
  {
  }

  /** Every run is finite but for spurious wakeups, of which each costs at most three steps. */
  lemma {:induction false} EveryRunIsBounded(R: nat, viaPtr: bool, es: seq<Event>)
    requires R > 0 && Effective(Step, Enabled, Start(R, viaPtr), es)
    ensures |es| <= 32 * R + 37 + 3 * Count(IsSpurious, es)
  {
    StartFits(R, viaPtr);
    StepsLower();
    BoundedRun(Step, Enabled, Inv, Measure, IsSpurious, 3, Start(R, viaPtr), es);
  }
}
