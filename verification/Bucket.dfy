/**
 The bounded bucket: one producer and one consumer share a counter under one mutex and one condition variable,
 and notify only when the bucket stops being empty or stops being full.  Two forms: signal under the lock
 (samples/cpp_pthreads/src/main.cpp) and unlock, then notify (samples/cpp_stlthreads/src/main.cpp).
 */
module Bucket {
  import opened Runs

  datatype Form = SignalLocked | NotifyUnlocked

  datatype Side = Producer | Consumer

  datatype Owner = Free | Held(side: Side)

  /** Where a thread is; Waiting threads are in the wait set, Woken ones must take the mutex again. */
  datatype Pc = Loop | Lock | Check | Waiting | Woken | Tls | Value | Count | Decide
              | Signal | Unlock | UnlockThenNotify | Notify | Done

  /** What one thread owns: its program counter, the rounds left, its thread-local counter. */
  datatype Local = Local(pc: Pc, left: nat, tls: int)

  /** `mainTls` is main's own thread-local counter; `failed` says that an abort was reached. */
  datatype State = State(form: Form, cap: int, items: nat, owner: Owner, p: Local, c: Local,
                         value: int, given: int, taken: int, mainTls: int, failed: bool)

  /** One step of a thread, or the spurious wakeup of a waiting thread. */
  datatype Event = Step(side: Side) | Spurious(side: Side)

  function Other(side: Side): Side {
    if side == Producer then Consumer else Producer
  }

  function Of(s: State, side: Side): Local {
    if side == Producer then s.p else s.c
  }

  function With(s: State, side: Side, l: Local): State {
    if side == Producer then s.(p := l) else s.(c := l)
  }

  function Goto(s: State, side: Side, pc: Pc): State {
    With(s, side, Of(s, side).(pc := pc))
  }

  /** The loop condition of the wait: `bucket_value >= BucketCapacity` for the producer, `bucket_value == 0` for
      the consumer. */
  predicate MustWait(s: State, side: Side) {
    if side == Producer then s.value >= s.cap else s.value == 0
  }

  /** The bucket just stopped being empty, or just stopped being full. */
  predicate MustNotify(s: State, side: Side) {
    s.value == if side == Producer then 1 else s.cap - 1
  }

  /** `cv` is notified: with two threads, the other one is woken if it waits. */
  function Wake(s: State, side: Side): State {
    if Of(s, side).pc == Waiting then Goto(s, side, Woken) else s
  }

  predicate Enabled(s: State, e: Event) {
    match e
    case Spurious(side) => Of(s, side).pc == Waiting
    case Step(side) =>
      match Of(s, side).pc
      case Waiting => false
      case Done => false
      case Lock => s.owner == Free
      case Woken => s.owner == Free
      case _ => true
  }

  function Apply(s: State, e: Event): State
    requires Enabled(s, e)
  {
    match e
    case Spurious(side) => Goto(s, side, Woken)
    case Step(side) =>
      var l, inc := Of(s, side), if side == Producer then 1 else -1;
      match l.pc
      case Loop => With(s, side, if l.left == 0 then l.(pc := Done) else l.(pc := Lock, left := l.left - 1))
      case Lock => Goto(s, side, Check).(owner := Held(side))
      case Woken => Goto(s, side, Check).(owner := Held(side))
      case Check => if MustWait(s, side) then Goto(s, side, Waiting).(owner := Free) else Goto(s, side, Tls)
      case Tls => With(s, side, l.(pc := Value, tls := l.tls + inc))
      case Value => Goto(s, side, Count).(value := s.value + inc)
      case Count =>
        if side == Producer then Goto(s, side, Decide).(given := s.given + 1)
        else Goto(s, side, Decide).(taken := s.taken + 1)
      case Decide =>
        var next := if !MustNotify(s, side) then Unlock
                    else if s.form == SignalLocked then Signal else UnlockThenNotify;
        var wrong := if side == Producer then l.tls != s.given else -l.tls != s.taken;
        Goto(s, side, next).(failed := s.failed || wrong)
      case Signal => Wake(Goto(s, side, Unlock), Other(side))
      case Unlock => Goto(s, side, Loop).(owner := Free)
      case UnlockThenNotify => Goto(s, side, Notify).(owner := Free)
      case Notify => Wake(Goto(s, side, Loop), Other(side))
  }

  function Next(s: State, e: Event): State {
    if Enabled(s, e) then Apply(s, e) else s
  }

  function Start(form: Form, cap: int, items: nat): State {
    State(form, cap, items, Free, Local(Loop, items, 0), Local(Loop, items, 0), 0, 0, 0, 0, false)
  }

  // ----- The invariant -----

  predicate Holds(pc: Pc) {
    pc in {Check, Tls, Value, Count, Decide, Signal, Unlock, UnlockThenNotify}
  }

  /** A round has begun and its item is not counted yet. */
  predicate Pending(pc: Pc) {
    pc in {Lock, Check, Waiting, Woken, Tls, Value, Count}
  }

  /** The side changed the bucket in a way the other side may be waiting for, and has not notified yet. */
  predicate Owes(s: State, side: Side) {
    var pc := Of(s, side).pc;
    pc in {Signal, UnlockThenNotify, Notify} || (pc in {Count, Decide} && MustNotify(s, side))
  }

  ghost predicate SideInv(s: State, side: Side) {
    var l := Of(s, side);
    var n := if side == Producer then s.given else s.taken;
    && (Holds(l.pc) <==> s.owner == Held(side))
    && (l.pc == Signal ==> s.form == SignalLocked)
    && (l.pc in {UnlockThenNotify, Notify} ==> s.form == NotifyUnlocked)
    && (l.pc in {Signal, UnlockThenNotify} ==> s.value == if side == Producer then 1 else s.cap - 1)
    && n + l.left + (if Pending(l.pc) then 1 else 0) == s.items
    && (l.pc == Done ==> l.left == 0)
    && (if side == Producer then l.tls else -l.tls) == n + (if l.pc in {Value, Count} then 1 else 0)
    && (l.pc in {Tls, Value} ==> !MustWait(s, side))
    && (l.pc == Waiting ==> MustWait(s, side) || Owes(s, Other(side)))
  }

  ghost predicate Inv(s: State) {
    && SideInv(s, Producer)
    && SideInv(s, Consumer)
    && s.value == s.given - s.taken + (if s.p.pc == Count then 1 else 0) - (if s.c.pc == Count then 1 else 0)
    && 0 <= s.value && (s.value <= s.cap || s.value == 0)
    && (s.p.pc in {Count, Decide} ==> s.value >= 1)
    && (s.c.pc in {Count, Decide} ==> s.value < s.cap)
    && 0 <= s.given && 0 <= s.taken
    && s.mainTls == 0 && !s.failed
  }

  lemma SpuriousInv(s: State, side: Side)
    requires Inv(s) && Enabled(s, Spurious(side))
    ensures Inv(Apply(s, Spurious(side)))
  {
  }

  lemma NotifyInv(s: State, side: Side)
    requires Inv(s) && Enabled(s, Step(side)) && Of(s, side).pc == Notify
    ensures Inv(Apply(s, Step(side)))
  {
  }

  lemma SignalInv(s: State, side: Side)
    requires Inv(s) && Enabled(s, Step(side)) && Of(s, side).pc == Signal
    ensures Inv(Apply(s, Step(side)))
  {
  }

  lemma LockInv(s: State, side: Side)
    requires Inv(s) && Enabled(s, Step(side)) && Of(s, side).pc in {Loop, Lock, Woken, Check, Unlock, UnlockThenNotify}
    ensures Inv(Apply(s, Step(side)))
  {
  }

  lemma UpdateInv(s: State, side: Side)
    requires Inv(s) && Enabled(s, Step(side)) && Of(s, side).pc in {Tls, Value, Count, Decide}
    ensures Inv(Apply(s, Step(side)))
  {
  }

  lemma StepInv(s: State, e: Event)
    requires Inv(s)
    ensures Inv(Next(s, e)) && SameBucket(Next(s, e), s)
  {
    NextKeepsBucket(s, e);
    if Enabled(s, e) {
      var pc := Of(s, e.side).pc;
      if e.Spurious? {
        SpuriousInv(s, e.side);
      } else if pc == Notify {
        NotifyInv(s, e.side);
      } else if pc == Signal {
        SignalInv(s, e.side);
      } else if pc in {Tls, Value, Count, Decide} {
        UpdateInv(s, e.side);
      } else {
        LockInv(s, e.side);
      }
    }
  }

  predicate SameBucket(s: State, t: State) {
    s.form == t.form && s.cap == t.cap && s.items == t.items
  }

  lemma NextKeepsBucket(s: State, e: Event)
    ensures SameBucket(Next(s, e), s)
  {
  }

  lemma {:induction false} RunInv(form: Form, cap: int, items: nat, es: seq<Event>)
    ensures var s := Exec(Next, Start(form, cap, items), es);
            Inv(s) && s.form == form && s.cap == cap && s.items == items
  {
    var s0 := Start(form, cap, items);
    var inv := (t: State) => Inv(t) && SameBucket(t, s0);
    forall t, e | inv(t) ensures inv(Next(t, e)) {
      StepInv(t, e);
    }
    Invariance(Next, inv, s0, es);
  }

  // ----- What every run keeps -----

  /** No run aborts; whenever the mutex is free the counters balance, the bucket is within its capacity and each
      thread-local counter equals its shared counter; a thread is about to notify only where its item made the bucket
      hold one item, or one less than it can, with the mutex in the one form and without it in the other; and a thread
      waits only for something that is still so, or that the other thread has changed and will still announce. */
  lemma {:induction false} EveryRunBalances(form: Form, cap: int, items: nat, es: seq<Event>)
    ensures var s := Exec(Next, Start(form, cap, items), es);
            && !s.failed
            && (s.owner == Free ==>
                 && s.given == s.taken + s.value
                 && 0 <= s.value && (s.value <= cap || s.value == 0)
                 && s.p.tls == s.given && -s.c.tls == s.taken)
            && (Signal in {s.p.pc, s.c.pc} ==> form == SignalLocked)
            && (UnlockThenNotify in {s.p.pc, s.c.pc} || Notify in {s.p.pc, s.c.pc} ==> form == NotifyUnlocked)
            && (s.p.pc == Signal ==> s.owner == Held(Producer)) && (s.c.pc == Signal ==> s.owner == Held(Consumer))
            && (s.p.pc == Notify ==> s.owner != Held(Producer)) && (s.c.pc == Notify ==> s.owner != Held(Consumer))
            && (s.p.pc in {Signal, UnlockThenNotify} ==> s.value == 1)
            && (s.c.pc in {Signal, UnlockThenNotify} ==> s.value == cap - 1)
            && (s.c.pc == Waiting ==> s.value == 0 || Owes(s, Producer))
            && (s.p.pc == Waiting ==> s.value >= cap || Owes(s, Consumer))
  {
    RunInv(form, cap, items, es);
  }

  /** The next step is a check that fails: what the thread has counted for itself is not what both have counted. */
  predicate Mismatch(s: State, e: Event) {
    || (e == Step(Producer) && s.p.pc == Decide && s.p.tls != s.given)
    || (e == Step(Consumer) && s.c.pc == Decide && s.c.tls != -s.taken)
  }

  lemma NextFails(s: State, e: Event)
    ensures Next(s, e).failed <==> s.failed || Mismatch(s, e)
  {
  }

  /** A thread has aborted exactly when a check met a thread-local count that differs from the shared one. */
  lemma {:induction false} FailedIffMismatch(form: Form, cap: int, items: nat, es: seq<Event>)
    ensures Exec(Next, Start(form, cap, items), es).failed <==>
              StepsWhere(Next, Mismatch, Start(form, cap, items), es) > 0
  {
    forall s, e ensures Next(s, e).failed <==> s.failed || Mismatch(s, e) {
      NextFails(s, e);
    }
    FlagIffRaised(Next, (s: State) => s.failed, Mismatch, Start(form, cap, items), es);
  }

  // ----- When a side notifies -----

  /** A step that puts the first item into an empty bucket, or takes one out of a full one. */
  predicate Crosses(side: Side, s: State, e: Event) {
    && e == Step(side) && Of(s, side).pc == Value
    && if side == Producer then s.value == 0 else s.value == s.cap
  }

  predicate Notifies(side: Side, s: State, e: Event) {
    e == Step(side) && Of(s, side).pc in {Signal, Notify}
  }

  /** The notification of a crossing is still to come. */
  function ToNotify(s: State, side: Side): nat {
    var pc := Of(s, side).pc;
    if pc in {Signal, UnlockThenNotify, Notify} then 1
    else if pc in {Count, Decide} && s.value == (if side == Producer then 1 else s.cap - 1) then 1
    else 0
  }

  lemma OwnToNotify(s: State, side: Side, e: Event)
    requires Inv(s) && Enabled(s, e) && e == Step(side)
    ensures ToNotify(Apply(s, e), side) + (if Notifies(side, s, e) then 1 else 0)
            == ToNotify(s, side) + if Crosses(side, s, e) then 1 else 0
  {
  }

  lemma OtherToNotify(s: State, side: Side, e: Event)
    requires Inv(s) && Enabled(s, e) && e != Step(side)
    ensures ToNotify(Apply(s, e), side) == ToNotify(s, side)
  {
  }

  /** Each side notifies exactly as often as its items made the bucket stop being empty, or full: a notification not made
      yet is under way. */
  lemma {:induction false} NotifiesIffCrossed(form: Form, cap: int, items: nat, side: Side, es: seq<Event>)
    ensures var s0 := Start(form, cap, items);
            StepsWhere(Next, (s, e) => Crosses(side, s, e), s0, es)
            == StepsWhere(Next, (s, e) => Notifies(side, s, e), s0, es) + ToNotify(Exec(Next, s0, es), side)
  {
    if es != [] {
      var front, e := es[..|es| - 1], es[|es| - 1];
      NotifiesIffCrossed(form, cap, items, side, front);
      RunInv(form, cap, items, front);
      var s := Exec(Next, Start(form, cap, items), front);
      if Enabled(s, e) {
        if e == Step(side) {
          OwnToNotify(s, side, e);
        } else {
          OtherToNotify(s, side, e);
        }
      }
    }
  }

  predicate BothDone(s: State) {
    s.p.pc == Done && s.c.pc == Done
  }

  /** What main checks after joining both threads: all items given and taken, nothing left, its own counter untouched. */
  predicate MainChecks(s: State) {
    s.given == s.items && s.taken == s.items && s.value == 0 && s.mainTls == 0
  }

  /** Nobody can move, except by a spurious wakeup. */
  predicate Stuck(s: State) {
    !Enabled(s, Step(Producer)) && !Enabled(s, Step(Consumer))
  }

  lemma StuckIsDone(s: State)
    requires Inv(s) && Stuck(s) && (s.cap >= 1 || s.items == 0)
    ensures BothDone(s) && MainChecks(s)
  {
  }

  /** No wakeup is lost: a run that can go no further has finished, with every item given and taken, and main's checks
      hold. */
  lemma {:induction false} EveryStuckRunIsFinished(form: Form, cap: int, items: nat, es: seq<Event>)
    requires cap >= 1 || items == 0
    ensures var s := Exec(Next, Start(form, cap, items), es);
            Stuck(s) ==> BothDone(s) && MainChecks(s)
  {
    RunInv(form, cap, items, es);
    var s := Exec(Next, Start(form, cap, items), es);
    if Stuck(s) {
      StuckIsDone(s);
    }
  }

  // ----- How long a run can be -----

  function Rank(l: Local): nat {
    11 * l.left +
    match l.pc
    case Lock => 11 case Woken => 11 case Check => 10 case Waiting => 9 case Tls => 9 case Value => 8 case Count => 7
    case Decide => 6 case Signal => 5 case UnlockThenNotify => 5 case Notify => 4 case Unlock => 2 case Loop => 1
    case Done => 0
  }

  function Measure(s: State): nat {
    Rank(s.p) + Rank(s.c)
  }

  /** Every step of a thread lowers the measure, also one that wakes the other thread only to wait again. */
  lemma StepLowers(s: State, e: Event)
    requires Enabled(s, e)
    ensures Measure(Apply(s, e)) + 1 <= Measure(s) + if e.Spurious? then 3 else 0
  {
  }

  /** A run without spurious wakeups has at most 22 N + 2 steps; each spurious wakeup adds at most 3. */
  lemma {:induction false} EveryRunIsBounded(form: Form, cap: int, items: nat, es: seq<Event>)
    requires Effective(Next, Enabled, Start(form, cap, items), es)
    ensures |es| <= 22 * items + 2 + 3 * Runs.Count((e: Event) => e.Spurious?, es)
  {
    var spurious := (e: Event) => e.Spurious?;
    var any := (s: State) => true;
    forall s: State, e: Event | any(s) && Enabled(s, e)
      ensures any(Next(s, e)) && Measure(Next(s, e)) + 1 <= Measure(s) + if spurious(e) then 3 else 0
    {
      StepLowers(s, e);
    }
    BoundedRun(Next, Enabled, any, Measure, spurious, 3, Start(form, cap, items), es);
  }

  // ----- When a run can finish -----

  lemma {:induction false} Drive(s: State) returns (es: seq<Event>)
    requires Inv(s) && (s.cap >= 1 || s.items == 0)
    ensures BothDone(Exec(Next, s, es))
    decreases Measure(s)
  {
    if Stuck(s) {
      StuckIsDone(s);
      es := [];
    } else {
      var side :| Enabled(s, Step(side));
      StepInv(s, Step(side));
      StepLowers(s, Step(side));
      var rest := Drive(Next(s, Step(side)));
      es := [Step(side)] + rest;
      ExecCons(Next, s, Step(side), rest);
    }
  }

  /** Without room the producer never gets past its wait. */
  predicate NoRoom(s: State) {
    s.given == 0 && s.p.pc in {Loop, Lock, Check, Waiting, Woken} && s.value >= 0 >= s.cap && s.items > 0
    && s.p.left + (if s.p.pc == Loop then 0 else 1) == s.items
  }

  lemma NoRoomStep(s: State, e: Event)
    requires NoRoom(s) && Inv(s)
    ensures NoRoom(Next(s, e))
  {
  }

  lemma RoomFinishes(form: Form, cap: int, items: nat)
    requires cap >= 1 || items == 0
    ensures exists es :: BothDone(Exec(Next, Start(form, cap, items), es))
  {
    RunInv(form, cap, items, []);
    var es := Drive(Start(form, cap, items));
  }

  lemma {:induction false} NoRoomNeverFinishes(form: Form, cap: int, items: nat, es: seq<Event>)
    requires cap <= 0 < items
    ensures !BothDone(Exec(Next, Start(form, cap, items), es))
  {
    var inv := (t: State) => NoRoom(t) && Inv(t);
    forall t, e | inv(t) ensures inv(Next(t, e)) {
      NoRoomStep(t, e);
      StepInv(t, e);
    }
    Invariance(Next, inv, Start(form, cap, items), es);
  }

  /** The threads can both finish exactly when the bucket has room for an item, or there are no items. */
  lemma FinishesIffRoom(form: Form, cap: int, items: nat)
    ensures (exists es :: BothDone(Exec(Next, Start(form, cap, items), es))) <==> (cap >= 1 || items == 0)
  {
    if cap >= 1 || items == 0 {
      RoomFinishes(form, cap, items);
    } else {
      forall es ensures !BothDone(Exec(Next, Start(form, cap, items), es)) {
        NoRoomNeverFinishes(form, cap, items, es);
      }
    }
  }
}
