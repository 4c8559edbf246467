/**
 The token ring of `TestMemModelSCDRF00` (samples/cpp_atomic_mm/src/main.cpp): M writers and M readers pass
 plain data and the right to touch it through one atomic integer.
 */
module TokenRing {
  import opened Runs
  import opened MemoryModel

  /** Where a thread is.  A writer goes Spin, SetValue, SetSlot, Release, Done; a reader goes Spin, CheckSlot,
      CheckValue, SetValue, Release, Done. */
  datatype Pc = Spin | CheckSlot | CheckValue | SetValue | SetSlot | Release | Done

  /** The control state: threads 0..M-1 write, threads M..2M-1 read an array of A slots.  `order` lists the
      threads that left their spin loop, `puts` and `gets` count the writers and the readers among them. */
  datatype Control = Control(M: nat, A: nat, pc: seq<Pc>, order: seq<nat>, puts: nat, gets: nat)

  /** `failed` says that a REQUIRE failed. */
  datatype State = State(ctl: Control, mem: Memory, failed: bool)

  /** One step of thread `tid`; `pick` is the write a plain read returns. */
  datatype Event = Event(tid: nat, pick: nat)

  predicate Shape(c: Control) {
    c.A > 0 && |c.pc| == 2 * c.M
  }

  /** The index a thread works on: its creation index, clamped to the array. */
  function Idx(c: Control, t: nat): int {
    var raw := if t < c.M then t else t - c.M;
    if raw < c.A - 1 then raw else c.A - 1
  }

  /** `_sync_value = (idx+1)%array_size; _sync_value = (_sync_value+1) * -1` */
  function NextPut(A: nat, idx: int): int
    requires A > 0
  {
    ((idx + 1) % A + 1) * -1
  }

  /** The condition that ends either spin loop. */
  predicate MayLeaveSpin(c: Control, t: nat, sync: int) {
    if t < c.M then Idx(c, t) == (sync * -1) - 1 else Idx(c, t) == sync
  }

  /** The control step of thread `t` when the atomic holds `sync`. */
  function Next(c: Control, t: nat, sync: int): Control
    requires Shape(c) && t < |c.pc|
  {
    match c.pc[t]
    case Spin =>
      if !MayLeaveSpin(c, t, sync) then c
      else if t < c.M then c.(pc := c.pc[t := SetValue], order := c.order + [t], puts := c.puts + 1)
      else c.(pc := c.pc[t := CheckSlot], order := c.order + [t], gets := c.gets + 1)
    case CheckSlot => c.(pc := c.pc[t := CheckValue])
    case CheckValue => c.(pc := c.pc[t := SetValue])
    case SetValue => c.(pc := c.pc[t := if t < c.M then SetSlot else Release])
    case SetSlot => c.(pc := c.pc[t := Release])
    case Release => c.(pc := c.pc[t := Done])
    case Done => c
  }

  /** Cell 0 is `value1`, cell 1+i is `array[i]`; the last clock is main's. */
  predicate Fits(s: State) {
    && Shape(s.ctl)
    && Valid(s.mem)
    && |s.mem.clocks| == |s.ctl.pc| + 1
    && |s.mem.cells| == s.ctl.A + 1
    && |s.mem.atoms| == 1
  }

  /** The plain cell a check or an assignment of thread `t` is about. */
  function Target(c: Control, t: nat): int
    requires Shape(c) && t < |c.pc|
  {
    if c.pc[t] in {CheckSlot, SetSlot} then 1 + Idx(c, t) else 0
  }

  predicate Enabled(s: State, e: Event) {
    && Fits(s)
    && e.tid < |s.ctl.pc|
    && s.ctl.pc[e.tid] != Done
    && (s.ctl.pc[e.tid] in {CheckSlot, CheckValue} ==> MayRead(s.mem, e.tid, Target(s.ctl, e.tid), e.pick))
  }

  /** What thread `t` does to the memory. */
  function Effect(c: Control, m: Memory, t: nat): Memory
    requires Shape(c) && Valid(m) && |m.clocks| == |c.pc| + 1 && |m.cells| == c.A + 1 && |m.atoms| == 1
    requires t < |c.pc|
  {
    var idx := Idx(c, t);
    var out := if t < c.M then idx else NextPut(c.A, idx);
    match c.pc[t]
    case Spin => Load(m, t, 0)
    case CheckSlot => Read(m, t, 1 + idx)
    case CheckValue => Read(m, t, 0)
    case SetValue => Assign(m, t, 0, out)
    case SetSlot => Assign(m, t, 1 + idx, idx)
    case Release => Store(m, t, 0, out)
    case Done => m
  }

  function Apply(s: State, e: Event): State
    requires Enabled(s, e)
  {
    var t := e.tid;
    State(
      Next(s.ctl, t, s.mem.atoms[0].value),
      Effect(s.ctl, s.mem, t),
      s.failed || (s.ctl.pc[t] in {CheckSlot, CheckValue}
                   && s.mem.cells[Target(s.ctl, t)].writes[e.pick].value != Idx(s.ctl, t)))
  }

  function Step(s: State, e: Event): State {
    if Enabled(s, e) then Apply(s, e) else s
  }

  // ----- The forced order W0, R0, W1, R1, ... -----

  /** W0, R0, W1, R1, ... with `puts` writers and `gets` readers */
  function Alternation(M: nat, puts: nat, gets: nat): seq<nat> {
    if puts > gets then Alternation(M, puts - 1, gets) + [puts - 1]
    else if gets > 0 then Alternation(M, puts, gets - 1) + [M + gets - 1]
    else []
  }

  /** The thread whose turn began last. */
  function Holder(c: Control): nat
    requires c.puts > 0 && c.gets <= c.puts
  {
    if c.puts > c.gets then c.puts - 1 else c.M + c.gets - 1
  }

  /** Some thread is between its spin exit and its release store. */
  predicate Held(c: Control)
    requires c.gets <= c.puts
  {
    c.puts > 0 && Holder(c) < |c.pc| && c.pc[Holder(c)] != Done
  }

  /** The value of the atomic, as long as no index repeats. */
  function Token(c: Control): int
    requires c.gets <= c.puts
  {
    var puts: int, gets: int := c.puts, c.gets;
    if Held(c) then (if puts > gets then -puts else gets - 1)
    else if puts > gets then puts - 1
    else if puts == c.A then -1
    else -puts - 1
  }

  predicate MayHold(M: nat, t: nat, pc: Pc) {
    if t < M then pc in {SetValue, SetSlot, Release, Done} else pc !in {Spin, SetSlot}
  }

  ghost predicate Forced(c: Control) {
    && Shape(c)
    && c.gets <= c.puts <= c.gets + 1
    && c.puts <= c.M && c.puts <= c.A
    && c.order == Alternation(c.M, c.puts, c.gets)
    && (forall t :: c.puts <= t < c.M ==> c.pc[t] == Spin)
    && (forall t :: c.M + c.gets <= t < |c.pc| ==> c.pc[t] == Spin)
    && (forall t :: 0 <= t < c.puts && (c.puts > 0 ==> t != Holder(c)) ==> c.pc[t] == Done)
    && (forall t :: c.M <= t < c.M + c.gets && (c.puts > 0 ==> t != Holder(c)) ==> c.pc[t] == Done)
    && (c.puts > 0 ==> MayHold(c.M, Holder(c), c.pc[Holder(c)]))
  }

  /** The next turn has an index of its own: no clamping, or not yet at the clamped index. */
  predicate Unclamped(c: Control)
    requires c.gets <= c.puts
  {
    c.M <= c.A || c.puts < c.A - 1 || (c.puts == c.A - 1 && (c.gets < c.puts || Held(c)))
  }

  /** The next thread that can do something other than spin. */
  function Runner(c: Control): nat
    requires c.gets <= c.puts
  {
    if Held(c) then Holder(c) else if c.puts > c.gets then c.M + c.gets else c.puts
  }

  /** The turn under way or next has an index of its own, whoever else may share it. */
  predicate Turnable(c: Control)
    requires c.gets <= c.puts
  {
    c.M <= c.A || c.puts < c.A || c.gets < c.puts || Held(c)
  }

  /** If thread `t` leaves its spin loop now, it is the only one that can. */
  predicate MayGo(c: Control, t: nat)
    requires c.gets <= c.puts
  {
    Unclamped(c) || (t == Runner(c) && Turnable(c))
  }

  lemma NextPutToken(A: int, puts: int)
    requires 0 < puts <= A
    ensures NextPut(A, puts - 1) == if puts == A then -1 else -puts - 1
  {
    RoundTheArray(puts, A);
  }

  lemma OnlyNextLeaves(c: Control, t: nat)
    requires Forced(c) && t < |c.pc| && c.pc[t] == Spin && MayGo(c, t)
    requires MayLeaveSpin(c, t, Token(c))
    ensures !Held(c) && t == if c.puts > c.gets then c.M + c.gets else c.puts
  {
  }

  lemma SpinControl(c: Control, t: nat)
    requires Forced(c) && t < |c.pc| && c.pc[t] == Spin && MayGo(c, t)
    ensures var r := Next(c, t, Token(c));
            && Forced(r) && Token(r) == Token(c)
            && (r == c || (!Held(c) && Held(r) && Holder(r) == t && r.order == c.order + [t]))
  {
    if MayLeaveSpin(c, t, Token(c)) {
      OnlyNextLeaves(c, t);
    }
  }

  lemma HolderControl(c: Control, t: nat, sync: int)
    requires Forced(c) && t < |c.pc| && c.pc[t] !in {Spin, Done}
    ensures Held(c) && Holder(c) == t
    ensures var r := Next(c, t, sync);
            && Forced(r) && r.order == c.order && r.puts == c.puts && r.gets == c.gets
            && (Held(r) <==> c.pc[t] != Release)
  {
  }

  // ----- The data under the token -----

  /** The token holder, or else the atomic, knows every plain access made so far. */
  ghost predicate Ordered(s: State)
    requires Fits(s) && Forced(s.ctl)
  {
    Covers(if Held(s.ctl) then s.mem.clocks[Holder(s.ctl)] else s.mem.atoms[0].clock, s.mem.cells)
  }

  /** Writers whose slot is written. */
  function SlotsWritten(c: Control): nat
    requires c.gets <= c.puts && c.puts <= c.M && Shape(c)
  {
    if c.puts > c.gets && c.pc[c.puts - 1] !in {Release, Done} then c.puts - 1 else c.puts
  }

  ghost predicate SlotsHold(c: Control, cells: seq<Cell>)
    requires Forced(c) && |cells| == c.A + 1
  {
    forall j :: 1 <= j <= SlotsWritten(c) ==> cells[j].writes != [] && Last(cells[j]) == j - 1
  }

  /** `value1` agrees with the atomic, except between a thread's own assignment to it and the release store that
      follows: there it already has the value that store will publish. */
  ghost predicate ValueHolds(c: Control, value1: int)
    requires Forced(c)
  {
    var puts: int, gets: int := c.puts, c.gets;
    if !Held(c) || c.pc[Holder(c)] in {CheckSlot, CheckValue, SetValue} then value1 == Token(c)
    else if puts > gets then value1 == puts - 1
    else value1 == if puts == c.A then -1 else -puts - 1
  }

  ghost predicate Inv(s: State) {
    && Fits(s)
    && Forced(s.ctl)
    && s.mem.atoms[0].value == Token(s.ctl)
    && Ordered(s)
    && SlotsHold(s.ctl, s.mem.cells)
    && ValueHolds(s.ctl, Last(s.mem.cells[0]))
    && !s.mem.raced && !s.failed
  }

  lemma SpinInv(s: State, e: Event)
    requires Inv(s) && Enabled(s, e) && s.ctl.pc[e.tid] == Spin && MayGo(s.ctl, e.tid)
    ensures Inv(Apply(s, e))
  {
    SpinControl(s.ctl, e.tid);
    LoadCovers(s.mem, e.tid, 0);
  }

  lemma CheckInv(s: State, e: Event)
    requires Inv(s) && Enabled(s, e) && s.ctl.pc[e.tid] in {CheckSlot, CheckValue}
    ensures Inv(Apply(s, e))
  {
    var t, x := e.tid, Target(s.ctl, e.tid);
    HolderControl(s.ctl, t, s.mem.atoms[0].value);
    ReadLast(s.mem, t, x, e.pick);
    ReadCovers(s.mem, t, x);
  }

  lemma SetSlotInv(s: State, e: Event)
    requires Inv(s) && Enabled(s, e) && s.ctl.pc[e.tid] == SetSlot
    ensures Inv(Apply(s, e))
  {
    HolderControl(s.ctl, e.tid, s.mem.atoms[0].value);
    AssignCovers(s.mem, e.tid, Target(s.ctl, e.tid), Idx(s.ctl, e.tid));
  }

  /** What the holder assigns to `value1`. */
  lemma SetValueControl(c: Control, t: nat, sync: int)
    requires Forced(c) && t < |c.pc| && c.pc[t] == SetValue
    ensures Held(c) && Holder(c) == t
    ensures var r := Next(c, t, sync);
            && Forced(r) && Held(r) && Holder(r) == t && Token(r) == Token(c) && SlotsWritten(r) == SlotsWritten(c)
            && ValueHolds(r, if t < c.M then Idx(c, t) else NextPut(c.A, Idx(c, t)))
  {
    HolderControl(c, t, sync);
    NextPutToken(c.A, c.puts);
  }

  lemma SetValueInv(s: State, e: Event)
    requires Inv(s) && Enabled(s, e) && s.ctl.pc[e.tid] == SetValue
    ensures Inv(Apply(s, e))
  {
    var t, c := e.tid, s.ctl;
    SetValueControl(c, t, s.mem.atoms[0].value);
    AssignCovers(s.mem, t, 0, if t < c.M then Idx(c, t) else NextPut(c.A, Idx(c, t)));
  }

  /** What the holder stores into the atomic is what it has assigned to `value1`, and names the next turn. */
  lemma ReleaseControl(c: Control, t: nat, sync: int, value1: int)
    requires Forced(c) && t < |c.pc| && c.pc[t] == Release && ValueHolds(c, value1)
    ensures Held(c) && Holder(c) == t
    ensures var r := Next(c, t, sync);
            && Forced(r) && !Held(r) && Token(r) == (if t < c.M then Idx(c, t) else NextPut(c.A, Idx(c, t)))
            && Token(r) == value1 && SlotsWritten(r) == SlotsWritten(c)
  {
    HolderControl(c, t, sync);
    NextPutToken(c.A, c.puts);
  }

  lemma ReleaseInv(s: State, e: Event)
    requires Inv(s) && Enabled(s, e) && s.ctl.pc[e.tid] == Release
    ensures Inv(Apply(s, e))
  {
    var t, c := e.tid, s.ctl;
    ReleaseControl(c, t, s.mem.atoms[0].value, Last(s.mem.cells[0]));
    StoreCovers(s.mem, t, 0, if t < c.M then Idx(c, t) else NextPut(c.A, Idx(c, t)));
  }

  lemma StepInv(s: State, e: Event)
    requires Inv(s) && MayGo(s.ctl, e.tid)
    ensures Inv(Step(s, e)) && Step(s, e).ctl.M == s.ctl.M && Step(s, e).ctl.A == s.ctl.A
  {
    if Enabled(s, e) {
      match s.ctl.pc[e.tid] {
        case Spin => SpinInv(s, e);
        case CheckSlot => CheckInv(s, e);
        case CheckValue => CheckInv(s, e);
        case SetValue => SetValueInv(s, e);
        case SetSlot => SetSlotInv(s, e);
        case Release => ReleaseInv(s, e);
      }
    }
  }

  // ----- All runs -----

  /** `reset(-1, arrayValue)` and the creation of M readers and M writers, in either order */
  function Start(M: nat, A: nat, arrayValue: int): State {
    State(Control(M, A, seq(2 * M, _ => Spin), [], 0, 0),
          Begin(2 * M, [-1] + seq(A, _ => arrayValue), [-1]),
          false)
  }

  lemma StartInv(M: nat, A: nat, arrayValue: int)
    requires A > 0
    ensures Inv(Start(M, A, arrayValue))
  {
    BeginCovers(2 * M, [-1] + seq(A, _ => arrayValue), [-1]);
  }

  lemma {:induction false} RunInv(M: nat, A: nat, arrayValue: int, es: seq<Event>)
    requires A > 0 && M <= A
    ensures var s := Exec(Step, Start(M, A, arrayValue), es);
            Inv(s) && s.ctl.M == M && s.ctl.A == A
  {
    var inv := (t: State) => Inv(t) && t.ctl.M == M && t.ctl.A == A;
    StartInv(M, A, arrayValue);
    forall t, e | inv(t) ensures inv(Step(t, e)) {
      StepInv(t, e);
    }
    Invariance(Step, inv, Start(M, A, arrayValue), es);
  }

  /** `array[i]`, for an observer who knows every access */
  function Slot(s: State, i: nat): int
    requires Fits(s) && i < s.ctl.A
  {
    Last(s.mem.cells[1 + i])
  }

  predicate AllDone(c: Control) {
    forall t :: 0 <= t < |c.pc| ==> c.pc[t] == Done
  }

  /** Between the exit of its spin loop and its release store. */
  predicate Inside(c: Control, t: nat) {
    t < |c.pc| && c.pc[t] !in {Spin, Done}
  }

  lemma {:induction false} AlternationAt(M: nat, puts: nat, gets: nat, k: nat)
    requires gets <= puts <= gets + 1
    ensures |Alternation(M, puts, gets)| == puts + gets
    ensures k < puts + gets ==> Alternation(M, puts, gets)[k] == if k % 2 == 0 then k / 2 else M + k / 2
  {
    if puts > gets {
      AlternationAt(M, puts - 1, gets, k);
    } else if gets > 0 {
      AlternationAt(M, puts, gets - 1, k);
    }
  }

  /** With a slot for every index no run has a data race or fails a REQUIRE, at most one thread is ever inside,
      the threads leave their spin loops in the order W0, R0, W1, R1, ..., `value1` holds what the atomic holds
      whenever no thread is inside, and the end result is fixed. */
  lemma {:induction false} EveryRunIsForced(M: nat, A: nat, arrayValue: int, es: seq<Event>)
    requires A > 0 && M <= A
    ensures var s := Exec(Step, Start(M, A, arrayValue), es);
            && Fits(s)
            && !s.mem.raced && !s.failed
            && (forall t, u :: Inside(s.ctl, t) && Inside(s.ctl, u) ==> t == u)
            && |s.ctl.order| <= 2 * M
            && (forall k :: 0 <= k < |s.ctl.order| ==> s.ctl.order[k] == if k % 2 == 0 then k / 2 else M + k / 2)
            && ((forall t :: !Inside(s.ctl, t)) ==> Last(s.mem.cells[0]) == s.mem.atoms[0].value)
            && (AllDone(s.ctl) ==>
                 && |s.ctl.order| == 2 * M
                 && (forall i :: 0 <= i < M && i < s.ctl.A ==> Slot(s, i) == i)
                 && s.mem.atoms[0].value == -((M % A) + 1)
                 && Last(s.mem.cells[0]) == -((M % A) + 1))
  {
    RunInv(M, A, arrayValue, es);
    var s := Exec(Step, Start(M, A, arrayValue), es);
    forall k | 0 <= k < |s.ctl.order| ensures s.ctl.order[k] == if k % 2 == 0 then k / 2 else M + k / 2 {
      AlternationAt(M, s.ctl.puts, s.ctl.gets, k);
    }
    AlternationAt(M, s.ctl.puts, s.ctl.gets, 0);
    NobodyInside(s);
    if AllDone(s.ctl) {
      DoneEnds(s);
    }
  }

  /** Between the turns `value1` holds what the atomic holds. */
  lemma NobodyInside(s: State)
    requires Inv(s)
    ensures (forall t :: !Inside(s.ctl, t)) ==> Last(s.mem.cells[0]) == s.mem.atoms[0].value
  {
    assert Held(s.ctl) ==> Inside(s.ctl, Holder(s.ctl));
  }

  lemma DoneCounts(c: Control)
    requires Forced(c) && AllDone(c)
    ensures c.puts == c.gets == c.M && !Held(c)
  {
    assert c.M > 0 ==> c.pc[2 * c.M - 1] == Done;
  }

  lemma DoneEnds(s: State)
    requires Inv(s) && AllDone(s.ctl) && s.ctl.M <= s.ctl.A
    ensures s.ctl.puts == s.ctl.gets == s.ctl.M
    ensures forall i :: 0 <= i < s.ctl.M ==> Slot(s, i) == i
    ensures s.mem.atoms[0].value == -((s.ctl.M % s.ctl.A) + 1)
    ensures Last(s.mem.cells[0]) == -((s.ctl.M % s.ctl.A) + 1)
  {
    DoneCounts(s.ctl);
    FinalToken(s.ctl);
  }

  lemma FinalToken(c: Control)
    requires Forced(c) && c.puts == c.gets == c.M && !Held(c) && c.M <= c.A
    ensures Token(c) == -((c.M % c.A) + 1)
  {
    RoundTheArray(c.M, c.A);
  }

  lemma RoundTheArray(M: nat, A: nat)
    requires M <= A && A > 0
    ensures M % A == if M == A then 0 else M
  {
  }

  // ----- Progress -----

  function Rank(pc: Pc): nat {
    match pc case Spin => 5 case CheckSlot => 4 case CheckValue => 3 case SetValue => 2 case SetSlot => 2
             case Release => 1 case Done => 0
  }

  /** The steps left, failed spins apart: four for each writer's turn not begun, five for each reader's, and the rest of
      the turn under way. */
  function Work(c: Control): nat
    requires c.gets <= c.puts <= c.M
  {
    4 * (c.M - c.puts) + 5 * (c.M - c.gets) + if Held(c) then WorkOf(c.pc[Holder(c)], Holder(c) < c.M) else 0
  }

  function WorkOf(pc: Pc, writer: bool): nat {
    if writer && pc == SetValue then 3 else Rank(pc)
  }

  function LastPick(s: State, t: nat): nat
    requires Fits(s) && t < |s.ctl.pc|
  {
    var x := Target(s.ctl, t);
    if 0 <= x < |s.mem.cells| then |s.mem.cells[x].writes| - 1 else 0
  }

  lemma RunnerAdvances(c: Control)
    requires Forced(c) && Turnable(c) && !AllDone(c)
    ensures Runner(c) < |c.pc| && c.pc[Runner(c)] != Done
    ensures var r := Next(c, Runner(c), Token(c));
            r.gets <= r.puts <= r.M && Work(r) < Work(c)
  {
    var t := Runner(c);
    assert c.puts == c.gets == c.M && !Held(c) ==> AllDone(c);
    if Held(c) {
      HolderControl(c, t, Token(c));
    } else {
      assert c.pc[t] == Spin;
      assert MayLeaveSpin(c, t, Token(c));
      SpinControl(c, t);
    }
  }

  /** No run sticks: until every thread is done one of them can do some of the remaining work. */
  lemma RunnerWorks(s: State)
    requires Inv(s) && Turnable(s.ctl) && !AllDone(s.ctl)
    ensures var t := Runner(s.ctl);
            && t < |s.ctl.pc|
            && Enabled(s, Event(t, LastPick(s, t)))
            && var r := Step(s, Event(t, LastPick(s, t))).ctl;
               r.gets <= r.puts <= r.M && Work(r) < Work(s.ctl)
  {
    RunnerAdvances(s.ctl);
    var t := Runner(s.ctl);
    if s.ctl.pc[t] in {CheckSlot, CheckValue} {
      HolderControl(s.ctl, t, Token(s.ctl));
      assert MayRead(s.mem, t, Target(s.ctl, t), LastPick(s, t));
    }
  }
}
