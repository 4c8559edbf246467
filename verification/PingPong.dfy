/**
 `TestAtomics00<false>` (samples/cpp_atomic_pong/src/main.cpp): two threads take turns through an atomic status, at the
 granularity of single loads and stores, and keep a record of plain data and a counter that is read and then written.
 */
module PingPong {
  import opened Runs
  import opened MemoryModel

  const IDLE := 0
  const PING := 1
  const PONG := 2

  /** The atomics `pingpong_counter`, `pingpong_status` and `threads_ready`. */
  const COUNTER: nat := 0
  const STATUS: nat := 1
  const READY: nat := 2

  /** Copy and Publish go through the four fields of the record one by one. */
  datatype Pc = Ready | Spin | Recheck | Copy | CheckCount | LoadCount | StoreCount | Publish | StoreStatus | Done

  /** `count` is the number of rounds left after this one, `pp` the local copy of the record: status, total_counter,
      ping_counter, pong_counter.  `loaded` is the counter value read before it is written. */
  datatype Local = Local(pc: Pc, count: nat, field: nat, pp: seq<int>, loaded: int, tls: int)

  /** Thread 0 runs `ping`, thread 1 `pong`; main, thread 2, waits for both to be ready and then joins them.  The record
      is in the four plain cells.  `mainTls` is main's own `tls_counter`; `failed` says that a REQUIRE failed. */
  datatype State = State(P: nat, threads: seq<Local>, joining: bool, mainTls: int, mem: Memory,
                         failed: bool)

  /** One step of thread `tid`; `pick` is the write a plain read returns. */
  datatype Event = Event(tid: nat, pick: nat)

  predicate Fits(s: State) {
    && |s.threads| == 2 && (forall t :: 0 <= t < 2 ==> |s.threads[t].pp| == 4 && s.threads[t].field < 4)
    && Valid(s.mem) && |s.mem.clocks| == 3 && |s.mem.cells| == 4 && |s.mem.atoms| == 3
  }

  /** The status that gives a thread its turn. */
  function Mine(t: nat): int {
    if t == 0 then PING else PONG
  }

  /** The status a thread leaves. */
  function Passes(t: nat, count: nat): int {
    if t == 0 then PONG else if count > 0 then PING else IDLE
  }

  /** `while(count--)` */
  function Again(l: Local): Local {
    if l.count > 0 then l.(pc := Spin, count := l.count - 1) else l.(pc := Done)
  }

  /** The changes a round makes to its copy of the record. */
  function Bump(t: nat, count: nat, pp: seq<int>): seq<int>
    requires |pp| == 4
  {
    if t == 0 then [Passes(t, count), pp[1] + 1, pp[2] + 1, pp[3]]
    else [Passes(t, count), pp[1] + 1, pp[2], pp[3] + 1]
  }

  /** What a step of thread `t` does to its locals when it finds these values. */
  function Advance(t: nat, l: Local, status: int, counter: int, plain: int): Local
    requires |l.pp| == 4 && l.field < 4
  {
    var next := if l.field < 3 then l.field + 1 else 0;
    match l.pc
    case Ready => Again(l)
    case Spin => if status == Mine(t) then l.(pc := Recheck) else l
    case Recheck => l.(pc := Copy, field := 0)
    case Copy => l.(pp := l.pp[l.field := plain], field := next, pc := if next == 0 then CheckCount else Copy)
    case CheckCount => l.(pc := LoadCount)
    case LoadCount => l.(pc := StoreCount, loaded := counter)
    case StoreCount => l.(pc := Publish, field := 0, tls := l.tls + 1, pp := Bump(t, l.count, l.pp))
    case Publish => l.(field := next, pc := if next == 0 then StoreStatus else Publish)
    case StoreStatus => Again(l)
    case Done => l
  }

  /** A REQUIRE that fails. */
  predicate Fails(t: nat, l: Local, status: int, counter: int)
    requires |l.pp| == 4
  {
    || (l.pc == Recheck && status != Mine(t))
    || (l.pc == CheckCount && !(&& l.pp[0] == Mine(t)
                                && counter == l.pp[1]
                                && l.pp[1] == l.pp[2] + l.pp[3]
                                && l.tls == if t == 0 then l.pp[2] else l.pp[3]))
  }

  function Effect(t: nat, l: Local, m: Memory): Memory
    requires Valid(m) && |m.clocks| == 3 && |m.cells| == 4 && |m.atoms| == 3 && t < 2
    requires |l.pp| == 4 && l.field < 4
  {
    match l.pc
    case Ready => Increment(m, t, READY)
    case Spin => Load(m, t, STATUS)
    case Recheck => Load(m, t, STATUS)
    case Copy => Read(m, t, l.field)
    case CheckCount => Load(m, t, COUNTER)
    case LoadCount => Load(m, t, COUNTER)
    case StoreCount => Store(m, t, COUNTER, l.loaded + 1)
    case Publish => Assign(m, t, l.field, l.pp[l.field])
    case StoreStatus => Store(m, t, STATUS, Passes(t, l.count))
    case Done => m
  }

  predicate Enabled(s: State, e: Event) {
    && Fits(s)
    && (e.tid == 2 ==> !s.joining)
    && e.tid <= 2
    && (e.tid < 2 ==>
          && s.threads[e.tid].pc != Done
          && (s.threads[e.tid].pc == Copy ==> MayRead(s.mem, e.tid, s.threads[e.tid].field, e.pick)))
  }

  function Plain(s: State, e: Event): int
    requires Fits(s) && e.tid < 2
  {
    var f := s.threads[e.tid].field;
    if e.pick < |s.mem.cells[f].writes| then s.mem.cells[f].writes[e.pick].value else 0
  }

  function Apply(s: State, e: Event): State
    requires Enabled(s, e)
  {
    var t, status, counter := e.tid, s.mem.atoms[STATUS].value, s.mem.atoms[COUNTER].value;
    if t == 2 then s.(joining := s.mem.atoms[READY].value == 2, mem := Load(s.mem, 2, READY))
    else
      s.(threads := s.threads[t := Advance(t, s.threads[t], status, counter, Plain(s, e))],
         mem := Effect(t, s.threads[t], s.mem),
         failed := s.failed || Fails(t, s.threads[t], status, counter))
  }

  function Step(s: State, e: Event): State {
    if Enabled(s, e) then Apply(s, e) else s
  }

  /** `reset(PING)` and the creation of the two threads, in either order */
  function Start(P: nat): State {
    State(P, seq(2, _ => Local(Ready, P, 0, [0, 0, 0, 0], 0, 0)), false, 0,
          Begin(2, [PING, 0, 0, 0], [0, PING, 0]), false)
  }

  // ----- Turns -----

  /** The rounds a thread has completed. */
  function Rounds(P: nat, l: Local): int {
    match l.pc case Ready => 0 case Done => P case _ => P - 1 - l.count
  }

  predicate Inside(pc: Pc) {
    pc !in {Ready, Spin, Done}
  }

  predicate Counted(pc: Pc) {
    pc in {Publish, StoreStatus}
  }

  function One(b: bool): nat {
    if b then 1 else 0
  }

  /** The status when `a` pings and `b` pongs are complete. */
  function StatusAt(P: nat, a: int, b: int): int {
    if a > b then PONG else if a == P && P > 0 then IDLE else PING
  }

  /** The record then. */
  function RecordAt(P: nat, a: int, b: int): seq<int> {
    [StatusAt(P, a, b), a + b, a, b]
  }

  /** Thread `t` has the turn. */
  predicate Turn(P: nat, a: int, b: int, t: nat) {
    if t == 0 then a == b < P else a == b + 1 <= P
  }

  predicate LocalFits(P: nat, l: Local) {
    && |l.pp| == 4 && l.field < 4
    && (l.pc == Ready ==> l.count == P) && (l.pc == Done ==> l.count == 0)
    && (l.pc !in {Ready, Done} ==> l.count < P)
    && (l.pc !in {Copy, Publish} ==> l.field == 0)
    && l.tls == Rounds(P, l) + One(Counted(l.pc))
  }

  predicate Turns(P: nat, x: Local, y: Local) {
    var a, b := Rounds(P, x), Rounds(P, y);
    && LocalFits(P, x) && LocalFits(P, y)
    && 0 <= b <= a <= b + 1 && a <= P
    && (Inside(x.pc) ==> Turn(P, a, b, 0)) && (Inside(y.pc) ==> Turn(P, a, b, 1))
  }

  lemma PingTurns(P: nat, x: Local, y: Local, counter: int, plain: int)
    requires Turns(P, x, y)
    ensures var a, b := Rounds(P, x), Rounds(P, y);
            var r := Advance(0, x, StatusAt(P, a, b), counter, plain);
            && Turns(P, r, y)
            && Rounds(P, r) == a + One(x.pc == StoreStatus)
            && (x.pc == StoreStatus ==> StatusAt(P, a + 1, b) == Passes(0, x.count))
  {
  }

  lemma PongTurns(P: nat, x: Local, y: Local, counter: int, plain: int)
    requires Turns(P, x, y)
    ensures var a, b := Rounds(P, x), Rounds(P, y);
            var r := Advance(1, y, StatusAt(P, a, b), counter, plain);
            && Turns(P, x, r)
            && Rounds(P, r) == b + One(y.pc == StoreStatus)
            && (y.pc == StoreStatus ==> StatusAt(P, a, b + 1) == Passes(1, y.count))
  {
  }

  // ----- The data under the turn -----

  predicate MemoryFits(m: Memory) {
    Valid(m) && |m.clocks| == 3 && |m.cells| == 4 && |m.atoms| == 3
  }

  /** The record a thread in its turn leaves. */
  function NextRecord(P: nat, a: int, b: int, t: nat): seq<int> {
    if t == 0 then RecordAt(P, a + 1, b) else RecordAt(P, a, b + 1)
  }

  /** What the local copy holds in the course of a turn. */
  predicate CopyHolds(P: nat, a: int, b: int, t: nat, l: Local) {
    && LocalFits(P, l)
    && match l.pc
       case Copy => forall k :: 0 <= k < l.field ==> l.pp[k] == RecordAt(P, a, b)[k]
       case CheckCount => l.pp == RecordAt(P, a, b)
       case LoadCount => l.pp == RecordAt(P, a, b)
       case StoreCount => l.pp == RecordAt(P, a, b) && l.loaded == a + b
       case Publish => l.pp == NextRecord(P, a, b, t)
       case StoreStatus => l.pp == NextRecord(P, a, b, t)
       case _ => true
  }

  /** Field `k` of the shared record has been written in this turn. */
  predicate Fresher(l: Local, k: nat) {
    (l.pc == Publish && k < l.field) || l.pc == StoreStatus
  }

  predicate CellsHold(P: nat, a: int, b: int, t: nat, l: Local, cells: seq<Cell>)
    requires |cells| == 4
  {
    forall k :: 0 <= k < 4 ==>
      && cells[k].writes != []
      && Last(cells[k]) == (if Fresher(l, k) then NextRecord(P, a, b, t)[k] else RecordAt(P, a, b)[k])
  }

  /** What holds in the course of the turn of thread `t`. */
  ghost predicate InTurn(P: nat, a: int, b: int, t: nat, l: Local, m: Memory) {
    && MemoryFits(m) && t < 2 && !m.raced
    && Turn(P, a, b, t) && Rounds(P, l) == (if t == 0 then a else b)
    && CopyHolds(P, a, b, t, l)
    && CellsHold(P, a, b, t, l, m.cells)
    && m.atoms[STATUS].value == StatusAt(P, a, b)
    && m.atoms[COUNTER].value == a + b + One(Counted(l.pc))
    && Covers(m.clocks[t], m.cells)
  }

  /** What holds between two turns: whoever reads the status will know every plain access. */
  ghost predicate Between(P: nat, a: int, b: int, m: Memory) {
    && MemoryFits(m) && !m.raced
    && (forall k :: 0 <= k < 4 ==> Last(m.cells[k]) == RecordAt(P, a, b)[k])
    && m.atoms[STATUS].value == StatusAt(P, a, b)
    && m.atoms[COUNTER].value == a + b
    && Covers(m.atoms[STATUS].clock, m.cells)
  }

  lemma BeginTurn(P: nat, a: int, b: int, t: nat, l: Local, m: Memory)
    requires Between(P, a, b, m) && Turn(P, a, b, t) && t < 2
    requires LocalFits(P, l) && l.pc == Spin && Rounds(P, l) == (if t == 0 then a else b)
    ensures InTurn(P, a, b, t, Advance(t, l, m.atoms[STATUS].value, 0, 0), Load(m, t, STATUS))
  {
    LoadCovers(m, t, STATUS);
  }

  lemma Checks(P: nat, a: int, b: int, t: nat, l: Local, m: Memory)
    requires InTurn(P, a, b, t, l, m) && l.pc in {Recheck, CheckCount, LoadCount}
    ensures var r := Advance(t, l, m.atoms[STATUS].value, m.atoms[COUNTER].value, 0);
            InTurn(P, a, b, t, r, Effect(t, l, m)) && !Fails(t, l, m.atoms[STATUS].value, m.atoms[COUNTER].value)
  {
    LoadCovers(m, t, STATUS);
    LoadCovers(m, t, COUNTER);
  }

  lemma CopiesField(P: nat, a: int, b: int, t: nat, l: Local, m: Memory, pick: nat)
    requires InTurn(P, a, b, t, l, m) && l.pc == Copy && MayRead(m, t, l.field, pick)
    ensures InTurn(P, a, b, t, Advance(t, l, 0, 0, m.cells[l.field].writes[pick].value), Effect(t, l, m))
  {
    ReadLast(m, t, l.field, pick);
    ReadCovers(m, t, l.field);
  }

  lemma BumpIsNext(P: nat, a: int, b: int, t: nat, l: Local)
    requires Turn(P, a, b, t) && t < 2 && Rounds(P, l) == (if t == 0 then a else b)
    requires LocalFits(P, l) && l.pc == StoreCount && l.pp == RecordAt(P, a, b)
    ensures CopyHolds(P, a, b, t, Advance(t, l, 0, 0, 0))
    ensures Rounds(P, Advance(t, l, 0, 0, 0)) == Rounds(P, l)
  {
  }

  lemma StoresCount(P: nat, a: int, b: int, t: nat, l: Local, m: Memory)
    requires InTurn(P, a, b, t, l, m) && l.pc == StoreCount
    ensures InTurn(P, a, b, t, Advance(t, l, 0, 0, 0), Effect(t, l, m))
  {
    BumpIsNext(P, a, b, t, l);
    StoreCovers(m, t, COUNTER, l.loaded + 1);
  }

  lemma PublishesField(P: nat, a: int, b: int, t: nat, l: Local, m: Memory)
    requires InTurn(P, a, b, t, l, m) && l.pc == Publish
    ensures InTurn(P, a, b, t, Advance(t, l, 0, 0, 0), Effect(t, l, m))
  {
    AssignCovers(m, t, l.field, l.pp[l.field]);
  }

  lemma EndTurn(P: nat, a: int, b: int, t: nat, l: Local, m: Memory)
    requires InTurn(P, a, b, t, l, m) && l.pc == StoreStatus
    ensures Between(P, a + One(t == 0), b + One(t == 1), Effect(t, l, m))
  {
    StoreCovers(m, t, STATUS, Passes(t, l.count));
  }

  /** Outside its turns a thread touches nothing that the turns are about. */
  lemma LoadsBetween(P: nat, a: int, b: int, t: nat, atom: nat, m: Memory)
    requires Between(P, a, b, m) && t < 3 && atom < 3
    ensures Between(P, a, b, Load(m, t, atom))
  {
    LoadCovers(m, t, atom);
  }

  lemma LoadsInTurn(P: nat, a: int, b: int, u: nat, l: Local, t: nat, atom: nat, m: Memory)
    requires InTurn(P, a, b, u, l, m) && t < 3 && t != u && atom < 3
    ensures InTurn(P, a, b, u, l, Load(m, t, atom))
  {
    LoadCovers(m, t, atom);
  }

  lemma StoresReadyBetween(P: nat, a: int, b: int, t: nat, v: int, m: Memory)
    requires Between(P, a, b, m) && t < 3
    ensures Between(P, a, b, Store(m, t, READY, v))
  {
    StoreCovers(m, t, READY, v);
  }

  lemma StoresReadyInTurn(P: nat, a: int, b: int, u: nat, l: Local, t: nat, v: int, m: Memory)
    requires InTurn(P, a, b, u, l, m) && t < 3 && t != u
    ensures InTurn(P, a, b, u, l, Store(m, t, READY, v))
  {
    StoreCovers(m, t, READY, v);
  }

  ghost predicate Data(P: nat, x: Local, y: Local, m: Memory) {
    var a, b := Rounds(P, x), Rounds(P, y);
    if Inside(x.pc) then InTurn(P, a, b, 0, x, m)
    else if Inside(y.pc) then InTurn(P, a, b, 1, y, m)
    else Between(P, a, b, m)
  }

  ghost predicate Inv(s: State) {
    && Fits(s) && !s.failed
    && Turns(s.P, s.threads[0], s.threads[1])
    && Data(s.P, s.threads[0], s.threads[1], s.mem)
    && s.mem.atoms[READY].value == One(s.threads[0].pc != Ready) + One(s.threads[1].pc != Ready)
    && (s.joining ==> s.mem.atoms[READY].value == 2)
    && s.mainTls == 0
  }

  lemma LoadsData(P: nat, x: Local, y: Local, m: Memory, t: nat, atom: nat)
    requires Turns(P, x, y) && Data(P, x, y, m) && t < 3 && atom < 3
    requires (t == 0 ==> !Inside(x.pc)) && (t == 1 ==> !Inside(y.pc))
    ensures Data(P, x, y, Load(m, t, atom))
  {
    var a, b := Rounds(P, x), Rounds(P, y);
    if Inside(x.pc) { LoadsInTurn(P, a, b, 0, x, t, atom, m); }
    else if Inside(y.pc) { LoadsInTurn(P, a, b, 1, y, t, atom, m); }
    else { LoadsBetween(P, a, b, t, atom, m); }
  }

  lemma StoresReadyData(P: nat, x: Local, y: Local, m: Memory, t: nat, v: int)
    requires Turns(P, x, y) && Data(P, x, y, m) && t < 3
    requires (t == 0 ==> !Inside(x.pc)) && (t == 1 ==> !Inside(y.pc))
    ensures Data(P, x, y, Store(m, t, READY, v))
  {
    var a, b := Rounds(P, x), Rounds(P, y);
    if Inside(x.pc) { StoresReadyInTurn(P, a, b, 0, x, t, v, m); }
    else if Inside(y.pc) { StoresReadyInTurn(P, a, b, 1, y, t, v, m); }
    else { StoresReadyBetween(P, a, b, t, v, m); }
  }

  /** One step inside a turn. */
  lemma TurnStep(P: nat, a: int, b: int, t: nat, l: Local, m: Memory, pick: nat, plain: int)
    requires InTurn(P, a, b, t, l, m) && Inside(l.pc) && l.pc != StoreStatus
    requires l.pc == Copy ==> MayRead(m, t, l.field, pick) && plain == m.cells[l.field].writes[pick].value
    ensures InTurn(P, a, b, t, Advance(t, l, m.atoms[STATUS].value, m.atoms[COUNTER].value, plain), Effect(t, l, m))
    ensures !Fails(t, l, m.atoms[STATUS].value, m.atoms[COUNTER].value)
  {
    match l.pc {
      case Copy => CopiesField(P, a, b, t, l, m, pick);
      case StoreCount => StoresCount(P, a, b, t, l, m);
      case Publish => PublishesField(P, a, b, t, l, m);
      case _ => Checks(P, a, b, t, l, m);
    }
  }

  // ----- Every step -----

  lemma TurnsStep(s: State, e: Event)
    requires Inv(s) && Enabled(s, e) && e.tid < 2
    ensures var r, t, x := Apply(s, e), e.tid, s.threads[e.tid];
            var a, b := Rounds(s.P, s.threads[0]), Rounds(s.P, s.threads[1]);
            && |r.threads| == 2 && Turns(s.P, r.threads[0], r.threads[1])
            && Rounds(s.P, r.threads[0]) == a + One(t == 0 && x.pc == StoreStatus)
            && Rounds(s.P, r.threads[1]) == b + One(t == 1 && x.pc == StoreStatus)
  {
    var a, b := Rounds(s.P, s.threads[0]), Rounds(s.P, s.threads[1]);
    assert s.mem.atoms[STATUS].value == StatusAt(s.P, a, b);
    if e.tid == 0 {
      PingTurns(s.P, s.threads[0], s.threads[1], s.mem.atoms[COUNTER].value, Plain(s, e));
    } else {
      PongTurns(s.P, s.threads[0], s.threads[1], s.mem.atoms[COUNTER].value, Plain(s, e));
    }
  }

  lemma ReadyData(s: State, e: Event)
    requires Inv(s) && Enabled(s, e) && e.tid < 2 && s.threads[e.tid].pc == Ready
    ensures var r := Apply(s, e);
            && Data(s.P, r.threads[0], r.threads[1], r.mem)
            && r.mem.atoms[READY].value == s.mem.atoms[READY].value + 1
  {
    LoadsData(s.P, s.threads[0], s.threads[1], s.mem, e.tid, READY);
    var v := s.mem.atoms[READY].value + 1;
    StoresReadyData(s.P, s.threads[0], s.threads[1], Load(s.mem, e.tid, READY), e.tid, v);
    TurnsStep(s, e);
  }

  lemma SpinData(s: State, e: Event)
    requires Inv(s) && Enabled(s, e) && e.tid < 2 && s.threads[e.tid].pc == Spin
    ensures var r := Apply(s, e); Data(s.P, r.threads[0], r.threads[1], r.mem)
  {
    var a, b := Rounds(s.P, s.threads[0]), Rounds(s.P, s.threads[1]);
    if s.mem.atoms[STATUS].value == Mine(e.tid) {
      BeginTurn(s.P, a, b, e.tid, s.threads[e.tid], s.mem);
    } else {
      LoadsData(s.P, s.threads[0], s.threads[1], s.mem, e.tid, STATUS);
    }
  }

  lemma StaysInside(P: nat, t: nat, l: Local, status: int, counter: int, plain: int)
    requires LocalFits(P, l) && Inside(l.pc) && l.pc != StoreStatus
    ensures var r := Advance(t, l, status, counter, plain);
            Inside(r.pc) && Rounds(P, r) == Rounds(P, l)
  {
  }

  lemma PingData(P: nat, x: Local, y: Local, m: Memory, pick: nat, plain: int)
    requires Turns(P, x, y) && Data(P, x, y, m) && Inside(x.pc) && x.pc != StoreStatus
    requires x.pc == Copy ==> MayRead(m, 0, x.field, pick) && plain == m.cells[x.field].writes[pick].value
    ensures Data(P, Advance(0, x, m.atoms[STATUS].value, m.atoms[COUNTER].value, plain), y, Effect(0, x, m))
    ensures !Fails(0, x, m.atoms[STATUS].value, m.atoms[COUNTER].value)
  {
    TurnStep(P, Rounds(P, x), Rounds(P, y), 0, x, m, pick, plain);
    StaysInside(P, 0, x, m.atoms[STATUS].value, m.atoms[COUNTER].value, plain);
  }

  lemma PongData(P: nat, x: Local, y: Local, m: Memory, pick: nat, plain: int)
    requires Turns(P, x, y) && Data(P, x, y, m) && Inside(y.pc) && y.pc != StoreStatus
    requires y.pc == Copy ==> MayRead(m, 1, y.field, pick) && plain == m.cells[y.field].writes[pick].value
    ensures Data(P, x, Advance(1, y, m.atoms[STATUS].value, m.atoms[COUNTER].value, plain), Effect(1, y, m))
    ensures !Fails(1, y, m.atoms[STATUS].value, m.atoms[COUNTER].value)
  {
    TurnStep(P, Rounds(P, x), Rounds(P, y), 1, y, m, pick, plain);
    StaysInside(P, 1, y, m.atoms[STATUS].value, m.atoms[COUNTER].value, plain);
  }

  lemma InsideData(s: State, e: Event)
    requires Inv(s) && Enabled(s, e) && e.tid < 2 && Inside(s.threads[e.tid].pc) && s.threads[e.tid].pc != StoreStatus
    ensures var r := Apply(s, e); Data(s.P, r.threads[0], r.threads[1], r.mem) && !r.failed
  {
    if e.tid == 0 {
      PingData(s.P, s.threads[0], s.threads[1], s.mem, e.pick, Plain(s, e));
    } else {
      PongData(s.P, s.threads[0], s.threads[1], s.mem, e.pick, Plain(s, e));
    }
  }

  lemma EndData(s: State, e: Event)
    requires Inv(s) && Enabled(s, e) && e.tid < 2 && s.threads[e.tid].pc == StoreStatus
    ensures var r := Apply(s, e); Data(s.P, r.threads[0], r.threads[1], r.mem)
  {
    var a, b := Rounds(s.P, s.threads[0]), Rounds(s.P, s.threads[1]);
    EndTurn(s.P, a, b, e.tid, s.threads[e.tid], s.mem);
    TurnsStep(s, e);
  }

  lemma ReadyFrame(s: State, e: Event)
    requires Inv(s) && Enabled(s, e) && e.tid < 2 && s.threads[e.tid].pc != Ready
    ensures Apply(s, e).mem.atoms[READY].value == s.mem.atoms[READY].value
    ensures s.threads[e.tid].pc in {Spin, StoreStatus} ==> Apply(s, e).failed == s.failed
    ensures Apply(s, e).threads[e.tid].pc != Ready
  {
  }

  lemma MainStep(s: State, e: Event)
    requires Inv(s) && Enabled(s, e) && e.tid == 2
    ensures Inv(Apply(s, e))
  {
    LoadsData(s.P, s.threads[0], s.threads[1], s.mem, 2, READY);
  }

  lemma StepData(s: State, e: Event)
    requires Inv(s) && Enabled(s, e) && e.tid < 2
    ensures var r := Apply(s, e); Data(s.P, r.threads[0], r.threads[1], r.mem)
  {
    if s.threads[e.tid].pc == Ready { ReadyData(s, e); }
    else if s.threads[e.tid].pc == Spin { SpinData(s, e); }
    else if s.threads[e.tid].pc == StoreStatus { EndData(s, e); }
    else { InsideData(s, e); }
  }

  lemma StepPasses(s: State, e: Event)
    requires Inv(s) && Enabled(s, e) && e.tid < 2
    ensures !Apply(s, e).failed
  {
    if Inside(s.threads[e.tid].pc) && s.threads[e.tid].pc != StoreStatus {
      InsideData(s, e);
    } else if s.threads[e.tid].pc != Ready {
      ReadyFrame(s, e);
    }
  }

  lemma StepReady(s: State, e: Event)
    requires Inv(s) && Enabled(s, e) && e.tid < 2 && |Apply(s, e).threads| == 2
    requires MemoryFits(Apply(s, e).mem)
    ensures var r := Apply(s, e);
            && r.mem.atoms[READY].value == One(r.threads[0].pc != Ready) + One(r.threads[1].pc != Ready)
            && (s.joining ==> r.mem.atoms[READY].value == 2)
  {
    if s.threads[e.tid].pc == Ready {
      ReadyData(s, e);
    } else {
      ReadyFrame(s, e);
    }
  }

  lemma ThreadFrame(s: State, e: Event)
    requires Enabled(s, e) && e.tid < 2
    ensures Apply(s, e).P == s.P && Apply(s, e).joining == s.joining && Apply(s, e).mainTls == s.mainTls
    ensures |Apply(s, e).threads| == 2
  {
  }

  lemma StepFits(s: State)
    requires |s.threads| == 2 && Turns(s.P, s.threads[0], s.threads[1])
    requires Data(s.P, s.threads[0], s.threads[1], s.mem)
    ensures Fits(s) && MemoryFits(s.mem)
  {
  }

  lemma ThreadStep(s: State, e: Event)
    requires Inv(s) && Enabled(s, e) && e.tid < 2
    ensures Inv(Apply(s, e))
  {
    ThreadFrame(s, e);
    TurnsStep(s, e);
    StepData(s, e);
    StepFits(Apply(s, e));
    StepPasses(s, e);
    StepReady(s, e);
  }

  lemma StepInv(s: State, e: Event)
    requires Inv(s)
    ensures Inv(Step(s, e)) && Step(s, e).P == s.P
  {
    if Enabled(s, e) {
      if e.tid == 2 {
        MainStep(s, e);
      } else {
        ThreadStep(s, e);
        ThreadFrame(s, e);
      }
    }
  }

  // ----- All runs -----

  lemma StartInv(P: nat)
    ensures Inv(Start(P))
  {
    BeginCovers(2, [PING, 0, 0, 0], [0, PING, 0]);
    assert RecordAt(P, 0, 0) == [PING, 0, 0, 0];
  }

  lemma {:induction false} RunInv(P: nat, es: seq<Event>)
    ensures var s := Exec(Step, Start(P), es); Inv(s) && s.P == P
  {
    var inv := (t: State) => Inv(t) && t.P == P;
    StartInv(P);
    forall t, e | inv(t) ensures inv(Step(t, e)) {
      StepInv(t, e);
    }
    Invariance(Step, inv, Start(P), es);
  }

  predicate AllDone(s: State) {
    forall t :: 0 <= t < |s.threads| ==> s.threads[t].pc == Done
  }

  /** No run has a data race or fails a REQUIRE.  At most one thread is ever in a turn, and only the one whose turn the
      status says it is; PING means as many pongs as pings, PONG one ping more; no increment of the counter is lost,
      although it is read and then written; each tls counter counts its own thread's rounds. */
  lemma {:induction false} EveryRunTakesTurns(P: nat, es: seq<Event>)
    ensures var s := Exec(Step, Start(P), es);
            && Fits(s) && s.P == P
            && !s.mem.raced && !s.failed
            && var x, y, a, b := s.threads[0], s.threads[1], Rounds(P, s.threads[0]), Rounds(P, s.threads[1]);
            && !(Inside(x.pc) && Inside(y.pc))
            && (Inside(x.pc) ==> s.mem.atoms[STATUS].value == PING)
            && (Inside(y.pc) ==> s.mem.atoms[STATUS].value == PONG)
            && (s.mem.atoms[STATUS].value == PING ==> a == b)
            && (s.mem.atoms[STATUS].value == PONG ==> a == b + 1)
            && (s.mem.atoms[STATUS].value == IDLE ==> a == b == P)
            && s.mem.atoms[COUNTER].value == a + b + One(Counted(x.pc)) + One(Counted(y.pc))
            && x.tls == a + One(Counted(x.pc)) && y.tls == b + One(Counted(y.pc))
  {
    RunInv(P, es);
  }

  /** Outside the turns the shared record says how many rounds have been played. */
  lemma {:induction false} RecordIsExact(P: nat, es: seq<Event>)
    ensures var s := Exec(Step, Start(P), es);
            && Fits(s)
            && !Inside(s.threads[0].pc) && !Inside(s.threads[1].pc) ==>
              forall k :: 0 <= k < 4 ==>
                Last(s.mem.cells[k]) == RecordAt(P, Rounds(P, s.threads[0]), Rounds(P, s.threads[1]))[k]
  {
    RunInv(P, es);
  }
}
