/**
 How every ping-pong run ends: it can always be completed, takes a fixed number of steps besides failed spins, contains
 no data race, and leaves what main requires exactly when there is something to play.
 */
module PingPongLimits {
  import opened Runs
  import opened MemoryModel
  import opened HappensBefore
  import opened PingPong

  // ----- Progress -----

  /** The steps left to a thread, failed spins apart: fourteen a round. */
  function Left(l: Local): int {
    14 * l.count +
    match l.pc
    case Ready => 1 case Spin => 14 case Recheck => 13 case Copy => 12 - l.field case CheckCount => 8
    case LoadCount => 7 case StoreCount => 6 case Publish => 5 - l.field case StoreStatus => 1 case Done => 0
  }

  function Work(s: State): int
    requires Fits(s)
  {
    Left(s.threads[0]) + Left(s.threads[1]) + One(!s.joining)
  }

  lemma WorkIsPositive(s: State)
    requires Fits(s)
    ensures 0 <= Work(s)
  {
    assert s.threads[0].field < 4 && s.threads[1].field < 4;
  }

  /** The step of a thread is not a failed spin. */
  predicate Moves(s: State, e: Event) {
    Enabled(s, e) && (Apply(s, e).threads != s.threads || Apply(s, e).joining != s.joining)
  }

  lemma AdvanceLeft(t: nat, l: Local, status: int, counter: int, plain: int)
    requires |l.pp| == 4 && l.field < 4 && l.pc != Done && (l.pc in {Publish, Copy} || l.field == 0)
    ensures var r := Advance(t, l, status, counter, plain);
            if l.pc == Spin && status != Mine(t) then r == l else Left(r) == Left(l) - 1
  {
  }

  lemma ThreadLeft(s: State, e: Event)
    requires Fits(s) && Enabled(s, e) && e.tid < 2 && LocalFits(s.P, s.threads[e.tid])
    ensures var r, l := Apply(s, e), s.threads[e.tid];
            && |r.threads| == 2 && r.joining == s.joining
            && (if r.threads == s.threads then l.pc == Spin else
                Left(r.threads[0]) + Left(r.threads[1]) == Left(s.threads[0]) + Left(s.threads[1]) - 1)
  {
    AdvanceLeft(e.tid, s.threads[e.tid], s.mem.atoms[STATUS].value, s.mem.atoms[COUNTER].value, Plain(s, e));
  }

  /** Every step that is not a failed spin does one unit of the remaining work. */
  lemma OnlySpinsAreIdle(s: State, e: Event)
    requires Inv(s) && Enabled(s, e)
    ensures var r := Step(s, e);
            && Fits(r)
            && Work(r) == Work(s) - One(Moves(s, e))
            && (!Moves(s, e) ==> e.tid == 2 || s.threads[e.tid].pc == Spin)
  {
    StepInv(s, e);
    if e.tid < 2 {
      ThreadLeft(s, e);
    }
  }

  predicate Finished(s: State) {
    AllDone(s) && s.joining
  }

  function WorkLeft(s: State): int {
    if Fits(s) then Work(s) else 0
  }

  lemma MovesSpend()
    ensures Spends(Step, Inv, WorkLeft, Moves)
  {
    forall s: State, e: Event | Inv(s)
      ensures Inv(Step(s, e)) && WorkLeft(Step(s, e)) == WorkLeft(s) - if Moves(s, e) then 1 else 0
    {
      StepInv(s, e);
      if Enabled(s, e) {
        OnlySpinsAreIdle(s, e);
      }
    }
  }

  /** The number of steps of a run that are not failed spins. */
  function MovesMade(P: nat, es: seq<Event>): nat {
    StepsWhere(Step, Moves, Start(P), es)
  }

  lemma {:induction false} MovesMadeAre(P: nat, es: seq<Event>)
    ensures var s := Exec(Step, Start(P), es);
            Inv(s) && MovesMade(P, es) + Work(s) == 28 * P + 3
  {
    StartInv(P);
    MovesSpend();
    WorkAddsUp(Step, Inv, WorkLeft, Moves, Start(P), es);
  }

  lemma NoWorkIsFinished(s: State)
    requires Inv(s)
    ensures Work(s) == 0 <==> Finished(s)
  {
    WorkIsPositive(s);
  }

  /** Failed spins apart no run makes more than 28*P+3 steps, and it is over exactly when it has made them. */
  lemma {:induction false} EveryRunIsBounded(P: nat, es: seq<Event>)
    ensures MovesMade(P, es) <= 28 * P + 3
    ensures MovesMade(P, es) == 28 * P + 3 <==> Finished(Exec(Step, Start(P), es))
  {
    MovesMadeAre(P, es);
    var s := Exec(Step, Start(P), es);
    WorkIsPositive(s);
    NoWorkIsFinished(s);
  }

  /** A thread that can do more than spin: until the run is over there always is one. */
  function Mover(s: State): nat
    requires Fits(s)
  {
    if s.threads[0].pc == Ready then 0
    else if s.threads[1].pc == Ready then 1
    else if !s.joining then 2
    else if s.mem.atoms[STATUS].value == PING && s.threads[0].pc != Done then 0
    else 1
  }

  function LastPick(s: State, t: nat): nat
    requires Fits(s)
  {
    if t < 2 then |s.mem.cells[s.threads[t].field].writes| - 1 else 0
  }

  lemma SomeoneMoves(s: State)
    requires Inv(s) && !Finished(s)
    ensures Moves(s, Event(Mover(s), LastPick(s, Mover(s))))
  {
    var t := Mover(s);
    var e := Event(t, LastPick(s, t));
    assert Enabled(s, e);
    if t < 2 {
      AdvanceLeft(t, s.threads[t], s.mem.atoms[STATUS].value, s.mem.atoms[COUNTER].value, Plain(s, e));
      assert Left(Apply(s, e).threads[t]) != Left(s.threads[t]);
    }
  }

  lemma {:induction false} Finish(s: State) returns (es: seq<Event>)
    requires Inv(s)
    ensures Finished(Exec(Step, s, es))
    decreases Work(s)
  {
    WorkIsPositive(s);
    if Finished(s) {
      es := [];
    } else {
      SomeoneMoves(s);
      var e := Event(Mover(s), LastPick(s, Mover(s)));
      OnlySpinsAreIdle(s, e);
      StepInv(s, e);
      WorkIsPositive(Step(s, e));
      var rest := Finish(Step(s, e));
      es := [e] + rest;
      ExecCons(Step, s, e, rest);
    }
  }

  /** Whatever has happened so far, main can still see both threads ready and all three can finish. */
  lemma {:induction false} EveryRunCanFinish(P: nat, es: seq<Event>)
    ensures exists fs :: Finished(Exec(Step, Start(P), es + fs))
  {
    RunInv(P, es);
    var fs := Finish(Exec(Step, Start(P), es));
    ExecAppend(Step, Start(P), es, fs);
  }

  // ----- Data races, from their definition -----

  /** The memory operations of the next step. */
  function Actions(s: State, t: nat): seq<Op>
    requires Fits(s) && t <= 2
  {
    if t == 2 then [OpLoad(2, READY)]
    else
      var l := s.threads[t];
      match l.pc
      case Ready => [OpLoad(t, READY), OpStore(t, READY, s.mem.atoms[READY].value + 1)]
      case Spin => [OpLoad(t, STATUS)]
      case Recheck => [OpLoad(t, STATUS)]
      case Copy => [OpRead(t, l.field)]
      case CheckCount => [OpLoad(t, COUNTER)]
      case LoadCount => [OpLoad(t, COUNTER)]
      case StoreCount => [OpStore(t, COUNTER, l.loaded + 1)]
      case Publish => [OpAssign(t, l.field, l.pp[l.field])]
      case StoreStatus => [OpStore(t, STATUS, Passes(t, l.count))]
      case Done => []
  }

  /** The memory operations of a run. */
  function Trace(s: State, es: seq<Event>): seq<Op> {
    if es == [] then []
    else
      var r := Exec(Step, s, es[..|es| - 1]);
      var e := es[|es| - 1];
      Trace(s, es[..|es| - 1]) + if Enabled(r, e) then Actions(r, e.tid) else []
  }

  lemma StepIsActions(s: State, e: Event)
    requires Enabled(s, e)
    ensures var ops := Actions(s, e.tid);
            && 1 <= |ops| <= 2 && InRange(s.mem, ops[0])
            && var m := Do(s.mem, ops[0]);
            && Valid(m)
            && (|ops| == 1 ==> Step(s, e).mem == m)
            && (|ops| == 2 ==> InRange(m, ops[1]) && Step(s, e).mem == Do(m, ops[1]))
            && |m.clocks| == |s.mem.clocks| && |m.cells| == |s.mem.cells| && |m.atoms| == |s.mem.atoms|
  {
  }

  lemma OneExtends(m: Memory, ops: seq<Op>, more: seq<Op>, r: Memory)
    requires Valid(m) && AllInRange(m, ops) && |more| == 1 && InRange(m, more[0]) && After(m, ops, |ops|) == r
    ensures Valid(r) && InRange(r, more[0])
    ensures AllInRange(m, ops + more) && After(m, ops + more, |ops + more|) == Do(r, more[0])
  {
    assert more == [more[0]];
    AfterAppended(m, ops, r, more[0]);
  }

  lemma TwoExtend(m: Memory, ops: seq<Op>, more: seq<Op>, r: Memory)
    requires Valid(m) && AllInRange(m, ops) && |more| == 2 && InRange(m, more[0]) && InRange(m, more[1])
    requires After(m, ops, |ops|) == r
    ensures Valid(r) && InRange(r, more[0]) && Valid(Do(r, more[0])) && InRange(Do(r, more[0]), more[1])
    ensures AllInRange(m, ops + more) && After(m, ops + more, |ops + more|) == Do(Do(r, more[0]), more[1])
  {
    assert ops + more == ops + [more[0]] + [more[1]];
    AfterTwoMore(m, ops, r, more[0], more[1]);
  }

  lemma ActionsExtend(m: Memory, ops: seq<Op>, s: State, e: Event)
    requires Valid(m) && AllInRange(m, ops) && After(m, ops, |ops|) == s.mem && Enabled(s, e)
    ensures var all := ops + Actions(s, e.tid);
            AllInRange(m, all) && After(m, all, |all|) == Step(s, e).mem
  {
    StepIsActions(s, e);
    if |Actions(s, e.tid)| == 1 {
      OneExtends(m, ops, Actions(s, e.tid), s.mem);
    } else {
      TwoExtend(m, ops, Actions(s, e.tid), s.mem);
    }
  }

  lemma {:induction false} TraceRuns(P: nat, es: seq<Event>)
    ensures var s, ops := Start(P), Trace(Start(P), es);
            AllInRange(s.mem, ops) && After(s.mem, ops, |ops|) == Exec(Step, s, es).mem
  {
    if es != [] {
      var s, front, e := Start(P), es[..|es| - 1], es[|es| - 1];
      TraceRuns(P, front);
      if Enabled(Exec(Step, s, front), e) {
        ActionsExtend(s.mem, Trace(s, front), Exec(Step, s, front), e);
      } else {
        assert Trace(s, es) == Trace(s, front);
      }
    }
  }

  /** No execution of the test contains a data race. */
  lemma {:induction false} NoDataRace(P: nat, es: seq<Event>)
    ensures !DataRace(Trace(Start(P), es))
  {
    var s := Start(P);
    TraceRuns(P, es);
    BeginQuiet(2, [PING, 0, 0, 0], [0, PING, 0]);
    FlagIffDataRace(s.mem, Trace(s, es));
    EveryRunTakesTurns(P, es);
  }

  // ----- What main requires after joining both threads -----

  /** Main's memory after `pthread_join` of both threads. */
  function AfterJoin(m: Memory): (r: Memory)
    requires Valid(m) && |m.clocks| == 3
    ensures Valid(r)
  {
    m.(clocks := m.clocks[2 := Joined(m, 2, 2)])
  }

  lemma {:induction false} JoinKnowsAll(P: nat, es: seq<Event>)
    ensures var s := Exec(Step, Start(P), es);
            Fits(s) && Covers(AfterJoin(s.mem).clocks[2], s.mem.cells)
  {
    var s := Start(P);
    TraceRuns(P, es);
    RunInv(P, es);
    BeginFresh(2, [PING, 0, 0, 0], [0, PING, 0]);
    AfterFresh(s.mem, Trace(s, es), |Trace(s, es)|);
    JoinedAll(Exec(Step, s, es).mem, 2);
  }

  /** A copy of the record main may make: each field is a write its plain read may return. */
  ghost predicate MainMayCopy(s: State, pp: seq<int>)
    requires Fits(s)
  {
    |pp| == 4 && forall k: nat :: k < 4 ==> MayCopyField(AfterJoin(s.mem), k, pp[k])
  }

  ghost predicate MayCopyField(m: Memory, k: nat, v: int)
    requires Valid(m) && |m.clocks| == 3 && k < |m.cells|
  {
    exists pick: nat :: MayRead(m, 2, k, pick) && m.cells[k].writes[pick].value == v
  }

  /** The REQUIREs at the end of `test01`. */
  predicate FinalRequires(P: nat, pp: seq<int>, counter: int, status: int, tls: int)
    requires |pp| == 4
  {
    && P == pp[2] && P == pp[3] && 2 * P == pp[1] && 2 * P == counter
    && pp[0] == IDLE && status == IDLE
    && tls == 0
  }

  lemma FieldIsLast(m: Memory, k: nat, v: int)
    requires Valid(m) && |m.clocks| == 3 && k < |m.cells| && Covers(m.clocks[2], m.cells) && MayCopyField(m, k, v)
    ensures v == Last(m.cells[k])
  {
    var pick: nat :| MayRead(m, 2, k, pick) && m.cells[k].writes[pick].value == v;
    ReadLast(m, 2, k, pick);
  }

  lemma {:induction false} CopyIsRecord(P: nat, es: seq<Event>, pp: seq<int>)
    requires AllDone(Exec(Step, Start(P), es)) && Fits(Exec(Step, Start(P), es))
    requires MainMayCopy(Exec(Step, Start(P), es), pp)
    ensures pp == RecordAt(P, P, P)
  {
    var s := Exec(Step, Start(P), es);
    JoinKnowsAll(P, es);
    RecordIsExact(P, es);
    forall k: nat | k < 4 ensures pp[k] == RecordAt(P, P, P)[k] {
      FieldIsLast(AfterJoin(s.mem), k, pp[k]);
    }
  }

  /** Once both threads are done, whatever copy of the record main makes, its final REQUIREs hold exactly when at least
      one round was to be played: with none the status stays PING. */
  lemma {:induction false} FinalRequiresIffPlayed(P: nat, es: seq<Event>, pp: seq<int>)
    requires AllDone(Exec(Step, Start(P), es)) && Fits(Exec(Step, Start(P), es))
    requires MainMayCopy(Exec(Step, Start(P), es), pp)
    ensures var s := Exec(Step, Start(P), es);
            FinalRequires(P, pp, s.mem.atoms[COUNTER].value, s.mem.atoms[STATUS].value, s.mainTls) <==> P >= 1
  {
    CopyIsRecord(P, es, pp);
    RunInv(P, es);
  }
}
