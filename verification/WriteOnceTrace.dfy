/**
 What the threads of write once, read many do, operation by operation, and how far the write-back of a reader carries:
 who reads the atomic after it knows what the reader has read, until another store replaces it.
 */
module WriteOnceTrace {
  import opened Runs
  import opened MemoryModel
  import opened HappensBefore
  import opened Traces
  import opened WriteOnce
  import opened WriteOnceLimits

  // ----- The programs of the threads -----

  /** `array[i] = startValue+i` for the first `n` slots */
  function Fills(n: nat, start: int): seq<Op> {
    if n == 0 then [] else Fills(n - 1, start) + [OpAssign(0, n, start + n - 1)]
  }

  /** reading the first `n` slots */
  function SlotReads(t: nat, n: nat): seq<Op> {
    if n == 0 then [] else SlotReads(t, n - 1) + [OpRead(t, n)]
  }

  /** Loads apart, what a thread does from its start to its end. */
  function Program(t: nat, slots: nat, start: int): seq<Op> {
    if t == 0 then Fills(slots, start) + [OpAssign(0, 0, start)] + [OpStore(0, 0, start)]
    else [OpRead(t, 0)] + SlotReads(t, slots) + [OpStore(t, 0, start)]
  }

  function Span(c: Control): nat {
    if c.len < 0 then 0 else c.len
  }

  /** The part of its program thread `t` has done. */
  function Made(c: Control, t: nat): seq<Op>
    requires Shape(c) && t <= c.R
  {
    match c.pc[t]
    case Acquire => []
    case Fill => Fills(c.at[t], c.start)
    case Release => Fills(Span(c), c.start) + [OpAssign(0, 0, c.start)]
    case Spin => []
    case Recheck => []
    case CheckValue => []
    case CheckSlots => [OpRead(t, 0)] + SlotReads(t, c.at[t])
    case Done => Program(t, Span(c), c.start)
  }

  predicate InStep(c: Control, t: nat)
    requires Shape(c) && t <= c.R
  {
    c.at[t] <= Span(c) && (c.pc[t] in {Acquire, Spin, Recheck, CheckValue} ==> c.at[t] == 0)
  }

  lemma NextMade(c: Control, t: nat, sync: int)
    requires Shape(c) && t <= c.R && c.pc[t] != Done && InStep(c, t)
    ensures var d := Next(c, t, sync);
            && Shape(d) && Same(c, d) && InStep(d, t)
            && Made(d, t) == Made(c, t) + if Action(c, t).OpLoad? then [] else [Action(c, t)]
  {
    var d := Next(c, t, sync);
    if c.pc[t] in {Fill, CheckSlots} && c.at[t] < c.len {
      assert Target(c, t) == d.at[t];
    } else if c.pc[t] == CheckValue {
      assert SlotReads(t, 0) == [];
    }
  }

  lemma NextKeepsOthers(c: Control, t: nat, sync: int, u: nat)
    requires Shape(c) && t <= c.R && u <= c.R && u != t && Shape(Next(c, t, sync)) && InStep(c, u)
    ensures InStep(Next(c, t, sync), u) && Made(Next(c, t, sync), u) == Made(c, u)
  {
  }

  /** Each thread has done its program so far, and nothing else. */
  ghost predicate Followed(c: Control, ops: seq<Op>) {
    Shape(c) && forall t :: 0 <= t <= c.R ==> InStep(c, t) && Own(ops, t) == Made(c, t)
  }

  lemma StepFollowed(s: State, e: Event, ops: seq<Op>)
    requires Enabled(s, e) && Followed(s.ctl, ops)
    ensures Followed(Step(s, e).ctl, ops + [Action(s.ctl, e.tid)]) && Same(s.ctl, Step(s, e).ctl)
  {
    var c, sync, op := s.ctl, s.mem.atoms[0].value, Action(s.ctl, e.tid);
    NextMade(c, e.tid, sync);
    var d := Next(c, e.tid, sync);
    forall u | 0 <= u <= c.R ensures InStep(d, u) && Own(ops + [op], u) == Made(d, u) {
      OwnOneMore(ops, op, u);
      if u != e.tid {
        NextKeepsOthers(c, e.tid, sync, u);
      }
    }
  }

  lemma {:induction false} RunFollowed(s: State, es: seq<Event>)
    requires Fits(s) && Followed(s.ctl, [])
    ensures Followed(Exec(Step, s, es).ctl, Actions(s, es)) && Same(s.ctl, Exec(Step, s, es).ctl)
  {
    if es != [] {
      var front, e := es[..|es| - 1], es[|es| - 1];
      RunFollowed(s, front);
      var r := Exec(Step, s, front);
      if Enabled(r, e) {
        StepFollowed(r, e, Actions(s, front));
      } else {
        assert Actions(s, es) == Actions(s, front);
      }
    }
  }

  lemma {:induction false} FillsGrow(n: nat, m: nat, start: int)
    requires n <= m
    ensures Fills(n, start) <= Fills(m, start) && |Fills(n, start)| == n
  {
    if n < m {
      FillsGrow(n, m - 1, start);
    } else if n > 0 {
      FillsGrow(n - 1, n - 1, start);
    }
  }

  lemma {:induction false} SlotReadsGrow(t: nat, n: nat, m: nat)
    requires n <= m
    ensures SlotReads(t, n) <= SlotReads(t, m) && |SlotReads(t, n)| == n
  {
    if n < m {
      SlotReadsGrow(t, n, m - 1);
    } else if n > 0 {
      SlotReadsGrow(t, n - 1, n - 1);
    }
  }

  lemma MadeIsPrefix(c: Control, t: nat)
    requires Shape(c) && t <= c.R && InStep(c, t)
    ensures var p := Program(t, Span(c), c.start);
            Made(c, t) <= p && (Made(c, t) == p <==> c.pc[t] == Done)
  {
    FillsGrow(c.at[t], Span(c), c.start);
    SlotReadsGrow(t, c.at[t], Span(c));
    FillsGrow(Span(c), Span(c), c.start);
    SlotReadsGrow(t, Span(c), Span(c));
  }

  lemma StartFollowed(R: nat, A: nat, len: int, start: int, v1: int, arrayValue: int)
    ensures var s := Start(R, A, len, start, v1, arrayValue);
            Fits(s) && Followed(s.ctl, []) && Span(s.ctl) == Slots(A, len)
  {
  }

  /** In every run each thread does its program in order and nothing else, and is done when it has done all of it: the
      writer assigns each slot and `value1` and stores, a reader reads `value1` and each slot and stores. */
  lemma {:induction false} EveryThreadRunsItsProgram(
      R: nat, A: nat, len: int, start: int, v1: int, arrayValue: int, es: seq<Event>, t: nat)
    requires t <= R
    ensures var s := Start(R, A, len, start, v1, arrayValue);
            var c := Exec(Step, s, es).ctl;
            var own := Own(Actions(s, es), t);
            && Shape(c) && c.R == R
            && own <= Program(t, Slots(A, len), start)
            && (own == Program(t, Slots(A, len), start) <==> c.pc[t] == Done)
  {
    StartFollowed(R, A, len, start, v1, arrayValue);
    RunFollowed(Start(R, A, len, start, v1, arrayValue), es);
    MadeIsPrefix(Exec(Step, Start(R, A, len, start, v1, arrayValue), es).ctl, t);
  }

  // ----- Its loads -----

  /** A failed spin of thread `t`. */
  predicate SpinsInVain(t: nat, s: State, e: Event) {
    e.tid == t && Enabled(s, e) && s.ctl.pc[t] == Spin && s.mem.atoms[0].value != s.ctl.start
  }

  function InVain(t: nat): (State, Event) -> bool {
    (s: State, e: Event) => SpinsInVain(t, s, e)
  }

  /** The acquire loads a thread has behind it: one of the writer, two of a reader. */
  function LoadsDue(t: nat, pc: Pc): nat {
    if pc in {Acquire, Spin} then 0 else if t == 0 || pc == Recheck then 1 else 2
  }

  lemma StepLoads(s: State, e: Event, ops: seq<Op>, t: nat)
    requires Enabled(s, e) && t <= s.ctl.R && Shape(Step(s, e).ctl)
    ensures var d := Step(s, e).ctl;
            && d.R == s.ctl.R
            && Loads(ops + [Action(s.ctl, e.tid)], t) + LoadsDue(t, s.ctl.pc[t])
               == Loads(ops, t) + LoadsDue(t, d.pc[t]) + if SpinsInVain(t, s, e) then 1 else 0
  {
    LoadsOneMore(ops, Action(s.ctl, e.tid), t);
  }

  /** Failed spins apart, a reader makes two acquire loads, to leave its spin loop and to check again, and the writer
      one. */
  lemma {:induction false} EveryThreadAcquires(
      R: nat, A: nat, len: int, start: int, v1: int, arrayValue: int, es: seq<Event>, t: nat)
    requires t <= R
    ensures var s := Start(R, A, len, start, v1, arrayValue);
            var c := Exec(Step, s, es).ctl;
            && Shape(c) && c.R == R
            && Loads(Actions(s, es), t) == StepsWhere(Step, InVain(t), s, es) + LoadsDue(t, c.pc[t])
  {
    var s := Start(R, A, len, start, v1, arrayValue);
    StartFollowed(R, A, len, start, v1, arrayValue);
    RunFollowed(s, es);
    if es != [] {
      var front, e := es[..|es| - 1], es[|es| - 1];
      EveryThreadAcquires(R, A, len, start, v1, arrayValue, front, t);
      var r := Exec(Step, s, front);
      if Enabled(r, e) {
        StepLoads(r, e, Actions(s, front), t);
      } else {
        assert Actions(s, es) == Actions(s, front);
      }
    }
  }

  // ----- The REQUIREs -----

  /** The next step of the thread is a check of a reader that fails: the atomic is not `startValue` any more, or the
      value read is not the one the writer puts there. */
  predicate Mismatch(s: State, e: Event) {
    && Enabled(s, e)
    && var op := Action(s.ctl, e.tid);
       || (s.ctl.pc[e.tid] == Recheck && s.mem.atoms[0].value != s.ctl.start)
       || (op.OpRead? && op.cell < |s.mem.cells| && e.pick < |s.mem.cells[op.cell].writes|
           && s.mem.cells[op.cell].writes[e.pick].value != s.ctl.start + if op.cell == 0 then 0 else op.cell - 1)
  }

  lemma StepFails(s: State, e: Event)
    ensures Step(s, e).failed <==> s.failed || Mismatch(s, e)
  {
  }

  /** A REQUIRE has failed exactly when one of the checks made met a value other than the one it asks for. */
  lemma {:induction false} FailedIffMismatch(
      R: nat, A: nat, len: int, start: int, v1: int, arrayValue: int, es: seq<Event>)
    ensures var s := Start(R, A, len, start, v1, arrayValue);
            Exec(Step, s, es).failed <==> StepsWhere(Step, Mismatch, s, es) > 0
  {
    forall s, e ensures Step(s, e).failed <==> s.failed || Mismatch(s, e) {
      StepFails(s, e);
    }
    FlagIffRaised(Step, (s: State) => s.failed, Mismatch, Start(R, A, len, start, v1, arrayValue), es);
  }

  // ----- The write-back of a reader -----

  lemma {:induction false} SlotReadsHave(t: nat, n: nat, x: nat)
    requires 1 <= x <= n
    ensures OpRead(t, x) in SlotReads(t, n)
  {
    if x < n {
      SlotReadsHave(t, n - 1, x);
    }
  }

  /** Operation `j` is the store with which thread `t` ends, after reading `value1` and all slots and whatever else
      it accessed: a load that reads this store has all of that happen before it. */
  ghost predicate WroteBack(ops: seq<Op>, t: nat, slots: nat, start: int, j: nat) {
    && j < |ops| && ops[j] == OpStore(t, 0, start)
    && (forall x: nat :: x <= slots ==> OpRead(t, x) in ops[..j])
    && (forall i: nat :: i < |ops| && ops[i].Plain() && ops[i].tid == t ==> i < j)
    && (forall i: nat, l: nat :: i < j < l < |ops| && ops[i].tid == t && SynchronizesWith(ops, j, l) ==> HB(ops, i, l))
  }

  lemma ProgramWritesBack(ops: seq<Op>, t: nat, slots: nat, start: int) returns (j: nat)
    requires t > 0 && Own(ops, t) == Program(t, slots, start)
    ensures WroteBack(ops, t, slots, start, j)
    ensures forall k :: 0 <= k < |ops| && k != j && ops[k].tid == t ==> !ops[k].OpStore?
  {
    var front := [OpRead(t, 0)] + SlotReads(t, slots);
    j := OwnLast(ops, t, front, OpStore(t, 0, start));
    forall x: nat | x <= slots ensures OpRead(t, x) in ops[..j] {
      if x > 0 {
        SlotReadsHave(t, slots, x);
      }
      assert OpRead(t, x) in front;
      var i := OwnMade(ops[..j], t, OpRead(t, x));
    }
    forall i: nat, l: nat | i < j < l < |ops| && ops[i].tid == t && SynchronizesWith(ops, j, l) ensures HB(ops, i, l) {
      assert Direct(ops, i, j) && HB(ops, i, j) && Direct(ops, j, l);
    }
    forall k | 0 <= k < |ops| && k != j && ops[k].tid == t ensures !ops[k].OpStore? {
      if k < j && ops[k].OpStore? {
        OwnHas(ops[..j], t, k);
        SlotReadsRead(t, slots, ops[k]);
      }
    }
  }

  lemma {:induction false} SlotReadsRead(t: nat, n: nat, op: Op)
    requires op in SlotReads(t, n)
    ensures op.OpRead?
  {
    if n > 0 && op in SlotReads(t, n - 1) {
      SlotReadsRead(t, n - 1, op);
    }
  }

  /** Every reader that is done has read `value1` and all slots and then stored, and whoever reads its store has all it
      did before them. */
  lemma {:induction false} DoneReadersWroteBack(
      R: nat, A: nat, len: int, start: int, v1: int, arrayValue: int, es: seq<Event>, t: nat)
    requires 1 <= t <= R
    ensures var s := Start(R, A, len, start, v1, arrayValue);
            var c := Exec(Step, s, es).ctl;
            && Shape(c) && c.R == R
            && (c.pc[t] == Done ==> exists j :: WroteBack(Actions(s, es), t, Slots(A, len), start, j))
  {
    EveryThreadRunsItsProgram(R, A, len, start, v1, arrayValue, es, t);
    var s := Start(R, A, len, start, v1, arrayValue);
    if Exec(Step, s, es).ctl.pc[t] == Done {
      var j := ProgramWritesBack(Actions(s, es), t, Slots(A, len), start);
    }
  }

  /** Store `j` is the last to the atomic. */
  predicate LastToAtom(ops: seq<Op>, j: nat) {
    j < |ops| && ops[j].OpStore? && ops[j].atom == 0
    && forall k :: j < k < |ops| ==> !(ops[k].OpStore? && ops[k].atom == 0)
  }

  /** An access is passed on by the atomic exactly when the last store is the write-back of its thread, or comes after
      it in happens-before. */
  lemma SentIffWriteBackIs(ops: seq<Op>, t: nat, i: nat, j: nat, n: nat)
    requires i < j < |ops| && ops[i].Plain() && ops[i].tid == t && ops[j].OpStore? && ops[j].tid == t
    requires forall k :: 0 <= k < |ops| && k != j && ops[k].tid == t ==> !ops[k].OpStore?
    requires LastToAtom(ops, n)
    ensures i < n && HB(ops, i, n) <==> n == j || (j < n && HB(ops, j, n))
  {
    assert Direct(ops, i, j) && HB(ops, i, j);
    if i < n && HB(ops, i, n) && ops[n].tid != t {
      var k := LeavesThroughStore(ops, i, n);
    }
    if j < n && HB(ops, j, n) {
      Transitive(ops, i, j, n);
    }
  }

  /** Thread `t` is done after the run, and operation `i` is one of its plain accesses. */
  predicate AccessOfDone(s: State, es: seq<Event>, t: nat, i: nat) {
    var r, ops := Exec(Step, s, es), Actions(s, es);
    && Shape(r.ctl) && t <= r.ctl.R && r.ctl.pc[t] == Done
    && i < |ops| && ops[i].Plain() && ops[i].tid == t
  }

  /** After a reader's write-back the atomic knows its accesses exactly as long as the write-back is the last store or
      happens before the last store. */
  lemma {:induction false} KnownIffWriteBackReachesLastStore(
      R: nat, A: nat, len: int, start: int, v1: int, arrayValue: int, es: seq<Event>, t: nat, i: nat)
      returns (j: nat, n: nat)
    requires t > 0 && AccessOfDone(Start(R, A, len, start, v1, arrayValue), es, t, i)
    ensures var s := Start(R, A, len, start, v1, arrayValue);
            var ops := Actions(s, es);
            && WroteBack(ops, t, Slots(A, len), start, j) && LastToAtom(ops, n) && j <= n
            && Fits(Exec(Step, s, es)) && AllInRange(s.mem, ops)
            && (Knows(Exec(Step, s, es).mem.atoms[0].clock, Stamp(s.mem, ops, i)) <==> j == n || HB(ops, j, n))
  {
    var s := Start(R, A, len, start, v1, arrayValue);
    var ops := Actions(s, es);
    StartFollowed(R, A, len, start, v1, arrayValue);
    RunFollowed(s, es);
    EveryThreadRunsItsProgram(R, A, len, start, v1, arrayValue, es, t);
    j := ProgramWritesBack(ops, t, Slots(A, len), start);
    n := LastStore(ops, |ops|, 0);
    SentIffWriteBackIs(ops, t, i, j, n);
    BeginFresh(R + 1, [v1] + seq(A, _ => arrayValue), [v1]);
    AtomKnowsIfSent(s, es, i);
  }

  lemma {:induction false} AtomKnowsIfSent(s: State, es: seq<Event>, i: nat)
    requires Fits(s) && Fresh(s.mem) && i < |Actions(s, es)| && Actions(s, es)[i].Plain()
    ensures var ops := Actions(s, es);
            && Fits(Exec(Step, s, es)) && AllInRange(s.mem, ops)
            && (Knows(Exec(Step, s, es).mem.atoms[0].clock, Stamp(s.mem, ops, i)) <==> Sent(ops, |ops|, i, 0))
  {
    ActionsRun(s, es);
    RunFits(s, es);
    ClocksDecide(s.mem, Actions(s, es), |Actions(s, es)|, i);
  }

  lemma EffectFits(s: State, t: nat)
    requires Fits(s) && t <= s.ctl.R && s.ctl.pc[t] != Done
    ensures var m := Effect(s.ctl, s.mem, t);
            Valid(m) && |m.clocks| == |s.mem.clocks| && |m.cells| == |s.mem.cells| && |m.atoms| == 1
  {
    EffectIsAction(s, t);
  }

  lemma StepFits(s: State, e: Event)
    requires Fits(s)
    ensures Fits(Step(s, e))
  {
    if Enabled(s, e) {
      EffectFits(s, e.tid);
    }
  }

  lemma {:induction false} RunFits(s: State, es: seq<Event>)
    requires Fits(s)
    ensures Fits(Exec(Step, s, es))
  {
    forall r: State, e | Fits(r) ensures Fits(Step(r, e)) {
      StepFits(r, e);
    }
    Invariance(Step, (r: State) => Fits(r), s, es);
  }

  // ----- Two readers -----

  ghost predicate Ready(s: State, v1: int) {
    Inv(s, v1) && Told(s.ctl, v1) && Fresh(s.mem)
  }

  /** Thread `t` alone has made steps since. */
  predicate Apart(s: State, r: State, t: nat)
    requires Fits(s) && Fits(r)
  {
    && Same(s.ctl, r.ctl)
    && (forall u :: 0 <= u <= s.ctl.R && u != t ==> r.ctl.pc[u] == s.ctl.pc[u] && r.ctl.at[u] == s.ctl.at[u])
    && (forall u :: 0 <= u <= s.ctl.R && u != t ==> r.mem.clocks[u] == s.mem.clocks[u])
    && s.mem.cells[0].readAt <= r.mem.cells[0].readAt
  }

  /** Reader `t` has read everything and is about to write back; its read of `value1` is not published. */
  predicate Brink(s: State, t: nat) {
    && Fits(s) && 1 <= t <= s.ctl.R && s.ctl.pc[t] == CheckSlots && s.ctl.at[t] >= s.ctl.len
    && Epoch(t, s.mem.clocks[t][t]) in s.mem.cells[0].readAt
  }

  function Latest(s: State, t: nat): Event
    requires Fits(s) && t <= s.ctl.R
  {
    Event(t, |s.mem.cells[Target(s.ctl, t)].writes| - 1)
  }

  lemma EffectFresh(s: State, t: nat)
    requires Fits(s) && Fresh(s.mem) && t <= s.ctl.R && s.ctl.pc[t] != Done
    ensures Valid(Effect(s.ctl, s.mem, t)) && Fresh(Effect(s.ctl, s.mem, t))
  {
    EffectIsAction(s, t);
    DoFresh(s.mem, Action(s.ctl, t));
  }

  lemma StepFresh(s: State, e: Event)
    requires Fits(s) && Fresh(s.mem)
    ensures Fits(Step(s, e)) && Fresh(Step(s, e).mem)
  {
    StepFits(s, e);
    if Enabled(s, e) {
      EffectFresh(s, e.tid);
    }
  }

  lemma StepApart(s: State, e: Event)
    requires Enabled(s, e) && Fits(Step(s, e))
    ensures Apart(s, Step(s, e), e.tid)
  {
  }

  /** A step alone, kept up with. */
  lemma LatestStep(s: State, v1: int, t: nat)
    requires Ready(s, v1) && t <= s.ctl.R && s.ctl.pc[t] != Done && (t > 0 ==> Published(s.ctl))
    ensures var r := Step(s, Latest(s, t));
            && Ready(r, v1) && Apart(s, r, t) && Left(r.ctl, t) < Left(s.ctl, t)
            && r.ctl == Next(s.ctl, t, s.mem.atoms[0].value) && r.mem == Effect(s.ctl, s.mem, t)
  {
    var e := Latest(s, t);
    assert Enabled(s, e);
    StepInv(s, e, v1);
    StepFresh(s, e);
    StepApart(s, e);
    NextLeft(s.ctl, t, s.mem.atoms[0].value);
  }

  lemma ApartTwice(s: State, r: State, q: State, t: nat)
    requires Fits(s) && Fits(r) && Fits(q) && Apart(s, r, t) && Apart(r, q, t)
    ensures Apart(s, q, t)
  {
  }

  lemma {:induction false} WriterToEnd(s: State, v1: int) returns (es: seq<Event>)
    requires Ready(s, v1)
    ensures var r := Exec(Step, s, es);
            Ready(r, v1) && Published(r.ctl) && Apart(s, r, 0)
    decreases Left(s.ctl, 0)
  {
    if Published(s.ctl) {
      es := [];
    } else {
      var e := Latest(s, 0);
      LatestStep(s, v1, 0);
      var rest := WriterToEnd(Step(s, e), v1);
      es := [e] + rest;
      ExecCons(Step, s, e, rest);
      ApartTwice(s, Step(s, e), Exec(Step, s, es), 0);
    }
  }

  /** Reader `t` has not read yet, or its read of `value1` is still its own. */
  predicate Noted(s: State, t: nat)
    requires Fits(s) && t <= s.ctl.R
  {
    s.ctl.pc[t] == CheckSlots ==> Epoch(t, s.mem.clocks[t][t]) in s.mem.cells[0].readAt
  }

  lemma LatestNotes(s: State, v1: int, t: nat)
    requires Ready(s, v1) && 1 <= t <= s.ctl.R && s.ctl.pc[t] != Done && Published(s.ctl)
    requires Noted(s, t) && !Brink(s, t)
    ensures var r := Step(s, Latest(s, t));
            Fits(r) && Noted(r, t) && r.ctl.pc[t] != Done
  {
    LatestStep(s, v1, t);
    LoadFresh(s.mem, t, 0);
  }

  lemma {:induction false} ReaderToBrink(s: State, v1: int, t: nat) returns (es: seq<Event>)
    requires Ready(s, v1) && 1 <= t <= s.ctl.R && s.ctl.pc[t] != Done && Published(s.ctl) && Noted(s, t)
    ensures var r := Exec(Step, s, es);
            Ready(r, v1) && Apart(s, r, t) && Brink(r, t)
    decreases Left(s.ctl, t)
  {
    if Brink(s, t) {
      es := [];
    } else {
      var e := Latest(s, t);
      LatestStep(s, v1, t);
      LatestNotes(s, v1, t);
      var rest := ReaderToBrink(Step(s, e), v1, t);
      es := [e] + rest;
      ExecCons(Step, s, e, rest);
      ApartTwice(s, Step(s, e), Exec(Step, s, es), t);
    }
  }

  predicate ReadsKnown(c: Clock, cells: seq<Cell>, t: nat) {
    forall x: nat, e: Epoch :: x < |cells| && e in cells[x].readAt && e.tid == t ==> Knows(c, e)
  }

  /** The atomic passes on what every reader that is done has read. */
  ghost predicate WriteBacksKnown(s: State) {
    Fits(s) && forall t :: 1 <= t <= s.ctl.R && s.ctl.pc[t] == Done ==> ReadsKnown(s.mem.atoms[0].clock, s.mem.cells, t)
  }

  /** A second reader that loaded before the first wrote back replaces what the first has published. */
  lemma SecondReplacesFirst(s: State)
    requires Brink(s, 1) && Brink(s, 2) && Fresh(s.mem)
    ensures !WriteBacksKnown(Exec(Step, s, [Event(1, 0), Event(2, 0)]))
  {
    ExecTwo(Step, s, Event(1, 0), Event(2, 0));
    StepFresh(s, Event(1, 0));
    var r := Step(s, Event(1, 0));
    StepFresh(r, Event(2, 0));
    var q, e := Step(r, Event(2, 0)), Epoch(1, s.mem.clocks[1][1]);
    assert q.ctl.pc[1] == Done && e in q.mem.cells[0].readAt;
    assert q.mem.atoms[0].clock == s.mem.clocks[2];
    assert !Knows(q.mem.atoms[0].clock, e);
  }

  lemma StartReady(R: nat, A: nat, len: int, start: int, v1: int, arrayValue: int)
    requires start != v1
    ensures Ready(Start(R, A, len, start, v1, arrayValue), v1)
  {
    StartInv(R, A, len, start, v1, arrayValue);
    BeginFresh(R + 1, [v1] + seq(A, _ => arrayValue), [v1]);
  }

  /** The run with two readers in which the first one's write-back is lost. */
  lemma {:induction false} ReplacingRun(R: nat, A: nat, len: int, start: int, v1: int, arrayValue: int)
      returns (es: seq<Event>)
    requires R >= 2 && start != v1
    ensures !WriteBacksKnown(Exec(Step, Start(R, A, len, start, v1, arrayValue), es))
  {
    var s0 := Start(R, A, len, start, v1, arrayValue);
    StartReady(R, A, len, start, v1, arrayValue);
    var es0 := WriterToEnd(s0, v1);
    var s1 := Exec(Step, s0, es0);
    var es1 := ReaderToBrink(s1, v1, 1);
    var s2 := Exec(Step, s1, es1);
    var es2 := ReaderToBrink(s2, v1, 2);
    var s3 := Exec(Step, s2, es2);
    SecondReplacesFirst(s3);
    var es3 := [Event(1, 0), Event(2, 0)];
    ExecAppend(Step, s2, es2, es3);
    ExecAppend(Step, s1, es1, es2 + es3);
    ExecAppend(Step, s0, es0, es1 + (es2 + es3));
    es := es0 + (es1 + (es2 + es3));
  }

  // ----- One reader -----

  /** From the publication on the only reader, or before and after it the atomic, knows every access. */
  ghost predicate Alone(s: State)
    requires Fits(s)
  {
    s.ctl.R <= 1 && Published(s.ctl) ==>
      && (s.ctl.R == 0 || s.ctl.pc[1] in {Spin, Done} ==> Covers(s.mem.atoms[0].clock, s.mem.cells))
      && (s.ctl.R == 1 && s.ctl.pc[1] != Spin ==> Covers(s.mem.clocks[1], s.mem.cells))
  }

  lemma WriterAlone(s: State, e: Event, v1: int)
    requires Inv(s, v1) && Told(s.ctl, v1) && Enabled(s, e) && e.tid == 0 && Alone(s)
    ensures Fits(Step(s, e)) && Alone(Step(s, e))
  {
    StepFits(s, e);
    if s.ctl.pc[0] == Release {
      StoreCovers(s.mem, 0, 0, s.ctl.start);
    }
  }

  lemma ReaderAlone(s: State, e: Event, v1: int)
    requires Inv(s, v1) && Told(s.ctl, v1) && Enabled(s, e) && e.tid == 1 && s.ctl.R == 1 && Alone(s)
    ensures Fits(Step(s, e)) && Alone(Step(s, e))
  {
    StepFits(s, e);
    if Reads(s.ctl, 1) {
      ReadCovers(s.mem, 1, Target(s.ctl, 1));
    } else if s.ctl.pc[1] == CheckSlots {
      StoreCovers(s.mem, 1, 0, s.ctl.start);
    } else {
      LoadCovers(s.mem, 1, 0);
    }
  }

  lemma StepAlone(s: State, e: Event, v1: int)
    requires Inv(s, v1) && Told(s.ctl, v1) && Alone(s)
    ensures Fits(Step(s, e)) && Alone(Step(s, e))
  {
    StepInv(s, e, v1);
    if Enabled(s, e) && s.ctl.R <= 1 {
      if e.tid == 0 {
        WriterAlone(s, e, v1);
      } else {
        ReaderAlone(s, e, v1);
      }
    }
  }

  ghost predicate AloneInv(s: State, c: Control, v1: int) {
    Inv(s, v1) && Same(s.ctl, c) && Alone(s)
  }

  lemma {:induction false} OneReaderIsKnown(
      R: nat, A: nat, len: int, start: int, v1: int, arrayValue: int, es: seq<Event>)
    requires R <= 1 && start != v1
    ensures WriteBacksKnown(Exec(Step, Start(R, A, len, start, v1, arrayValue), es))
  {
    var s0 := Start(R, A, len, start, v1, arrayValue);
    StartInv(R, A, len, start, v1, arrayValue);
    forall s: State, e | AloneInv(s, s0.ctl, v1) ensures AloneInv(Step(s, e), s0.ctl, v1) {
      StepInv(s, e, v1);
      StepAlone(s, e, v1);
    }
    Invariance(Step, (s: State) => AloneInv(s, s0.ctl, v1), s0, es);
    var s := Exec(Step, s0, es);
    forall t | 1 <= t <= s.ctl.R && s.ctl.pc[t] == Done ensures ReadsKnown(s.mem.atoms[0].clock, s.mem.cells, t) {
      assert t == 1 && Published(s.ctl);
    }
  }

  /** In all runs the atomic passes on what the readers that are done have read exactly when there is at most one
      reader: a plain store starts anew what the atomic passes on. */
  lemma {:induction false} WriteBacksKnownIffOneReader(R: nat, A: nat, len: int, start: int, v1: int, arrayValue: int)
    requires start != v1
    ensures (forall es :: WriteBacksKnown(Exec(Step, Start(R, A, len, start, v1, arrayValue), es))) <==> R <= 1
  {
    if R <= 1 {
      forall es ensures WriteBacksKnown(Exec(Step, Start(R, A, len, start, v1, arrayValue), es)) {
        OneReaderIsKnown(R, A, len, start, v1, arrayValue, es);
      }
    } else {
      var es := ReplacingRun(R, A, len, start, v1, arrayValue);
    }
  }

  lemma StoreIsKnown(s: State, t: nat)
    requires Fits(s) && Stamped(s.mem) && 1 <= t <= s.ctl.R && s.ctl.pc[t] == CheckSlots && s.ctl.at[t] >= s.ctl.len
    ensures var r := Step(s, Event(t, 0));
            && Fits(r) && r.ctl.pc[t] == Done && ReadsKnown(r.mem.atoms[0].clock, r.mem.cells, t)
  {
  }

  lemma {:induction false} RunStamped(R: nat, A: nat, len: int, start: int, v1: int, arrayValue: int, es: seq<Event>)
    ensures var s := Exec(Step, Start(R, A, len, start, v1, arrayValue), es); Fits(s) && Stamped(s.mem)
  {
    var s0 := Start(R, A, len, start, v1, arrayValue);
    RunFits(s0, es);
    ActionsRun(s0, es);
    BeginFresh(R + 1, [v1] + seq(A, _ => arrayValue), [v1]);
    AfterFresh(s0.mem, Actions(s0, es), |Actions(s0, es)|);
  }

  /** In every run, however many readers there are: right after its write-back the atomic knows all a reader has read. */
  lemma {:induction false} WriteBackIsKnown(
      R: nat, A: nat, len: int, start: int, v1: int, arrayValue: int, es: seq<Event>, t: nat)
    requires 1 <= t <= R
    ensures var s := Exec(Step, Start(R, A, len, start, v1, arrayValue), es);
            && Fits(s) && s.ctl.R == R
            && (s.ctl.pc[t] == CheckSlots && s.ctl.at[t] >= s.ctl.len ==>
                  var r := Step(s, Event(t, 0));
                  Fits(r) && r.ctl.pc[t] == Done && ReadsKnown(r.mem.atoms[0].clock, r.mem.cells, t))
  {
    StartFollowed(R, A, len, start, v1, arrayValue);
    RunFollowed(Start(R, A, len, start, v1, arrayValue), es);
    RunStamped(R, A, len, start, v1, arrayValue, es);
    var s := Exec(Step, Start(R, A, len, start, v1, arrayValue), es);
    if s.ctl.pc[t] == CheckSlots && s.ctl.at[t] >= s.ctl.len {
      StoreIsKnown(s, t);
    }
  }

  // ----- A reader that synchronizes with a reader -----

  /** The last operation is a load that reads from a store of thread `t`. */
  predicate LoadsFrom(ops: seq<Op>, t: nat, v: int) {
    |ops| >= 2 && ops[|ops| - 1].OpLoad?
    && exists j: nat :: j < |ops| - 1 && ops[j] == OpStore(t, 0, v) && SynchronizesWith(ops, j, |ops| - 1)
  }

  lemma {:induction false} ActionsStep(s: State, es: seq<Event>, e: Event)
    ensures Exec(Step, s, es + [e]) == Step(Exec(Step, s, es), e)
    ensures Actions(s, es + [e])
            == Actions(s, es) + if Enabled(Exec(Step, s, es), e) then [Action(Exec(Step, s, es).ctl, e.tid)] else []
  {
    assert (es + [e])[..|es|] == es;
  }

  /** Reader 1 writes back, and reader 2 leaves its spin loop on that store. */
  lemma SecondFollowsFirst(s: State)
    requires Brink(s, 1) && s.ctl.R >= 2 && s.ctl.pc[2] == Spin
    ensures var r := Step(s, Event(1, 0));
            && Enabled(s, Event(1, 0)) && Action(s.ctl, 1) == OpStore(1, 0, s.ctl.start)
            && Enabled(r, Event(2, 0)) && Action(r.ctl, 2) == OpLoad(2, 0)
            && var q := Step(r, Event(2, 0)).ctl; Shape(q) && q.R == s.ctl.R && q.pc[2] == Recheck
  {
    StepFits(s, Event(1, 0));
    StepFits(Step(s, Event(1, 0)), Event(2, 0));
  }

  lemma {:induction false} FollowingRun(s0: State, front: seq<Event>)
    requires var s := Exec(Step, s0, front);
             Brink(s, 1) && s.ctl.R >= 2 && s.ctl.pc[2] == Spin
    ensures var start, es := Exec(Step, s0, front).ctl.start, front + [Event(1, 0)] + [Event(2, 0)];
            && LoadsFrom(Actions(s0, es), 1, start)
            && var c := Exec(Step, s0, es).ctl; Shape(c) && c.R == Exec(Step, s0, front).ctl.R && c.pc[2] == Recheck
  {
    var s := Exec(Step, s0, front);
    SecondFollowsFirst(s);
    ActionsStep(s0, front, Event(1, 0));
    ActionsStep(s0, front + [Event(1, 0)], Event(2, 0));
    StoreThenLoad(Actions(s0, front), 1, 2, s.ctl.start);
  }

  lemma StoreThenLoad(ops: seq<Op>, t: nat, u: nat, v: int)
    ensures LoadsFrom(ops + [OpStore(t, 0, v)] + [OpLoad(u, 0)], t, v)
  {
    var all := ops + [OpStore(t, 0, v)] + [OpLoad(u, 0)];
    assert SynchronizesWith(all, |ops|, |ops| + 1);
  }

  /** A run in which reader 2 leaves its spin loop on a load that synchronizes with the write-back of reader 1. */
  lemma {:induction false} ReaderFollowsReader(R: nat, A: nat, len: int, start: int, v1: int, arrayValue: int)
      returns (es: seq<Event>)
    requires R >= 2 && start != v1
    ensures var s := Start(R, A, len, start, v1, arrayValue);
            && LoadsFrom(Actions(s, es), 1, start)
            && var c := Exec(Step, s, es).ctl; Shape(c) && c.R == R && c.pc[2] == Recheck
  {
    var s0 := Start(R, A, len, start, v1, arrayValue);
    StartReady(R, A, len, start, v1, arrayValue);
    var es0 := WriterToEnd(s0, v1);
    var s1 := Exec(Step, s0, es0);
    var es1 := ReaderToBrink(s1, v1, 1);
    ExecAppend(Step, s0, es0, es1);
    var front := es0 + es1;
    FollowingRun(s0, front);
    es := front + [Event(1, 0)] + [Event(2, 0)];
  }
}
