/**
 What the threads of the token ring do, operation by operation, for any number of threads and slots.
 */
module TokenRingTrace {
  import opened Runs
  import opened MemoryModel
  import opened HappensBefore
  import opened Traces
  import opened TokenRing
  import opened TokenRingLimits

  /** The slot of thread `t`, and the value with which the reader of a slot asks for the next put. */
  function SlotOf(M: nat, A: nat, t: nat): nat
    requires A > 0
  {
    var i := if t < M then t else t - M;
    if i < A then i else A - 1
  }

  /** Loads apart, what a thread does from its start to its end. */
  function Program(M: nat, A: nat, t: nat): seq<Op>
    requires A > 0
  {
    var i := SlotOf(M, A, t);
    if t < M then [OpAssign(t, 0, i), OpAssign(t, 1 + i, i), OpStore(t, 0, i)]
    else
      var next := if i + 1 == A then -1 else -(i + 2);
      [OpRead(t, 1 + i), OpRead(t, 0), OpAssign(t, 0, next), OpStore(t, 0, next)]
  }

  /** How much of its program thread `t` has done. */
  function Steps(M: nat, t: nat, pc: Pc): nat {
    match pc
    case Spin => 0
    case CheckSlot => 0
    case CheckValue => 1
    case SetValue => if t < M then 0 else 2
    case SetSlot => 1
    case Release => if t < M then 2 else 3
    case Done => if t < M then 3 else 4
  }

  predicate Role(M: nat, t: nat, pc: Pc) {
    if t < M then pc !in {CheckSlot, CheckValue} else pc != SetSlot
  }

  /** Each thread has done its program so far, and nothing else. */
  ghost predicate Followed(c: Control, ops: seq<Op>) {
    Shape(c) && forall t :: 0 <= t < |c.pc| ==>
      Role(c.M, t, c.pc[t]) && Own(ops, t) == Program(c.M, c.A, t)[..Steps(c.M, t, c.pc[t])]
  }

  lemma NextAction(c: Control, t: nat, sync: int)
    requires Shape(c) && t < |c.pc| && c.pc[t] != Done && Role(c.M, t, c.pc[t])
    ensures var d := Next(c, t, sync);
            && Shape(d) && d.M == c.M && d.A == c.A && Role(c.M, t, d.pc[t])
            && (forall u :: 0 <= u < |c.pc| && u != t ==> d.pc[u] == c.pc[u])
            && var n := Steps(c.M, t, c.pc[t]);
               if c.pc[t] == Spin then Action(c, t).OpLoad? && Steps(c.M, t, d.pc[t]) == 0
               else Action(c, t) == Program(c.M, c.A, t)[n] && Steps(c.M, t, d.pc[t]) == n + 1
  {
    NextPutToken(c.A, SlotOf(c.M, c.A, t) + 1);
  }

  lemma StepFollowed(s: State, e: Event, ops: seq<Op>)
    requires Enabled(s, e) && Followed(s.ctl, ops)
    ensures Followed(Step(s, e).ctl, ops + [Action(s.ctl, e.tid)])
    ensures Step(s, e).ctl.M == s.ctl.M && Step(s, e).ctl.A == s.ctl.A
  {
    var c, sync, op := s.ctl, s.mem.atoms[0].value, Action(s.ctl, e.tid);
    NextAction(c, e.tid, sync);
    var d := Next(c, e.tid, sync);
    forall u | 0 <= u < |c.pc|
      ensures Role(d.M, u, d.pc[u]) && Own(ops + [op], u) == Program(d.M, d.A, u)[..Steps(d.M, u, d.pc[u])]
    {
      OwnOneMore(ops, op, u);
    }
  }

  lemma {:induction false} RunFollowed(s: State, es: seq<Event>)
    requires Fits(s) && Followed(s.ctl, [])
    ensures Followed(Exec(Step, s, es).ctl, Actions(s, es))
    ensures Exec(Step, s, es).ctl.M == s.ctl.M && Exec(Step, s, es).ctl.A == s.ctl.A
  {
    if es != [] {
      var front, e := es[..|es| - 1], es[|es| - 1];
      RunFollowed(s, front);
      var r := Exec(Step, s, front);
      if Enabled(r, e) {
        StepFollowed(r, e, Actions(s, front));
      } else {
        assert Actions(s, es) == Actions(s, front);
      }
    }
  }

  lemma StartFollowed(M: nat, A: nat, arrayValue: int)
    requires A > 0
    ensures Fits(Start(M, A, arrayValue)) && Followed(Start(M, A, arrayValue).ctl, [])
  {
  }

  /** In every run each thread does its program in order and nothing else, and is done when it has done all of it: a
      writer assigns `value1` and its slot and stores its index, a reader reads its slot and `value1`, assigns the next
      put to `value1` and stores it. */
  lemma {:induction false} EveryThreadRunsItsProgram(M: nat, A: nat, arrayValue: int, es: seq<Event>, t: nat)
    requires A > 0 && t < 2 * M
    ensures var s := Start(M, A, arrayValue);
            var c := Exec(Step, s, es).ctl;
            var own := Own(Actions(s, es), t);
            && Shape(c) && c.M == M
            && own <= Program(M, A, t)
            && (own == Program(M, A, t) <==> c.pc[t] == Done)
  {
    StartFollowed(M, A, arrayValue);
    RunFollowed(Start(M, A, arrayValue), es);
  }

  // ----- Its loads -----

  /** A failed spin of thread `t`: the atomic asks for neither its put nor its get. */
  predicate SpinsInVain(t: nat, s: State, e: Event) {
    && e.tid == t && Enabled(s, e) && s.ctl.pc[t] == Spin
    && var i := SlotOf(s.ctl.M, s.ctl.A, t);
       s.mem.atoms[0].value != if t < s.ctl.M then -(i + 1) else i
  }

  function InVain(t: nat): (State, Event) -> bool {
    (s: State, e: Event) => SpinsInVain(t, s, e)
  }

  function LoadsDue(pc: Pc): nat {
    if pc == Spin then 0 else 1
  }

  lemma StepLoads(s: State, e: Event, ops: seq<Op>, t: nat)
    requires Enabled(s, e) && t < |s.ctl.pc|
    ensures var d := Step(s, e).ctl;
            && |d.pc| == |s.ctl.pc|
            && Loads(ops + [Action(s.ctl, e.tid)], t) + LoadsDue(s.ctl.pc[t])
               == Loads(ops, t) + LoadsDue(d.pc[t]) + if SpinsInVain(t, s, e) then 1 else 0
  {
    LoadsOneMore(ops, Action(s.ctl, e.tid), t);
  }

  /** Failed spins apart, each thread makes exactly one acquire load, the one that ends its spin loop. */
  lemma {:induction false} EveryThreadAcquires(M: nat, A: nat, arrayValue: int, es: seq<Event>, t: nat)
    requires A > 0 && t < 2 * M
    ensures var s := Start(M, A, arrayValue);
            var c := Exec(Step, s, es).ctl;
            && Shape(c) && c.M == M
            && Loads(Actions(s, es), t) == StepsWhere(Step, InVain(t), s, es) + LoadsDue(c.pc[t])
  {
    var s := Start(M, A, arrayValue);
    StartFollowed(M, A, arrayValue);
    RunFollowed(s, es);
    if es != [] {
      var front, e := es[..|es| - 1], es[|es| - 1];
      EveryThreadAcquires(M, A, arrayValue, front, t);
      var r := Exec(Step, s, front);
      if Enabled(r, e) {
        StepLoads(r, e, Actions(s, front), t);
      } else {
        assert Actions(s, es) == Actions(s, front);
      }
    }
  }

  // ----- The REQUIREs -----

  /** The next step of the thread is a check that fails: the value read is not the index of the thread. */
  predicate Mismatch(s: State, e: Event) {
    && Enabled(s, e)
    && var op := Action(s.ctl, e.tid);
       && op.OpRead? && op.cell < |s.mem.cells| && e.pick < |s.mem.cells[op.cell].writes|
       && s.mem.cells[op.cell].writes[e.pick].value != SlotOf(s.ctl.M, s.ctl.A, e.tid)
  }

  lemma StepFails(s: State, e: Event)
    ensures Step(s, e).failed <==> s.failed || Mismatch(s, e)
  {
  }

  /** A REQUIRE has failed exactly when a reader read a value other than its index. */
  lemma {:induction false} FailedIffMismatch(M: nat, A: nat, arrayValue: int, es: seq<Event>)
    ensures var s := Start(M, A, arrayValue);
            Exec(Step, s, es).failed <==> StepsWhere(Step, Mismatch, s, es) > 0
  {
    forall s, e ensures Step(s, e).failed <==> s.failed || Mismatch(s, e) {
      StepFails(s, e);
    }
    FlagIffRaised(Step, (s: State) => s.failed, Mismatch, Start(M, A, arrayValue), es);
  }
}
