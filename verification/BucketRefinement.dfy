/**
 Both forms of the bucket refine one atomic bounded counter.
 */
module BucketRefinement {
  import opened Runs
  import opened Bucket

  // ----- The atomic bounded counter -----

  datatype Op = Give | Take

  datatype Counter = Counter(value: int, given: int, taken: int)

  predicate Allowed(cap: int, k: Counter, op: Op) {
    if op == Give then k.value < cap else 0 < k.value
  }

  function Do(k: Counter, op: Op): Counter {
    if op == Give then Counter(k.value + 1, k.given + 1, k.taken) else Counter(k.value - 1, k.given, k.taken + 1)
  }

  function Total(ops: seq<Op>): Counter {
    if ops == [] then Counter(0, 0, 0) else Do(Total(ops[..|ops| - 1]), ops[|ops| - 1])
  }

  /** Every operation of the history was allowed when it happened. */
  ghost predicate Legal(cap: int, ops: seq<Op>) {
    forall k :: 0 <= k < |ops| ==> Allowed(cap, Total(ops[..k]), ops[k])
  }

  // ----- The refinement -----

  /** The counter a state stands for: an item is given or taken when `bucket_value` changes. */
  function Abstraction(s: State): Counter {
    Counter(s.value,
            s.given + if s.p.pc == Pc.Count then 1 else 0,
            s.taken + if s.c.pc == Pc.Count then 1 else 0)
  }

  /** The operation an event performs on the counter, if any. */
  function Effect(s: State, e: Event): seq<Op> {
    if e.Step? && Of(s, e.side).pc == Value then [if e.side == Producer then Give else Take] else []
  }

  /** The history of the counter in a run. */
  function History(s: State, es: seq<Event>): seq<Op> {
    if es == [] then []
    else History(s, es[..|es| - 1]) + Effect(Exec(Next, s, es[..|es| - 1]), es[|es| - 1])
  }

  /** Each step of the bucket is one allowed operation of the counter, or invisible. */
  lemma StepRefines(s: State, e: Event)
    requires Inv(s)
    ensures if Effect(s, e) == [] then Abstraction(Next(s, e)) == Abstraction(s)
            else
              && |Effect(s, e)| == 1
              && Allowed(s.cap, Abstraction(s), Effect(s, e)[0])
              && Abstraction(Next(s, e)) == Do(Abstraction(s), Effect(s, e)[0])
  {
  }

  lemma LegalAppend(cap: int, ops: seq<Op>, op: Op)
    requires Legal(cap, ops) && Allowed(cap, Total(ops), op)
    ensures Legal(cap, ops + [op]) && Total(ops + [op]) == Do(Total(ops), op)
  {
    var all := ops + [op];
    assert all[..|ops|] == ops;
    forall k | 0 <= k < |all| ensures Allowed(cap, Total(all[..k]), all[k]) {
      if k < |ops| {
        assert all[..k] == ops[..k];
      }
    }
  }

  /** Every run of either form projects onto a legal history of the atomic counter that ends where the run ends. */
  lemma {:induction false} EveryRunRefines(form: Form, cap: int, items: nat, es: seq<Event>)
    ensures var s0 := Start(form, cap, items);
            && Legal(cap, History(s0, es))
            && Total(History(s0, es)) == Abstraction(Exec(Next, s0, es))
  {
    if es != [] {
      var s0, front, e := Start(form, cap, items), es[..|es| - 1], es[|es| - 1];
      var s := Exec(Next, s0, front);
      EveryRunRefines(form, cap, items, front);
      RunInv(form, cap, items, front);
      StepRefines(s, e);
      var ops := Effect(s, e);
      if ops == [] {
        assert History(s0, es) == History(s0, front);
      } else {
        LegalAppend(cap, History(s0, front), ops[0]);
        assert History(s0, es) == History(s0, front) + [ops[0]];
      }
    }
  }

  function CountOps(ops: seq<Op>, op: Op): nat {
    if ops == [] then 0 else CountOps(ops[..|ops| - 1], op) + if ops[|ops| - 1] == op then 1 else 0
  }

  /** What a legal history of the counter guarantees, whoever makes it. */
  lemma {:induction false} LegalBalances(cap: int, ops: seq<Op>)
    requires Legal(cap, ops)
    ensures Total(ops) == Counter(CountOps(ops, Give) - CountOps(ops, Take), CountOps(ops, Give), CountOps(ops, Take))
    ensures 0 <= Total(ops).value && (Total(ops).value <= cap || ops == [] || Total(ops).value == 0)
  {
    if ops != [] {
      var front := ops[..|ops| - 1];
      forall k | 0 <= k < |front| ensures Allowed(cap, Total(front[..k]), front[k]) {
        assert front[..k] == ops[..k];
        assert Allowed(cap, Total(ops[..k]), ops[k]);
      }
      LegalBalances(cap, front);
      assert Allowed(cap, Total(ops[..|ops| - 1]), ops[|ops| - 1]);
    }
  }
}
