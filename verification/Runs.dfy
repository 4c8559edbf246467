/**
 Runs of a step system.

 Every protocol of this project is a function `step` from a state and an event to a state.  An event that
 is not enabled leaves the state unchanged, so the sequences of events are exactly the schedules: each of
 them, of any length, picks one interleaving of the threads.
 */
module Runs {

  /** The state reached from `s` by the events `es`, in order. */
  function Exec<S, E>(step: (S, E) -> S, s: S, es: seq<E>): S
  {
    if es == [] then s else step(Exec(step, s, es[..|es| - 1]), es[|es| - 1])
  }

  /** Every event of the run changes something it was entitled to change: none of them is skipped. */
  ghost predicate Effective<S, E>(step: (S, E) -> S, enabled: (S, E) -> bool, s: S, es: seq<E>)
  {
    forall k :: 0 <= k < |es| ==> enabled(Exec(step, s, es[..k]), es[k])
  }

  /** The number of events of the run that satisfy `p`. */
  function Count<E>(p: E -> bool, es: seq<E>): nat
  {
    if es == [] then 0 else Count(p, es[..|es| - 1]) + if p(es[|es| - 1]) then 1 else 0
  }

  lemma {:induction false} Invariance<S(!new), E(!new)>(step: (S, E) -> S, inv: S -> bool, s: S, es: seq<E>)
    requires inv(s)
    requires forall t, e :: inv(t) ==> inv(step(t, e))
    ensures inv(Exec(step, s, es))
  {
    if es != [] {
      Invariance(step, inv, s, es[..|es| - 1]);
    }
  }

  lemma {:induction false} ExecAppend<S, E>(step: (S, E) -> S, s: S, es: seq<E>, fs: seq<E>)
    ensures Exec(step, s, es + fs) == Exec(step, Exec(step, s, es), fs)
  {
    if fs == [] {
      assert es + fs == es;
    } else {
      var cut := |fs| - 1;
      assert (es + fs)[..|es + fs| - 1] == es + fs[..cut];
      ExecAppend(step, s, es, fs[..cut]);
    }
  }

  lemma {:induction false} ExecCons<S, E>(step: (S, E) -> S, s: S, e: E, es: seq<E>)
    ensures Exec(step, s, [e] + es) == Exec(step, step(s, e), es)
  {
    ExecAppend(step, s, [e], es);
    assert [e][..0] == [];
  }

  lemma ExecTwo<S, E>(step: (S, E) -> S, s: S, a: E, b: E)
    ensures Exec(step, s, [a, b]) == step(step(s, a), b)
  {
    assert [a, b] == [a] + [b] && [b] == [b] + [];
    ExecCons(step, s, a, [b]);
    ExecCons(step, step(s, a), b, []);
  }

  /** Each effective event lowers the measure, except that one satisfying `p` may raise it by less than `c`. */
  ghost predicate Lowers<S(!new), E(!new)>(
      step: (S, E) -> S, enabled: (S, E) -> bool, inv: S -> bool, measure: S -> nat, p: E -> bool, c: nat)
  {
    forall t, e {:trigger enabled(t, e)} :: inv(t) && enabled(t, e) ==>
      inv(step(t, e)) && measure(step(t, e)) + 1 <= measure(t) + if p(e) then c else 0
  }

  lemma {:induction false} EffectivePrefix<S, E>(step: (S, E) -> S, enabled: (S, E) -> bool, s: S, es: seq<E>)
    requires Effective(step, enabled, s, es) && es != []
    ensures Effective(step, enabled, s, es[..|es| - 1])
    ensures enabled(Exec(step, s, es[..|es| - 1]), es[|es| - 1])
  {
    var front := es[..|es| - 1];
    forall k | 0 <= k < |front| ensures enabled(Exec(step, s, front[..k]), front[k]) {
      assert front[..k] == es[..k];
      assert enabled(Exec(step, s, es[..k]), es[k]);
    }
  }

  lemma AddOne(c: nat, n: nat)
    ensures c * (n + 1) == c * n + c
  {
  }

  /** A lowered measure bounds the length of every run, up to the number of events that raise it. */
  lemma {:induction false} BoundedRun<S(!new), E(!new)>(
      step: (S, E) -> S, enabled: (S, E) -> bool, inv: S -> bool, measure: S -> nat, p: E -> bool, c: nat,
      s: S, es: seq<E>)
    requires inv(s)
    requires Lowers(step, enabled, inv, measure, p, c)
    requires Effective(step, enabled, s, es)
    ensures inv(Exec(step, s, es))
    ensures |es| + measure(Exec(step, s, es)) <= measure(s) + c * Count(p, es)
  {
    if es == [] {
      assert c * Count(p, es) == 0;
    } else {
      var front, last := es[..|es| - 1], es[|es| - 1];
      EffectivePrefix(step, enabled, s, es);
      BoundedRun(step, enabled, inv, measure, p, c, s, front);
      var t := Exec(step, s, front);
      assert inv(t) && enabled(t, last);
      assert Exec(step, s, es) == step(t, last);
      AddOne(c, Count(p, front));
    }
  }

  /** The number of steps of the run that satisfy `p` in the state they meet. */
  function StepsWhere<S, E>(step: (S, E) -> S, p: (S, E) -> bool, s: S, es: seq<E>): nat
  {
    if es == [] then 0
    else StepsWhere(step, p, s, es[..|es| - 1])
         + if p(Exec(step, s, es[..|es| - 1]), es[|es| - 1]) then 1 else 0
  }

  /** Each step that satisfies `p` does one unit of the work left, and no other step any. */
  ghost predicate Spends<S(!new), E(!new)>(
      step: (S, E) -> S, inv: S -> bool, work: S -> int, p: (S, E) -> bool)
  {
    forall t, e {:trigger step(t, e)} :: inv(t) ==>
      inv(step(t, e)) && work(step(t, e)) == work(t) - if p(t, e) then 1 else 0
  }

  /** The steps that do work and the work left add up to the work there was. */
  lemma {:induction false} WorkAddsUp<S(!new), E(!new)>(
      step: (S, E) -> S, inv: S -> bool, work: S -> int, p: (S, E) -> bool, s: S, es: seq<E>)
    requires inv(s) && Spends(step, inv, work, p)
    ensures inv(Exec(step, s, es))
    ensures StepsWhere(step, p, s, es) + work(Exec(step, s, es)) == work(s)
  {
    if es != [] {
      WorkAddsUp(step, inv, work, p, s, es[..|es| - 1]);
    }
  }

  /** The flag is raised by the steps that satisfy `p`, and by no other, and stays. */
  ghost predicate Raises<S(!new), E(!new)>(step: (S, E) -> S, flag: S -> bool, p: (S, E) -> bool)
  {
    forall t, e {:trigger step(t, e)} :: flag(step(t, e)) <==> flag(t) || p(t, e)
  }

  lemma {:induction false} FlagIffRaised<S(!new), E(!new)>(
      step: (S, E) -> S, flag: S -> bool, p: (S, E) -> bool, s: S, es: seq<E>)
    requires Raises(step, flag, p) && !flag(s)
    ensures flag(Exec(step, s, es)) <==> StepsWhere(step, p, s, es) > 0
  {
    if es != [] {
      FlagIffRaised(step, flag, p, s, es[..|es| - 1]);
    }
  }
}
