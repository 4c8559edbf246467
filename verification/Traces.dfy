/**
 What a thread does in an execution, read off the operations of the execution, and how its accesses become visible to
 other threads.
 */
module Traces {
  import opened MemoryModel
  import opened HappensBefore

  /** The operations of thread `t` other than its loads, in order. */
  function Own(ops: seq<Op>, t: nat): seq<Op> {
    if ops == [] then []
    else
      var op := ops[|ops| - 1];
      Own(ops[..|ops| - 1], t) + if op.tid == t && !op.OpLoad? then [op] else []
  }

  lemma OwnOneMore(ops: seq<Op>, op: Op, t: nat)
    ensures Own(ops + [op], t) == Own(ops, t) + if op.tid == t && !op.OpLoad? then [op] else []
  {
    assert (ops + [op])[..|ops|] == ops;
  }

  /** Every operation of the thread other than a load is among them. */
  lemma {:induction false} OwnHas(ops: seq<Op>, t: nat, i: nat)
    requires i < |ops| && ops[i].tid == t && !ops[i].OpLoad?
    ensures ops[i] in Own(ops, t)
  {
    if i < |ops| - 1 {
      OwnHas(ops[..|ops| - 1], t, i);
    }
  }

  /** And each of them was made. */
  lemma {:induction false} OwnMade(ops: seq<Op>, t: nat, op: Op) returns (i: nat)
    requires op in Own(ops, t)
    ensures i < |ops| && ops[i] == op && op.tid == t
  {
    var last := ops[|ops| - 1];
    if last.tid == t && last == op {
      i := |ops| - 1;
    } else {
      i := OwnMade(ops[..|ops| - 1], t, op);
    }
  }

  /** The last of them comes after all others. */
  lemma {:induction false} OwnLast(ops: seq<Op>, t: nat, front: seq<Op>, last: Op) returns (j: nat)
    requires Own(ops, t) == front + [last]
    ensures j < |ops| && ops[j] == last && last.tid == t && !last.OpLoad?
    ensures Own(ops[..j], t) == front
    ensures forall i :: j < i < |ops| && ops[i].tid == t ==> ops[i].OpLoad?
  {
    var cut := |ops| - 1;
    if ops[cut].tid == t && !ops[cut].OpLoad? {
      j := cut;
      assert Own(ops[..cut], t) == front && ops[cut] == last by {
        assert (Own(ops[..cut], t) + [ops[cut]])[..|front|] == Own(ops[..cut], t);
      }
    } else {
      j := OwnLast(ops[..cut], t, front, last);
      assert ops[..cut][..j] == ops[..j];
    }
  }

  /** The number of loads of thread `t`. */
  function Loads(ops: seq<Op>, t: nat): nat {
    if ops == [] then 0
    else
      var op := ops[|ops| - 1];
      Loads(ops[..|ops| - 1], t) + if op.tid == t && op.OpLoad? then 1 else 0
  }

  lemma LoadsOneMore(ops: seq<Op>, op: Op, t: nat)
    ensures Loads(ops + [op], t) == Loads(ops, t) + if op.tid == t && op.OpLoad? then 1 else 0
  {
    assert (ops + [op])[..|ops|] == ops;
  }

  /** A plain access gets to another thread only through a later store of its own thread. */
  lemma {:induction false} LeavesThroughStore(ops: seq<Op>, i: nat, j: nat) returns (s: nat)
    requires i < j < |ops| && HB(ops, i, j) && ops[i].Plain() && ops[j].tid != ops[i].tid
    ensures i < s < j && ops[s].OpStore? && ops[s].tid == ops[i].tid && HB(ops, s, j)
    decreases j
  {
    var k: nat :| i < k < j && HB(ops, i, k) && Direct(ops, k, j);
    if ops[k].tid == ops[i].tid {
      s := k;
    } else {
      s := LeavesThroughStore(ops, i, k);
    }
  }

  lemma {:induction false} Transitive(ops: seq<Op>, i: nat, j: nat, k: nat)
    requires i < j < k < |ops| && HB(ops, i, j) && HB(ops, j, k)
    ensures HB(ops, i, k)
    decreases k
  {
    if !Direct(ops, j, k) {
      var l: nat :| j < l < k && HB(ops, j, l) && Direct(ops, l, k);
      Transitive(ops, i, j, l);
    }
  }

  /** What an atomic passes on: a plain access is known to it exactly when it happens before the last store to it. */
  lemma AtomKnowsIffSent(m: Memory, ops: seq<Op>, i: nat, a: nat)
    requires Valid(m) && Fresh(m) && AllInRange(m, ops) && i < |ops| && ops[i].Plain() && a < |m.atoms|
    ensures Knows(After(m, ops, |ops|).atoms[a].clock, Stamp(m, ops, i))
            <==> exists j: nat :: i < j < |ops| && ops[j].OpStore? && ops[j].atom == a && HB(ops, i, j)
                                  && forall k :: j < k < |ops| ==> !(ops[k].OpStore? && ops[k].atom == a)
  {
    ClocksDecide(m, ops, |ops|, i);
    var j := LastStore(ops, |ops|, a);
    assert Sent(ops, |ops|, i, a) <==> i < j < |ops| && HB(ops, i, j);
  }
}
