/**
 What the key scripts need of the allocator of keys: exactly that it does not give the fourth key the slot of the second.
 */
module KeyLimits {
  import opened Runs
  import opened KeyScripts
  import S = StageScheduler
  import Bound = StageBound

  lemma {:induction false} SomeRunGetsPast(alloc: Allocator, slots: nat) returns (es: seq<S.Event>)
    requires FindsFree(alloc, slots) && slots >= 2
    ensures S.Stuck(Exec(S.Move(Segments(alloc)), Start(slots), es))
  {
    S.StartInv(Segments(alloc), THREADS, ROUNDS, Fresh(slots));
    es := Bound.RunOut(Segments(alloc), Fresh(slots), Start(slots));
  }

  /** Every assertion of every run holds exactly when the fourth key does not get the slot the second had. */
  lemma AssertionsHoldIffSlotsDiffer(alloc: Allocator, slots: nat)
    requires FindsFree(alloc, slots) && slots >= 2
    ensures (forall es :: Exec(S.Move(Segments(alloc)), Start(slots), es).data.ok)
            <==> FourthKey(alloc) != SecondKey(alloc)
  {
    if FourthKey(alloc) != SecondKey(alloc) {
      forall es ensures Exec(S.Move(Segments(alloc)), Start(slots), es).data.ok {
        EveryAssertionHolds(alloc, slots, es);
      }
    } else {
      var es := SomeRunGetsPast(alloc, slots);
      StuckRunsEndAtFifteen(alloc, slots, es);
    }
  }

  function ShiftedFrom(made: nat, used: set<nat>, slots: nat): nat {
    if made >= 3 && 1 !in used then 1 else LowestFrom(used, 0, slots)
  }

  /** An allocator that takes the lowest free slot three times and then prefers slot 1. */
  function Shifting(slots: nat): Allocator {
    (made: nat, used: set<nat>) => ShiftedFrom(made, used, slots)
  }

  /** It always finds a free slot, and the scripts fail with it. */
  lemma ShiftingFails(slots: nat)
    requires slots >= 2
    ensures FindsFree(Shifting(slots), slots)
    ensures exists es :: !Exec(S.Move(Segments(Shifting(slots))), Start(slots), es).data.ok
  {
    var alloc := Shifting(slots);
    forall made: nat, used: set<nat>, slot: nat {:trigger alloc(made, used), slot in used} | slot < slots && slot !in used
      ensures alloc(made, used) < slots && alloc(made, used) !in used
    {
      LowestIsFree(used, 0, slots, slot);
    }
    assert LowestFrom({}, 0, slots) == 0;
    assert LowestFrom({0}, 0, slots) == LowestFrom({0}, 1, slots) == 1;
    AssertionsHoldIffSlotsDiffer(alloc, slots);
  }
}
