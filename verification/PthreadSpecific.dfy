/**
 tests/pthread/src/pthread_specific.c as objects changed in place: the key variables with the table behind them, and
 the three threads that take turns on them.
 */
module PthreadSpecific {
  import opened Runs
  import opened KeyTable
  import K = KeyScripts
  import S = StageScheduler

  /** The four key variables and the table of keys, the calls made on them and whether every assertion so far held. */
  class Keys {
    const alloc: K.Allocator
    const slots: nat
    var used: set<nat>
    var bound: map<(nat, nat), int>
    var key: nat
    var key2: nat
    var key3: nat
    var key4: nat
    var made: nat
    var calls: seq<K.Call>
    var ok: bool

    function View(): K.World
      reads this
    {
      K.World(Table(slots, used, bound), key, key2, key3, key4, made, calls, ok)
    }

    constructor (alloc: K.Allocator, slots: nat)
      ensures this.alloc == alloc && View() == K.Fresh(slots)
    {
      this.alloc, this.slots := alloc, slots;
      used, bound, key, key2, key3, key4, made, calls, ok := {}, map[], 0, 0, 0, 0, 0, [], true;
    }

    method Create(v: K.Variable)
      modifies this
      ensures View() == K.Create(alloc, old(View()), v)
    {
      if ok {
        var slot := alloc(made, used);
        if slot < slots && slot !in used {
          used, made, calls := used + {slot}, made + 1, calls + [K.Made(v, 0)];
          match v {
            case Key => key := slot;
            case Key2 => key2 := slot;
            case Key3 => key3 := slot;
            case Key4 => key4 := slot;
          }
        } else {
          calls, ok := calls + [K.Made(v, EAGAIN)], false;
        }
      }
    }

    method Delete(v: K.Variable, expected: int)
      modifies this
      ensures View() == K.Delete(old(View()), v, expected)
    {
      if ok {
        var slot := K.ValueOf(View(), v);
        if slot in used {
          used, bound := used - {slot}, map b | b in bound && b.1 != slot :: bound[b];
          calls, ok := calls + [K.Deleted(v, 0)], expected == 0;
        } else {
          calls, ok := calls + [K.Deleted(v, EINVAL)], expected == EINVAL;
        }
      }
    }

    method Set(thread: nat, v: K.Variable, tag: int)
      modifies this
      ensures View() == K.Set(old(View()), thread, v, tag)
    {
      if ok {
        var slot := K.ValueOf(View(), v);
        ok := slot in used;
        calls := calls + [K.Put(thread, v, tag, if ok then 0 else EINVAL)];
        if ok {
          bound := if tag == NULL then bound - {(thread, slot)} else bound[(thread, slot) := tag];
        }
      }
    }

    method Expect(thread: nat, v: K.Variable, value: int)
      modifies this
      ensures View() == K.Expect(old(View()), thread, v, value)
    {
      if ok {
        var slot := K.ValueOf(View(), v);
        var val := if slot in used && (thread, slot) in bound then bound[(thread, slot)] else NULL;
        calls, ok := calls + [K.Got(thread, v, val)], val == value;
      }
    }

    method Fill(thread: nat, v: K.Variable, tag: int)
      modifies this
      ensures View() == K.Fill(old(View()), thread, v, tag)
    {
      Expect(thread, v, NULL);
      Set(thread, v, tag);
      Expect(thread, v, tag);
    }

    method DeleteOnce(v: K.Variable)
      modifies this
      ensures View() == K.DeleteOnce(old(View()), v)
    {
      Delete(v, 0);
      Delete(v, EINVAL);
    }

    method Gone(thread: nat, v: K.Variable)
      modifies this
      ensures View() == K.Gone(old(View()), thread, v)
    {
      Delete(v, EINVAL);
      Expect(thread, v, NULL);
    }

    /** What main does before it creates the others. */
    method Prologue()
      modifies this
      ensures View() == K.Main0(alloc, old(View()))
    {
      Create(K.Key);
      Fill(0, K.Key, K.TagM);
      DeleteOnce(K.Key);
      Expect(0, K.Key, NULL);
      Create(K.Key);
      Fill(0, K.Key, K.TagM);
      Create(K.Key2);
      Fill(0, K.Key2, K.TagM2);
      Expect(0, K.Key, K.TagM);
    }

    method FillBoth(thread: nat, tag: int, tag2: int)
      modifies this
      ensures View() == K.FillBoth(old(View()), thread, tag, tag2)
    {
      Fill(thread, K.Key, tag);
      Fill(thread, K.Key2, tag2);
      Expect(thread, K.Key, tag);
    }

    method KeepsKey(thread: nat, tag: int)
      modifies this
      ensures View() == K.KeepsKey(old(View()), thread, tag)
    {
      Gone(thread, K.Key2);
      Expect(thread, K.Key, tag);
    }

    method BothGone(thread: nat)
      modifies this
      ensures View() == K.BothGone(old(View()), thread)
    {
      Gone(thread, K.Key3);
      Gone(thread, K.Key4);
    }

    method MainStage(stage: nat)
      requires stage in {0, 3, 9, 12}
      modifies this
      ensures View() == K.Script(alloc, stage, old(View()))
    {
      if stage == 0 {
        Prologue();
      } else if stage == 3 {
        Expect(0, K.Key, K.TagM);
        Expect(0, K.Key2, K.TagM2);
        DeleteOnce(K.Key2);
        Expect(0, K.Key2, NULL);
        Expect(0, K.Key, K.TagM);
      } else if stage == 9 {
        Expect(0, K.Key, NULL);
        Gone(0, K.Key2);
        Create(K.Key);
        Expect(0, K.Key, NULL);
        DeleteOnce(K.Key);
      } else {
        Expect(0, K.Key3, NULL);
        Expect(0, K.Key4, NULL);
        DeleteOnce(K.Key3);
        DeleteOnce(K.Key4);
      }
    }

    method Thread1Stage(stage: nat)
      requires stage in {1, 4, 7, 10, 13}
      modifies this
      ensures View() == K.Script(alloc, stage, old(View()))
    {
      if stage == 1 {
        FillBoth(1, K.TagP, K.TagP2);
      } else if stage == 4 {
        KeepsKey(1, K.TagP);
      } else if stage == 7 {
        DeleteOnce(K.Key);
        Expect(1, K.Key, NULL);
      } else if stage == 10 {
        Create(K.Key3);
        Fill(1, K.Key3, K.TagP);
      } else {
        BothGone(1);
      }
    }

    method Thread2Stage(stage: nat)
      requires stage in {2, 5, 8, 14}
      modifies this
      ensures View() == K.Script(alloc, stage, old(View()))
    {
      if stage == 2 {
        FillBoth(2, K.TagK, K.TagK2);
      } else if stage == 5 {
        KeepsKey(2, K.TagK);
      } else if stage == 8 {
        Gone(2, K.Key);
        Create(K.Key4);
        Fill(2, K.Key4, K.TagK);
      } else {
        BothGone(2);
      }
    }

    /** The part of a script that belongs to a stage. */
    method RunStage(stage: nat)
      modifies this
      ensures View() == K.Script(alloc, stage, old(View()))
    {
      if stage in {0, 3, 9, 12} {
        MainStage(stage);
      } else if stage in {1, 4, 7, 10, 13} {
        Thread1Stage(stage);
      } else if stage in {2, 5, 8, 14} {
        Thread2Stage(stage);
      }
    }
  }

  /** The stage counter, the mutex and the threads.  `due`, `cycle` and `log` record the history. */
  class SpecificTest {
    const keys: Keys
    var testStage: nat
    var owner: S.Owner
    var threads: seq<S.Local>
    ghost var due: nat
    ghost var cycle: nat
    ghost var log: seq<S.Entry>

    ghost function View(): S.State<K.World>
      reads this, keys
    {
      S.State(K.THREADS, K.ROUNDS, testStage, due, cycle, owner, threads, log, keys.View())
    }

    constructor (alloc: K.Allocator, slots: nat)
      ensures fresh(keys) && keys.alloc == alloc && keys.slots == slots && View() == K.Start(slots)
    {
      keys := new Keys(alloc, slots);
      testStage, owner, due, cycle, log := 0, S.Free, 0, 0, [];
      threads := seq(K.THREADS, t requires 0 <= t => S.Local(if t == 0 then S.Prologue else S.Absent, t, 0));
    }

    predicate Enabled(e: S.Event)
      reads this, keys
      ensures Enabled(e) == S.Enabled(View(), e)
    {
      && e.tid < |threads|
      && match e
         case Spurious(t) => threads[t].pc == S.Waiting
         case Run(t) =>
           match threads[t].pc {
             case Absent => false
             case Waiting => false
             case Done => false
             case Lock => owner == S.Free
             case Woken => owner == S.Free
             case _ => true
           }
    }

    method Goto(t: nat, pc: S.Pc)
      requires t < |threads|
      modifies this`threads
      ensures threads == old(threads)[t := old(threads)[t].(pc := pc)]
    {
      threads := threads[t := threads[t].(pc := pc)];
    }

    /** One step of `test_stage_wait`, the mutex being locked before it. */
    method TestStageWait(t: nat)
      requires S.Enabled(View(), S.Run(t)) && threads[t].pc in {S.Test, S.Woken}
      modifies this
      ensures View() == S.ApplyRun(K.Segments(keys.alloc), old(View()), t)
    {
      if threads[t].pc == S.Woken {
        owner := S.Held(t);
        Goto(t, S.Test);
      } else if testStage != threads[t].stage {
        owner := S.Free;
        Goto(t, S.Waiting);
      } else {
        Goto(t, S.Segment);
      }
    }

    /** `test_stage = test_stage + 1` */
    method CountStage(t: nat)
      requires S.Enabled(View(), S.Run(t)) && threads[t].pc == S.Increment
      modifies this
      ensures View() == S.ApplyRun(K.Segments(keys.alloc), old(View()), t)
    {
      testStage := testStage + 1;
      if due + 1 == K.THREADS {
        due, cycle := 0, cycle + 1;
      } else {
        due := due + 1;
      }
      Goto(t, S.Broadcast);
    }

    /** `pthread_cond_broadcast(&cv)`; unless it was its last, the thread goes on to wait for its next stage. */
    method Announce(t: nat)
      requires S.Enabled(View(), S.Run(t)) && threads[t].pc == S.Broadcast
      modifies this
      ensures View() == S.ApplyRun(K.Segments(keys.alloc), old(View()), t)
    {
      if threads[t].stage + K.THREADS < K.THREADS * K.ROUNDS {
        threads := S.WakeAll(threads[t := threads[t].(pc := S.Test, stage := threads[t].stage + K.THREADS)]);
      } else {
        threads := S.WakeAll(threads[t := threads[t].(pc := S.Unlock)]);
      }
    }

    /** One step of `test_stage_incr`, or of the first half of `test_stage_incr_wait`. */
    method TestStageIncr(t: nat)
      requires S.Enabled(View(), S.Run(t)) && threads[t].pc in {S.Increment, S.Broadcast}
      modifies this
      ensures View() == S.ApplyRun(K.Segments(keys.alloc), old(View()), t)
    {
      if threads[t].pc == S.Increment {
        CountStage(t);
      } else {
        Announce(t);
      }
    }

    /** Taking and giving back the mutex, and main creating the other two. */
    method LockAndCreate(t: nat)
      requires S.Enabled(View(), S.Run(t)) && threads[t].pc in {S.Lock, S.Create, S.Unlock}
      modifies this
      ensures View() == S.ApplyRun(K.Segments(keys.alloc), old(View()), t)
    {
      var l := threads[t];
      match l.pc {
        case Lock =>
          owner := S.Held(t);
          threads := threads[t := if t == 0 then l.(pc := S.Create, k := 1) else l.(pc := S.Test)];
        case Create =>
          if l.k < K.THREADS {
            threads := threads[t := l.(k := l.k + 1)];
            if l.k < |threads| {
              threads := threads[l.k := S.Local(S.Lock, l.k, 0)];
            }
          } else {
            Goto(t, S.Increment);
          }
        case Unlock =>
          owner := S.Free;
          Goto(t, S.Done);
      }
    }

    /** The thread runs the part of its script that belongs to its stage. */
    method RunSegment(t: nat)
      requires S.Enabled(View(), S.Run(t)) && threads[t].pc in {S.Prologue, S.Segment}
      modifies this, keys
      ensures View() == S.ApplyRun(K.Segments(keys.alloc), old(View()), t)
    {
      log := log + [S.Entry(t, cycle)];
      keys.RunStage(threads[t].stage);
      Goto(t, if threads[t].pc == S.Prologue then S.Lock else S.Increment);
    }

    method StepOnce(e: S.Event)
      modifies this, keys
      ensures View() == S.Step(K.Segments(keys.alloc), old(View()), e)
    {
      if Enabled(e) {
        match e {
          case Spurious(t) => Goto(t, S.Woken);
          case Run(t) =>
            if threads[t].pc in {S.Test, S.Woken} {
              TestStageWait(t);
            } else if threads[t].pc in {S.Increment, S.Broadcast} {
              TestStageIncr(t);
            } else if threads[t].pc in {S.Prologue, S.Segment} {
              RunSegment(t);
            } else {
              LockAndCreate(t);
            }
        }
      }
    }

    /** Runs the three threads under a schedule.  `ended` means that nobody can go on without a spurious wakeup. */
    method Run(schedule: seq<S.Event>) returns (ended: bool)
      requires K.FindsFree(keys.alloc, keys.slots) && keys.slots >= 2 && View() == K.Start(keys.slots)
      modifies this, keys
      ensures View() == Exec(S.Move(K.Segments(keys.alloc)), K.Start(keys.slots), schedule)
      ensures Valid(keys.View().table)
      ensures K.FourthKey(keys.alloc) != K.SecondKey(keys.alloc) ==> keys.ok
      ensures ended <==> S.Stuck(View())
      ensures ended ==> testStage == 15 && forall t :: 0 <= t < |threads| ==> threads[t].pc == S.Done
      ensures ended && keys.ok ==> keys.used == {} && keys.bound == map[] && keys.made == 6 && keys.calls == K.Log(15)
    {
      ghost var start := View();
      for k := 0 to |schedule|
        invariant View() == Exec(S.Move(K.Segments(keys.alloc)), start, schedule[..k])
      {
        assert schedule[..k + 1][..k] == schedule[..k];
        StepOnce(schedule[k]);
      }
      assert schedule[..|schedule|] == schedule;
      K.RunValid(keys.alloc, keys.slots, schedule);
      K.EveryAssertionHolds(keys.alloc, keys.slots, schedule);
      K.StuckRunsEndAtFifteen(keys.alloc, keys.slots, schedule);
      ended := forall t :: 0 <= t < |threads| ==> !Enabled(S.Run(t));
      assert forall t: nat :: S.Enabled(View(), S.Run(t)) ==> t < |threads|;
    }
  }
}
