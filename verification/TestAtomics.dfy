/**
 `TestAtomics00<false>` (samples/cpp_atomic_pong/src/main.cpp) as an object whose threads are stepped in place.
 */
module TestAtomics {
  import opened Runs
  import opened MemoryModel
  import P = PingPong
  import Limits = PingPongLimits

  class AtomicsTest {
    const pingCount: nat
    var threads: seq<P.Local>
    var joining: bool
    var tlsCounter: int
    var mem: Memory
    var failed: bool

    function View(): P.State
      reads this
    {
      P.State(pingCount, threads, joining, tlsCounter, mem, failed)
    }

    /** `reset(PING)` and the creation of the threads */
    constructor (pingCount: nat)
      ensures this.pingCount == pingCount && View() == P.Start(pingCount)
    {
      this.pingCount := pingCount;
      threads := seq(2, _ => P.Local(P.Ready, pingCount, 0, [0, 0, 0, 0], 0, 0));
      joining, tlsCounter, failed := false, 0, false;
      mem := Begin(2, [P.PING, 0, 0, 0], [0, P.PING, 0]);
    }

    /** Getting ready, `while(count--)`, `wait_for` and the check of the status after it; the same in both threads. */
    method AwaitTurn(t: nat)
      requires P.Enabled(View(), P.Event(t, 0)) && t < 2 && threads[t].pc in {P.Ready, P.Spin, P.Recheck}
      modifies this
      ensures View() == P.Apply(old(View()), P.Event(t, 0))
    {
      var l := threads[t];
      match l.pc {
        case Ready =>
          mem := Increment(mem, t, P.READY);
          threads := threads[t := P.Again(l)];
        case Spin =>
          var status := mem.atoms[P.STATUS].value;
          mem := Load(mem, t, P.STATUS);
          if status == P.Mine(t) {
            threads := threads[t := l.(pc := P.Recheck)];
          }
        case Recheck =>
          failed := failed || mem.atoms[P.STATUS].value != P.Mine(t);
          mem := Load(mem, t, P.STATUS);
          threads := threads[t := l.(pc := P.Copy, field := 0)];
      }
    }

    /** `PingPong pp = pingpong`, one field; a plain read returns write `pick`. */
    method CopyRecord(t: nat, pick: nat)
      requires P.Enabled(View(), P.Event(t, pick)) && t < 2 && threads[t].pc == P.Copy
      modifies this
      ensures View() == P.Apply(old(View()), P.Event(t, pick))
    {
      var l := threads[t];
      var pp := l.pp[l.field := mem.cells[l.field].writes[pick].value];
      mem := Read(mem, t, l.field);
      if l.field < 3 {
        threads := threads[t := l.(pp := pp, field := l.field + 1)];
      } else {
        threads := threads[t := l.(pp := pp, field := 0, pc := P.CheckCount)];
      }
    }

    /** `pingpong = pp`, one field */
    method PublishRecord(t: nat)
      requires P.Enabled(View(), P.Event(t, 0)) && t < 2 && threads[t].pc == P.Publish
      modifies this
      ensures View() == P.Apply(old(View()), P.Event(t, 0))
    {
      var l := threads[t];
      mem := Assign(mem, t, l.field, l.pp[l.field]);
      if l.field < 3 {
        threads := threads[t := l.(field := l.field + 1)];
      } else {
        threads := threads[t := l.(field := 0, pc := P.StoreStatus)];
      }
    }

    /** What `ping` does with its copy of the record and the counter. */
    method Ping()
      requires P.Enabled(View(), P.Event(0, 0))
      requires threads[0].pc in {P.CheckCount, P.LoadCount, P.StoreCount, P.StoreStatus}
      modifies this
      ensures View() == P.Apply(old(View()), P.Event(0, 0))
    {
      var l := threads[0];
      var status, total, pings, pongs := l.pp[0], l.pp[1], l.pp[2], l.pp[3];
      match l.pc {
        case CheckCount =>
          failed := failed || status != P.PING || mem.atoms[P.COUNTER].value != total || total != pings + pongs
                    || l.tls != pings;
          mem := Load(mem, 0, P.COUNTER);
          threads := threads[0 := l.(pc := P.LoadCount)];
        case LoadCount =>
          var counter := mem.atoms[P.COUNTER].value;
          mem := Load(mem, 0, P.COUNTER);
          threads := threads[0 := l.(loaded := counter, pc := P.StoreCount)];
        case StoreCount =>
          mem := Store(mem, 0, P.COUNTER, l.loaded + 1);
          threads := threads[0 := l.(tls := l.tls + 1, pp := [P.PONG, total + 1, pings + 1, pongs], field := 0,
                                     pc := P.Publish)];
        case StoreStatus =>
          mem := Store(mem, 0, P.STATUS, P.PONG);
          threads := threads[0 := P.Again(l)];
      }
    }

    /** What `pong` does with them. */
    method Pong()
      requires P.Enabled(View(), P.Event(1, 0))
      requires threads[1].pc in {P.CheckCount, P.LoadCount, P.StoreCount, P.StoreStatus}
      modifies this
      ensures View() == P.Apply(old(View()), P.Event(1, 0))
    {
      var l := threads[1];
      var status, total, pings, pongs := l.pp[0], l.pp[1], l.pp[2], l.pp[3];
      var next := if l.count > 0 then P.PING else P.IDLE;
      match l.pc {
        case CheckCount =>
          failed := failed || status != P.PONG || mem.atoms[P.COUNTER].value != total || total != pings + pongs
                    || l.tls != pongs;
          mem := Load(mem, 1, P.COUNTER);
          threads := threads[1 := l.(pc := P.LoadCount)];
        case LoadCount =>
          var counter := mem.atoms[P.COUNTER].value;
          mem := Load(mem, 1, P.COUNTER);
          threads := threads[1 := l.(loaded := counter, pc := P.StoreCount)];
        case StoreCount =>
          mem := Store(mem, 1, P.COUNTER, l.loaded + 1);
          threads := threads[1 := l.(tls := l.tls + 1, pp := [next, total + 1, pings, pongs + 1], field := 0,
                                     pc := P.Publish)];
        case StoreStatus =>
          mem := Store(mem, 1, P.STATUS, next);
          threads := threads[1 := P.Again(l)];
      }
    }

    /** One step of either thread. */
    method ThreadStep(e: P.Event)
      requires P.Enabled(View(), e) && e.tid < 2
      modifies this
      ensures View() == P.Apply(old(View()), e)
    {
      if threads[e.tid].pc in {P.Ready, P.Spin, P.Recheck} {
        AwaitTurn(e.tid);
      } else if threads[e.tid].pc == P.Copy {
        CopyRecord(e.tid, e.pick);
      } else if threads[e.tid].pc == P.Publish {
        PublishRecord(e.tid);
      } else if e.tid == 0 {
        Ping();
      } else {
        Pong();
      }
    }

    method StepOnce(e: P.Event)
      modifies this
      ensures View() == P.Step(old(View()), e)
    {
      if P.Enabled(View(), e) {
        if e.tid == 2 {
          joining := mem.atoms[P.READY].value == 2;
          mem := Load(mem, 2, P.READY);
        } else {
          ThreadStep(e);
        }
      }
    }

    /** `test01` under a schedule: no REQUIRE fails, nothing races, and if both threads get done the counter and the
        status are as main requires, exactly when there was something to play. */
    method Test01(schedule: seq<P.Event>) returns (done: bool)
      requires View() == P.Start(pingCount)
      modifies this
      ensures View() == Exec(P.Step, P.Start(pingCount), schedule)
      ensures !failed && !mem.raced
      ensures P.Fits(View())
      ensures done <==> Limits.Finished(View())
      ensures done ==> forall pp :: Limits.MainMayCopy(View(), pp) ==>
                (Limits.FinalRequires(pingCount, pp, mem.atoms[P.COUNTER].value, mem.atoms[P.STATUS].value, tlsCounter)
                 <==> pingCount >= 1)
    {
      ghost var start := View();
      for k := 0 to |schedule|
        invariant View() == Exec(P.Step, start, schedule[..k])
      {
        assert schedule[..k + 1][..k] == schedule[..k];
        StepOnce(schedule[k]);
      }
      assert schedule[..|schedule|] == schedule;
      P.EveryRunTakesTurns(pingCount, schedule);
      done := joining && forall t :: 0 <= t < |threads| ==> threads[t].pc == P.Done;
      if done {
        forall pp | Limits.MainMayCopy(View(), pp)
          ensures Limits.FinalRequires(pingCount, pp, mem.atoms[P.COUNTER].value, mem.atoms[P.STATUS].value, tlsCounter)
                  <==> pingCount >= 1
        {
          Limits.FinalRequiresIffPlayed(pingCount, schedule, pp);
        }
      }
    }
  }
}
