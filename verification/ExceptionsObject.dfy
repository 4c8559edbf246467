/**
 The handshake test of samples/cpp_exceptions/src/main.cpp and tests/cpp/concurrency/src/cpp_exceptions.cpp as an object
 whose threads are stepped in place.
 */
module ExceptionsObject {
  import opened Runs
  import H = StateHandshake
  import X = ExceptionStacks
  import Scripts = ExceptionScripts

  class ExceptionTest {
    const rounds: nat
    const viaPtr: bool
    const names: Scripts.Names
    var owner: H.Owner
    var state: nat
    var threads: seq<H.Local>
    var pool: map<nat, X.Slot>
    var stacks: seq<X.Stack>
    var failed: bool
    ghost var history: seq<nat>
    var spurious: nat

    ghost function Handshake(): H.Control
      reads this
    {
      H.Control(rounds, viaPtr, owner, threads, state, history, spurious)
    }

    ghost function View(): Scripts.State
      reads this
    {
      Scripts.State(Handshake(), X.World(pool, stacks), failed)
    }

    constructor (rounds: nat, viaPtr: bool, names: Scripts.Names)
      ensures this.rounds == rounds && this.viaPtr == viaPtr && this.names == names
      ensures View() == Scripts.Start(rounds, viaPtr)
    {
      this.rounds, this.viaPtr, this.names := rounds, viaPtr, names;
      owner, state, threads := H.Free, 0, [H.Local(H.Lock, 0), H.Local(H.Absent, 0)];
      pool, stacks, failed, history, spurious := map[], seq(2, _ => X.Stack([], X.None, X.None)), false, [], 0;
    }

    function World(): X.World
      reads this
    {
      X.World(pool, stacks)
    }

    predicate Enabled(e: Scripts.Event)
      reads this
      ensures Enabled(e) == Scripts.Enabled(View(), e)
    {
      && |threads| == 2 && e.move.tid < 2
      && match e.move
         case Spurious(t) => threads[t].pc == H.Waiting
         case Run(t) =>
           match threads[t].pc {
             case Absent => false
             case Waiting => false
             case Exit => false
             case Lock => owner == H.Free
             case Woken => owner == H.Free
             case Join => threads[1].pc == H.Exit
             case Throw => e.addr !in pool
             case _ => true
           }
    }

    method Goto(t: nat, pc: H.Pc)
      requires t < |threads|
      modifies this`threads
      ensures threads == old(threads)[t := old(threads)[t].(pc := pc)]
    {
      threads := threads[t := threads[t].(pc := pc)];
    }

    /** `state = next` and `pthread_cond_signal(&cv)` */
    method SetAndSignal(t: nat)
      requires H.Enabled(Handshake(), H.Run(t)) && threads[t].pc in {H.Set, H.Signal}
      modifies this`state, this`threads, this`history
      ensures Handshake() == H.Apply(old(Handshake()), H.Run(t))
    {
      if threads[t].pc == H.Set {
        var next := H.NextState(t, threads[t].phase);
        state, history := next, history + [next];
        Goto(t, H.Signal);
      } else {
        Goto(t, H.Test);
        if threads[1 - t].pc == H.Waiting {
          Goto(1 - t, H.Woken);
        }
      }
    }

    /** `while (state != waitingFor)` and the wait */
    method AwaitState(t: nat)
      requires H.Enabled(Handshake(), H.Run(t)) && threads[t].pc in {H.Test, H.Woken}
      modifies this`owner, this`threads
      ensures Handshake() == H.Apply(old(Handshake()), H.Run(t))
    {
      if threads[t].pc == H.Woken {
        owner := H.Held(t);
        Goto(t, H.Test);
      } else if state != H.WaitingFor(rounds, t, threads[t].phase) {
        owner := H.Free;
        Goto(t, H.Waiting);
      } else {
        Goto(t, H.Unlock);
      }
    }

    /** One step of `SetStateSignalAndWait(next, waitingFor)` or `WaitState(waitingFor)`. */
    method HandshakeStep(t: nat)
      requires H.Enabled(Handshake(), H.Run(t))
      requires threads[t].pc in {H.Lock, H.Set, H.Signal, H.Test, H.Woken, H.Unlock}
      modifies this`owner, this`state, this`threads, this`history
      ensures Handshake() == H.Apply(old(Handshake()), H.Run(t))
    {
      if threads[t].pc in {H.Set, H.Signal} {
        SetAndSignal(t);
      } else if threads[t].pc in {H.Test, H.Woken} {
        AwaitState(t);
      } else if threads[t].pc == H.Lock {
        owner := H.Held(t);
        Goto(t, if t == 0 && threads[t].phase == 1 then H.Test else H.Set);
      } else {
        owner := H.Free;
        Goto(t, H.AfterWait(t, threads[t].phase));
      }
    }

    /** `cookiesAssert`, `match(id, msg)` and the `typeid` check on the exception a handler has. */
    method CheckException(t: nat)
      requires t < |threads| && t < |stacks| && threads[t].pc in {H.Check, H.Recheck, H.Final}
      modifies this`failed
      ensures failed == (old(failed) || !Scripts.ChecksPass(names, t, threads[t], X.World(pool, stacks)))
    {
      var x := stacks[t];
      if x.caught == [] || x.caught[|x.caught| - 1] !in pool {
        failed := true;
      } else {
        var e := pool[x.caught[|x.caught| - 1]].thrown;
        var id := if t == 0 then threads[t].phase else 1;
        if e.cookie1a != Scripts.CookieA || e.cookie2a != Scripts.CookieA {
          failed := true;
        }
        var msg := names(id);
        var messageLen := if |e.message| < Scripts.ExceptionNameLen then |e.message| else Scripts.ExceptionNameLen;
        var msgLen := if |msg| < Scripts.ExceptionNameLen then |msg| else Scripts.ExceptionNameLen;
        if e.id != id || messageLen != msgLen || e.message[..messageLen] != msg[..msgLen] {
          failed := true;
        }
        if !e.runtimeException {
          failed := true;
        }
      }
    }

    /** The checks before, after and at the end of a handler's handshake. */
    method CheckStep(t: nat)
      requires Scripts.Enabled(View(), Scripts.Event(H.Run(t), 0)) && threads[t].pc in {H.Check, H.Recheck, H.Final}
      requires t < |stacks|
      modifies this`failed, this`threads
      ensures View() == Scripts.Apply(names, old(View()), Scripts.Event(H.Run(t), 0))
    {
      CheckException(t);
      var phase := threads[t].phase;
      match threads[t].pc {
        case Check => Goto(t, H.Lock);
        case Recheck =>
          if t == 0 {
            Goto(t, if phase <= rounds then H.Throw else H.Join);
          } else {
            Goto(t, if phase + 1 < rounds then H.Rethrow else H.Leave);
          }
        case Final => Goto(t, H.Leave);
      }
    }

    /** Main creates and joins the other thread. */
    method CreateOrJoin(t: nat)
      requires Scripts.Enabled(View(), Scripts.Event(H.Run(t), 0)) && threads[t].pc in {H.Create, H.Join}
      modifies this`threads
      ensures View() == Scripts.Apply(names, old(View()), Scripts.Event(H.Run(t), 0))
    {
      if threads[t].pc == H.Join {
        Goto(t, H.Final);
      } else {
        threads := threads[t := H.Local(H.Lock, 1)];
        Goto(1, H.Throw);
      }
    }

    /** One more reference to a pooled object. */
    method Retain(addr: nat)
      requires addr in pool
      modifies this`pool
      ensures pool == X.Retain(old(pool), addr)
    {
      pool := pool[addr := pool[addr].(refs := pool[addr].refs + 1)];
    }

    /** One reference less; the last one destroys the object. */
    method Release(addr: nat)
      requires addr in pool
      modifies this`pool
      ensures pool == X.Release(old(pool), addr)
    {
      if pool[addr].refs <= 1 {
        pool := pool - {addr};
      } else {
        pool := pool[addr := pool[addr].(refs := pool[addr].refs - 1)];
      }
    }

    /** An object is made at a free address and is in flight. */
    method MakeException(t: nat, id: nat, addr: nat)
      requires t < |stacks| && addr !in pool
      modifies this`failed, this`pool, this`stacks
      ensures var op := X.Throw(addr, Scripts.Made(names, id));
              && World() == (if X.Enabled(old(World()), t, op) then X.Do(old(World()), t, op) else old(World()))
              && failed == (old(failed) || !X.Enabled(old(World()), t, op))
    {
      if stacks[t].inFlight == X.None {
        pool := pool[addr := X.Slot(X.Object(true, id, names(id), Scripts.CookieA, Scripts.CookieA), 1, t)];
        stacks := stacks[t := stacks[t].(inFlight := X.At(addr))];
      } else {
        failed := true;
      }
    }

    /** `throw RuntimeException(...)` */
    method ThrowNew(t: nat, addr: nat)
      requires Scripts.Enabled(View(), Scripts.Event(H.Run(t), addr)) && threads[t].pc == H.Throw && t < |stacks|
      modifies this`failed, this`threads, this`pool, this`stacks
      ensures View() == Scripts.Apply(names, old(View()), Scripts.Event(H.Run(t), addr))
    {
      var phase := threads[t].phase;
      MakeException(t, if t == 0 then phase + 1 else 1, addr);
      if t == 1 {
        Goto(t, H.Catch);
      } else {
        threads := threads[t := H.Local(if phase == 1 then H.Catch else H.Unwind, phase + 1)];
      }
    }

    /** Entering `catch (RuntimeException const &e)`; any other type goes on to `catch (...)` and aborts. */
    method EnterHandler(t: nat)
      requires Scripts.Enabled(View(), Scripts.Event(H.Run(t), 0)) && threads[t].pc == H.Catch && t < |stacks|
      modifies this`failed, this`threads, this`stacks
      ensures View() == Scripts.Apply(names, old(View()), Scripts.Event(H.Run(t), 0))
    {
      var x := stacks[t];
      if x.inFlight == X.None {
        failed := true;
      } else {
        var addr := x.inFlight.addr;
        if addr !in pool || !pool[addr].thrown.runtimeException {
          failed := true;
        }
        stacks := stacks[t := X.Stack(x.caught + [addr], X.None, x.ptr)];
      }
      Goto(t, if viaPtr && t == 1 && threads[t].phase + 1 < rounds then H.Capture else H.Check);
    }

    /** A pointer to the object handled is kept. */
    method PointToCaught(t: nat)
      requires t < |stacks|
      modifies this`failed, this`pool, this`stacks
      ensures World()
                == (if X.Enabled(old(World()), t, X.Capture) then X.Do(old(World()), t, X.Capture) else old(World()))
      ensures failed == (old(failed) || !X.Enabled(old(World()), t, X.Capture))
    {
      var x := stacks[t];
      if x.caught != [] && x.ptr == X.None && x.caught[|x.caught| - 1] in pool {
        Retain(x.caught[|x.caught| - 1]);
        stacks := stacks[t := x.(ptr := X.At(x.caught[|x.caught| - 1]))];
      } else {
        failed := true;
      }
    }

    /** `eptr = std::current_exception()` */
    method CapturePointer(t: nat)
      requires Scripts.Enabled(View(), Scripts.Event(H.Run(t), 0)) && threads[t].pc == H.Capture && t < |stacks|
      modifies this`failed, this`threads, this`pool, this`stacks
      ensures View() == Scripts.Apply(names, old(View()), Scripts.Event(H.Run(t), 0))
    {
      PointToCaught(t);
      Goto(t, H.Check);
      assert Handshake() == H.Apply(old(Handshake()), H.Run(t));
    }

    /** `throw;`: the object handled is in flight again. */
    method RethrowCaught(t: nat)
      requires t < |stacks|
      modifies this`failed, this`pool, this`stacks
      ensures World()
                == (if X.Enabled(old(World()), t, X.Rethrow) then X.Do(old(World()), t, X.Rethrow) else old(World()))
      ensures failed == (old(failed) || !X.Enabled(old(World()), t, X.Rethrow))
    {
      var x := stacks[t];
      if x.inFlight == X.None && x.caught != [] && x.caught[|x.caught| - 1] in pool {
        Retain(x.caught[|x.caught| - 1]);
        stacks := stacks[t := x.(inFlight := X.At(x.caught[|x.caught| - 1]))];
      } else {
        failed := true;
      }
    }

    /** `std::rethrow_exception(eptr)`: the object pointed to is in flight again. */
    method RethrowPointer(t: nat)
      requires t < |stacks|
      modifies this`failed, this`pool, this`stacks
      ensures World()
                == (if X.Enabled(old(World()), t, X.RethrowPtr) then X.Do(old(World()), t, X.RethrowPtr) else old(World()))
      ensures failed == (old(failed) || !X.Enabled(old(World()), t, X.RethrowPtr))
    {
      var x := stacks[t];
      if x.inFlight == X.None && x.ptr != X.None && x.ptr.addr in pool {
        Retain(x.ptr.addr);
        stacks := stacks[t := x.(inFlight := x.ptr)];
      } else {
        failed := true;
      }
    }

    /** Rethrowing, in either way. */
    method RethrowSame(t: nat)
      requires Scripts.Enabled(View(), Scripts.Event(H.Run(t), 0)) && threads[t].pc == H.Rethrow && t < |stacks|
      modifies this`failed, this`threads, this`pool, this`stacks
      ensures View() == Scripts.Apply(names, old(View()), Scripts.Event(H.Run(t), 0))
    {
      if viaPtr {
        RethrowPointer(t);
        threads := threads[t := H.Local(H.DropPtr, threads[t].phase + 1)];
      } else {
        RethrowCaught(t);
        threads := threads[t := H.Local(H.Unwind, threads[t].phase + 1)];
      }
      assert Handshake() == H.Apply(old(Handshake()), H.Run(t));
    }

    /** The exception pointer of a handler that is left goes out of scope. */
    method DropPointer(t: nat)
      requires Scripts.Enabled(View(), Scripts.Event(H.Run(t), 0)) && threads[t].pc == H.DropPtr && t < |stacks|
      modifies this`failed, this`threads, this`pool, this`stacks
      ensures View() == Scripts.Apply(names, old(View()), Scripts.Event(H.Run(t), 0))
    {
      var x := stacks[t];
      if x.ptr != X.None && x.ptr.addr in pool {
        Release(x.ptr.addr);
        stacks := stacks[t := x.(ptr := X.None)];
      } else {
        failed := true;
      }
      Goto(t, H.Unwind);
    }

    /** Leaving a handler, by a throw out of it or at its end: what it handled is handled no more. */
    method LeaveHandler(t: nat)
      requires Scripts.Enabled(View(), Scripts.Event(H.Run(t), 0)) && threads[t].pc in {H.Unwind, H.Leave}
      requires t < |stacks|
      modifies this`failed, this`threads, this`pool, this`stacks
      ensures View() == Scripts.Apply(names, old(View()), Scripts.Event(H.Run(t), 0))
    {
      var x := stacks[t];
      if x.caught != [] && x.caught[|x.caught| - 1] in pool {
        Release(x.caught[|x.caught| - 1]);
        stacks := stacks[t := x.(caught := x.caught[..|x.caught| - 1])];
      } else {
        failed := true;
      }
      Goto(t, if threads[t].pc == H.Unwind then H.Catch else H.Exit);
    }

    /** One step of throwing, catching, rethrowing and leaving handlers. */
    method ExceptionStep(t: nat, addr: nat)
      requires Scripts.Enabled(View(), Scripts.Event(H.Run(t), addr)) && t < |stacks|
      requires threads[t].pc in {H.Throw, H.Catch, H.Capture, H.Rethrow, H.DropPtr, H.Unwind, H.Leave}
      modifies this`failed, this`threads, this`pool, this`stacks
      ensures View() == Scripts.Apply(names, old(View()), Scripts.Event(H.Run(t), addr))
    {
      match threads[t].pc {
        case Throw => ThrowNew(t, addr);
        case Catch => EnterHandler(t);
        case Capture => CapturePointer(t);
        case Rethrow => RethrowSame(t);
        case DropPtr => DropPointer(t);
        case Unwind => LeaveHandler(t);
        case Leave => LeaveHandler(t);
      }
    }

    method StepOnce(e: Scripts.Event)
      requires |stacks| == 2
      modifies this
      ensures View() == Scripts.Step(names, old(View()), e) && |stacks| == 2
    {
      if Enabled(e) {
        match e.move {
          case Spurious(t) =>
            Goto(t, H.Woken);
            spurious := spurious + 1;
          case Run(t) =>
            if threads[t].pc in {H.Lock, H.Set, H.Signal, H.Test, H.Woken, H.Unlock} {
              HandshakeStep(t);
            } else if threads[t].pc in {H.Check, H.Recheck, H.Final} {
              CheckStep(t);
            } else if threads[t].pc in {H.Create, H.Join} {
              CreateOrJoin(t);
            } else {
              ExceptionStep(t, e.addr);
            }
        }
      }
    }

    /** Runs both threads under a schedule: no check fails, the states come in order, and if nobody can go on both
        threads are through, in state 2*rounds and with no exception left. */
    method Run(schedule: seq<Scripts.Event>)
      requires rounds > 0 && View() == Scripts.Start(rounds, viaPtr)
      modifies this
      ensures View() == Exec(Scripts.Move(names), Scripts.Start(rounds, viaPtr), schedule)
      ensures !failed && |threads| == 2
      ensures forall t :: 0 <= t < 2 && Scripts.Handling(t, threads[t]) ==> Scripts.SeesItsException(names, View(), t)
      ensures Scripts.Stuck(View()) ==>
                threads[0].pc == H.Exit && threads[1].pc == H.Exit && state == 2 * rounds && pool == map[]
    {
      ghost var start := View();
      for k := 0 to |schedule|
        invariant View() == Exec(Scripts.Move(names), start, schedule[..k]) && |stacks| == 2
      {
        assert schedule[..k + 1][..k] == schedule[..k];
        StepOnce(schedule[k]);
      }
      assert schedule[..|schedule|] == schedule;
      Scripts.EveryHandlerSeesItsException(names, rounds, viaPtr, schedule);
      Scripts.StuckRunsLeaveNothing(names, rounds, viaPtr, schedule);
    }
  }
}
