/**
 Exceptions of several threads, as samples/cpp_exceptions/src/main.cpp and tests/cpp/concurrency/src/cpp_exceptions.cpp
 use them: objects in one pool, and for each thread the exception in flight, the stack of those being handled, and an
 exception pointer.  An object goes when nothing refers to it any more, and its address can be used again.
 */
module ExceptionStacks {
  import opened Runs

  /** What the checks look at: the dynamic type, the id, the message and the two cookies. */
  datatype Object = Object(runtimeException: bool, id: nat, message: string, cookie1a: nat, cookie2a: nat)

  /** A pool entry: the object, the number of references to it and the thread that threw it. */
  datatype Slot = Slot(thrown: Object, refs: nat, thrower: nat)

  datatype Ref = None | At(addr: nat)

  datatype Stack = Stack(caught: seq<nat>, inFlight: Ref, ptr: Ref)

  datatype World = World(pool: map<nat, Slot>, stacks: seq<Stack>)

  /** `throw obj` at a free address, entering a handler, leaving it, `throw;`, taking `std::current_exception()`,
      `std::rethrow_exception` of that pointer, and destroying the pointer. */
  datatype Op = Throw(addr: nat, obj: Object) | BeginCatch | EndCatch | Rethrow | Capture | RethrowPtr | DropPtr

  function Top(x: Stack): nat
    requires x.caught != []
  {
    x.caught[|x.caught| - 1]
  }

  predicate Enabled(w: World, t: nat, op: Op) {
    && t < |w.stacks|
    && var x := w.stacks[t];
       match op
       case Throw(addr, _) => addr !in w.pool && x.inFlight == None
       case BeginCatch => x.inFlight != None
       case EndCatch => x.caught != [] && Top(x) in w.pool
       case Rethrow => x.caught != [] && x.inFlight == None && Top(x) in w.pool
       case Capture => x.caught != [] && x.ptr == None && Top(x) in w.pool
       case RethrowPtr => x.ptr != None && x.inFlight == None && x.ptr.addr in w.pool
       case DropPtr => x.ptr != None && x.ptr.addr in w.pool
  }

  function Retain(pool: map<nat, Slot>, addr: nat): map<nat, Slot>
    requires addr in pool
  {
    pool[addr := pool[addr].(refs := pool[addr].refs + 1)]
  }

  function Release(pool: map<nat, Slot>, addr: nat): map<nat, Slot>
    requires addr in pool
  {
    if pool[addr].refs <= 1 then pool - {addr} else pool[addr := pool[addr].(refs := pool[addr].refs - 1)]
  }

  /** What an operation does to the stack of its thread. */
  function Move(x: Stack, op: Op): Stack {
    match op
    case Throw(addr, _) => x.(inFlight := At(addr))
    case BeginCatch => if x.inFlight == None then x else x.(caught := x.caught + [x.inFlight.addr], inFlight := None)
    case EndCatch => if x.caught == [] then x else x.(caught := x.caught[..|x.caught| - 1])
    case Rethrow => if x.caught == [] then x else x.(inFlight := At(Top(x)))
    case Capture => if x.caught == [] then x else x.(ptr := At(Top(x)))
    case RethrowPtr => x.(inFlight := x.ptr)
    case DropPtr => x.(ptr := None)
  }

  function Do(w: World, t: nat, op: Op): World
    requires Enabled(w, t, op)
  {
    var x := w.stacks[t];
    var pool :=
      match op
      case Throw(addr, obj) => w.pool[addr := Slot(obj, 1, t)]
      case BeginCatch => w.pool
      case EndCatch => Release(w.pool, Top(x))
      case Rethrow => Retain(w.pool, Top(x))
      case Capture => Retain(w.pool, Top(x))
      case RethrowPtr => Retain(w.pool, x.ptr.addr)
      case DropPtr => Release(w.pool, x.ptr.addr);
    World(pool, w.stacks[t := Move(x, op)])
  }

  // ----- Every reference is counted -----

  function One(b: bool): nat {
    if b then 1 else 0
  }

  function Occurs(s: seq<nat>, addr: nat): nat {
    if s == [] then 0 else Occurs(s[..|s| - 1], addr) + One(s[|s| - 1] == addr)
  }

  /** The references of a thread to an address. */
  function Refs(x: Stack, addr: nat): nat {
    Occurs(x.caught, addr) + One(x.inFlight == At(addr)) + One(x.ptr == At(addr))
  }

  /** The pool holds exactly the objects that are referred to, each with its number of references, all of them from the
      thread that threw it. */
  ghost predicate Counted(w: World) {
    && (forall addr :: addr in w.pool ==>
          && w.pool[addr].thrower < |w.stacks|
          && w.pool[addr].refs > 0
          && w.pool[addr].refs == Refs(w.stacks[w.pool[addr].thrower], addr))
    && (forall t, addr :: 0 <= t < |w.stacks| && Refs(w.stacks[t], addr) > 0 ==>
          addr in w.pool && w.pool[addr].thrower == t)
  }

  /** The address a reference is added or taken away for. */
  function Subject(x: Stack, op: Op): nat {
    match op
    case Throw(addr, _) => addr
    case RethrowPtr => if x.ptr == None then 0 else x.ptr.addr
    case DropPtr => if x.ptr == None then 0 else x.ptr.addr
    case BeginCatch => 0
    case _ => if x.caught == [] then 0 else Top(x)
  }

  /** A reference more, a reference less. */
  function Change(op: Op): int {
    match op case BeginCatch => 0 case EndCatch => -1 case DropPtr => -1 case _ => 1
  }

  lemma OccursPush(s: seq<nat>, a: nat, addr: nat)
    ensures Occurs(s + [a], addr) == Occurs(s, addr) + One(a == addr)
  {
    assert (s + [a])[..|s|] == s;
  }

  lemma MoveRefs(w: World, t: nat, op: Op, addr: nat)
    requires Enabled(w, t, op)
    ensures var x := w.stacks[t];
            Refs(Move(x, op), addr) == Refs(x, addr) + if addr == Subject(x, op) then Change(op) else 0
  {
    var x := w.stacks[t];
    if op.BeginCatch? {
      OccursPush(x.caught, x.inFlight.addr, addr);
    }
  }

  /** The references the pool counts for an address. */
  function CountOf(pool: map<nat, Slot>, addr: nat): nat {
    if addr in pool then pool[addr].refs else 0
  }

  lemma DoPool(w: World, t: nat, op: Op, addr: nat)
    requires Enabled(w, t, op) && (forall a :: a in w.pool ==> w.pool[a].refs > 0)
    ensures var r := Do(w, t, op);
            && CountOf(r.pool, addr)
                 == CountOf(w.pool, addr) + (if addr == Subject(w.stacks[t], op) then Change(op) else 0)
            && (addr in r.pool ==> r.pool[addr].refs > 0)
            && (addr in r.pool && addr in w.pool ==>
                 r.pool[addr].thrower == w.pool[addr].thrower && r.pool[addr].thrown == w.pool[addr].thrown)
            && (addr in r.pool && addr !in w.pool ==>
                 op.Throw? && addr == op.addr && r.pool[addr].thrower == t && r.pool[addr].thrown == op.obj)
  {
  }

  /** What `Counted` says of one thread and one address. */
  predicate CountedAt(w: World, u: nat, addr: nat)
    requires u < |w.stacks|
  {
    Refs(w.stacks[u], addr) == if addr in w.pool && w.pool[addr].thrower == u then CountOf(w.pool, addr) else 0
  }

  lemma CountedFrom(w: World)
    requires forall addr :: addr in w.pool ==> w.pool[addr].thrower < |w.stacks| && w.pool[addr].refs > 0
    requires forall u: nat, addr: nat {:trigger CountedAt(w, u, addr)} :: u < |w.stacks| ==> CountedAt(w, u, addr)
    ensures Counted(w)
  {
    forall addr | addr in w.pool ensures w.pool[addr].refs == Refs(w.stacks[w.pool[addr].thrower], addr) {
      assert CountedAt(w, w.pool[addr].thrower, addr);
    }
    forall t, addr | 0 <= t < |w.stacks| && Refs(w.stacks[t], addr) > 0
      ensures addr in w.pool && w.pool[addr].thrower == t
    {
      assert CountedAt(w, t, addr);
    }
  }

  lemma ReferredIsOwn(w: World, t: nat, op: Op)
    requires Counted(w) && Enabled(w, t, op) && !op.Throw? && !op.BeginCatch?
    ensures Subject(w.stacks[t], op) in w.pool && w.pool[Subject(w.stacks[t], op)].thrower == t
  {
    assert Refs(w.stacks[t], Subject(w.stacks[t], op)) > 0;
  }

  lemma DoCountedAt(w: World, t: nat, op: Op, u: nat, addr: nat)
    requires Counted(w) && Enabled(w, t, op) && u < |w.stacks|
    ensures CountedAt(Do(w, t, op), u, addr)
  {
    assert CountedAt(w, u, addr);
    DoPool(w, t, op, addr);
    MoveRefs(w, t, op, addr);
    if !op.Throw? && !op.BeginCatch? {
      ReferredIsOwn(w, t, op);
    }
  }

  lemma DoCounted(w: World, t: nat, op: Op)
    requires Counted(w) && Enabled(w, t, op)
    ensures Counted(Do(w, t, op))
  {
    var r := Do(w, t, op);
    forall u: nat, addr: nat | u < |w.stacks| ensures CountedAt(r, u, addr) {
      DoCountedAt(w, t, op, u, addr);
    }
    forall addr | addr in r.pool ensures r.pool[addr].thrower < |w.stacks| && r.pool[addr].refs > 0 {
      DoPool(w, t, op, addr);
    }
    CountedFrom(r);
  }

  // ----- What a handler sees -----

  /** Whatever any thread does, an object stays as it was thrown for as long as anything refers to it. */
  lemma ReferredIsSteady(w: World, t: nat, op: Op, u: nat, addr: nat)
    requires Counted(w) && Enabled(w, t, op) && u < |w.stacks|
    requires Refs(w.stacks[u], addr) > 0 && Refs(Do(w, t, op).stacks[u], addr) > 0
    ensures addr in w.pool && addr in Do(w, t, op).pool
    ensures Do(w, t, op).pool[addr].thrown == w.pool[addr].thrown
  {
    assert CountedAt(w, u, addr);
    DoCounted(w, t, op);
    assert CountedAt(Do(w, t, op), u, addr);
    DoPool(w, t, op, addr);
  }

  // ----- All runs of any number of threads -----

  datatype Event = Event(tid: nat, op: Op)

  function Step(w: World, e: Event): World {
    if Enabled(w, e.tid, e.op) then Do(w, e.tid, e.op) else w
  }

  function Start(n: nat): World {
    World(map[], seq(n, _ => Stack([], None, None)))
  }

  lemma {:induction false} RunCounted(n: nat, es: seq<Event>)
    ensures Counted(Exec(Step, Start(n), es)) && |Exec(Step, Start(n), es).stacks| == n
  {
    var inv := (w: World) => Counted(w) && |w.stacks| == n;
    forall w, e | inv(w) ensures inv(Step(w, e)) {
      if Enabled(w, e.tid, e.op) {
        DoCounted(w, e.tid, e.op);
      }
    }
    Invariance(Step, inv, Start(n), es);
  }

  predicate Clear(x: Stack) {
    x == Stack([], None, None)
  }

  predicate RefersTo(w: World, t: nat, addr: nat) {
    t < |w.stacks| && Refs(w.stacks[t], addr) > 0
  }

  lemma ClearIsEmpty(w: World)
    requires Counted(w) && forall t :: 0 <= t < |w.stacks| ==> Clear(w.stacks[t])
    ensures w.pool == map[]
  {
    forall addr ensures addr !in w.pool {
      assert forall t :: 0 <= t < |w.stacks| ==> Clear(w.stacks[t]) && Refs(w.stacks[t], addr) == 0;
    }
  }

  /** Whatever the threads throw, catch, rethrow and keep pointers to: what a thread refers to is in the pool and was
      thrown by that thread, so no other thread refers to it; and when no thread refers to anything the pool is empty. */
  lemma {:induction false} NothingDanglesOrLeaks(n: nat, es: seq<Event>)
    ensures var w := Exec(Step, Start(n), es);
            && |w.stacks| == n
            && (forall t, addr :: RefersTo(w, t, addr) ==> addr in w.pool && w.pool[addr].thrower == t)
            && (forall addr :: addr in w.pool ==> exists t :: RefersTo(w, t, addr))
            && ((forall t :: 0 <= t < n ==> Clear(w.stacks[t])) ==> w.pool == map[])
  {
    RunCounted(n, es);
    var w := Exec(Step, Start(n), es);
    forall addr | addr in w.pool ensures exists t :: RefersTo(w, t, addr) {
      assert RefersTo(w, w.pool[addr].thrower, addr);
    }
    if forall t :: 0 <= t < n ==> Clear(w.stacks[t]) {
      ClearIsEmpty(w);
    }
  }
}
