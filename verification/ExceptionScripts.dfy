/**
 What the handlers of samples/cpp_exceptions/src/main.cpp and tests/cpp/concurrency/src/cpp_exceptions.cpp do around the
 handshake: main handles exception after exception, each thrown from the handler of the one before, while the other
 thread rethrows its one exception from handler to handler.
 */
module ExceptionScripts {
  import opened Runs
  import H = StateHandshake
  import X = ExceptionStacks

  const CookieA := 0xAFFEAFFE
  const ExceptionNameLen := 12

  /** The message constants of the exceptions 1, 2, 3, ... */
  type Names = nat -> string

  /** `failed` says that a check failed or an abort was reached. */
  datatype State = State(ctl: H.Control, world: X.World, failed: bool)

  /** A step of the handshake; a `throw` allocates at `addr`. */
  datatype Event = Event(move: H.Event, addr: nat)

  /** `RuntimeException(id, ExceptionX_Name, ...)` */
  function Made(names: Names, id: nat): X.Object {
    X.Object(true, id, names(id), CookieA, CookieA)
  }

  function Prefix(s: string): string {
    if |s| <= ExceptionNameLen then s else s[..ExceptionNameLen]
  }

  /** `cookiesAssert`, `match(id, msg)` and the `typeid` check. */
  predicate Passes(o: X.Object, names: Names, id: nat) {
    && o.cookie1a == CookieA && o.cookie2a == CookieA
    && o.id == id && Prefix(o.message) == Prefix(names(id))
    && o.runtimeException
  }

  /** The exception a thread handles. */
  function Handles(t: nat, phase: nat): nat {
    if t == 0 then phase else 1
  }

  datatype Action = Nothing | Do(op: X.Op)

  /** What a step of thread `t` does to its exceptions. */
  function ActionOf(names: Names, viaPtr: bool, t: nat, l: H.Local, addr: nat): Action {
    match l.pc
    case Throw => Do(X.Throw(addr, Made(names, if t == 0 then l.phase + 1 else 1)))
    case Catch => Do(X.BeginCatch)
    case Capture => Do(X.Capture)
    case Rethrow => Do(if viaPtr then X.RethrowPtr else X.Rethrow)
    case DropPtr => Do(X.DropPtr)
    case Unwind => Do(X.EndCatch)
    case Leave => Do(X.EndCatch)
    case _ => Nothing
  }

  /** The checks a step makes: on the exception handled, and that it was caught as a RuntimeException. */
  predicate ChecksPass(names: Names, t: nat, l: H.Local, w: X.World) {
    && (l.pc in {H.Check, H.Recheck, H.Final} ==>
          && t < |w.stacks| && w.stacks[t].caught != [] && X.Top(w.stacks[t]) in w.pool
          && Passes(w.pool[X.Top(w.stacks[t])].thrown, names, Handles(t, l.phase)))
    && (l.pc == H.Catch ==>
          && t < |w.stacks| && w.stacks[t].inFlight != X.None && w.stacks[t].inFlight.addr in w.pool
          && w.pool[w.stacks[t].inFlight.addr].thrown.runtimeException)
  }

  predicate Enabled(s: State, e: Event) {
    && H.Enabled(s.ctl, e.move)
    && (e.move.Run? && s.ctl.threads[e.move.tid].pc == H.Throw ==> e.addr !in s.world.pool)
  }

  predicate Works(names: Names, viaPtr: bool, t: nat, l: H.Local, w: X.World, addr: nat) {
    var action := ActionOf(names, viaPtr, t, l, addr);
    action.Do? ==> X.Enabled(w, t, action.op)
  }

  /** The exceptions after a step, if its operation can be done. */
  function WorldAfter(names: Names, viaPtr: bool, t: nat, l: H.Local, w: X.World, addr: nat): X.World {
    var action := ActionOf(names, viaPtr, t, l, addr);
    if action.Do? && X.Enabled(w, t, action.op) then X.Do(w, t, action.op) else w
  }

  /** An operation on what is not there is as bad as a failed check. */
  function Apply(names: Names, s: State, e: Event): State
    requires Enabled(s, e)
  {
    match e.move
    case Spurious(t) => s.(ctl := H.Apply(s.ctl, e.move))
    case Run(t) =>
      var l := s.ctl.threads[t];
      State(H.Apply(s.ctl, e.move),
            WorldAfter(names, s.ctl.viaPtr, t, l, s.world, e.addr),
            s.failed || !ChecksPass(names, t, l, s.world) || !Works(names, s.ctl.viaPtr, t, l, s.world, e.addr))
  }

  function Step(names: Names, s: State, e: Event): State {
    if Enabled(s, e) then Apply(names, s, e) else s
  }

  function Start(R: nat, viaPtr: bool): State {
    State(H.Start(R, viaPtr), X.Start(2), false)
  }

  // ----- What each thread refers to -----

  predicate InHandler(t: nat, l: H.Local) {
    if t == 0 then l.phase >= 2 && l.pc !in {H.Catch, H.Exit} else l.pc !in {H.Absent, H.Throw, H.Catch, H.Exit}
  }

  predicate HasPtr(R: nat, viaPtr: bool, t: nat, l: H.Local) {
    && t == 1 && viaPtr
    && (l.pc == H.DropPtr
        || (l.phase + 1 < R
            && l.pc in {H.Check, H.Lock, H.Set, H.Signal, H.Test, H.Waiting, H.Woken, H.Unlock, H.Recheck, H.Rethrow}))
  }

  /** The number and the kind of references a thread has at each point of its script. */
  predicate ShapeFits(R: nat, viaPtr: bool, t: nat, l: H.Local, x: X.Stack) {
    && |x.caught| == (if InHandler(t, l) then 1 else 0)
    && (x.inFlight != X.None <==> l.pc in {H.DropPtr, H.Unwind, H.Catch})
    && (x.ptr != X.None <==> HasPtr(R, viaPtr, t, l))
    && (l.pc in {H.DropPtr, H.Unwind} && t == 1 ==> x.inFlight == X.At(X.Top(x)))
    && (x.ptr != X.None ==> x.ptr == X.At(X.Top(x)))
    && (l.pc in {H.Capture, H.DropPtr} ==> viaPtr)
  }

  /** The exception being thrown, or else the one being handled. */
  function Current(x: X.Stack): X.Ref {
    if x.inFlight != X.None then x.inFlight else if x.caught != [] then X.At(X.Top(x)) else X.None
  }

  /** Its object is as it was made. */
  predicate Intact(names: Names, t: nat, l: H.Local, x: X.Stack, pool: map<nat, X.Slot>) {
    Current(x) != X.None ==> Current(x).addr in pool && pool[Current(x).addr].thrown == Made(names, Handles(t, l.phase))
  }

  predicate Fits(R: nat, t: nat, l: H.Local) {
    if t == 0 then H.MainFits(R, l) else H.OtherFits(R, l)
  }

  lemma ActionShape(names: Names, R: nat, viaPtr: bool, t: nat, l: H.Local, x: X.Stack, addr: nat, state: nat)
    requires t < 2 && Fits(R, t, l) && ShapeFits(R, viaPtr, t, l, x)
    ensures var action, r := ActionOf(names, viaPtr, t, l, addr), H.Advance(R, viaPtr, t, l, state);
            ShapeFits(R, viaPtr, t, r, if action.Do? then X.Move(x, action.op) else x)
  {
  }

  // ----- Every step -----

  ghost predicate ThreadFits(names: Names, s: State, t: nat)
    requires |s.ctl.threads| == 2 && |s.world.stacks| == 2 && t < 2
  {
    && ShapeFits(s.ctl.R, s.ctl.viaPtr, t, s.ctl.threads[t], s.world.stacks[t])
    && Intact(names, t, s.ctl.threads[t], s.world.stacks[t], s.world.pool)
  }

  ghost predicate Inv(names: Names, s: State) {
    && H.Inv(s.ctl) && X.Counted(s.world) && |s.world.stacks| == 2
    && ThreadFits(names, s, 0) && ThreadFits(names, s, 1)
    && !s.failed
  }

  lemma CurrentIsReferred(x: X.Stack)
    ensures Current(x) != X.None ==> X.Refs(x, Current(x).addr) > 0
    ensures x.caught != [] ==> X.Refs(x, X.Top(x)) > 0
  {
  }

  predicate Alive(x: X.Stack, pool: map<nat, X.Slot>) {
    (x.caught != [] ==> X.Top(x) in pool) && (x.ptr != X.None ==> x.ptr.addr in pool)
  }

  lemma StackIsAlive(w: X.World, t: nat)
    requires X.Counted(w) && t < |w.stacks|
    ensures Alive(w.stacks[t], w.pool)
  {
    var x := w.stacks[t];
    CurrentIsReferred(x);
    assert x.ptr != X.None ==> X.Refs(x, x.ptr.addr) > 0;
  }

  /** The operation of a step can be done. */
  lemma StepWorks(names: Names, R: nat, viaPtr: bool, t: nat, l: H.Local, w: X.World, addr: nat)
    requires t < 2 && |w.stacks| == 2 && Fits(R, t, l) && ShapeFits(R, viaPtr, t, l, w.stacks[t])
    requires Alive(w.stacks[t], w.pool)
    requires l.pc == H.Throw ==> addr !in w.pool
    ensures Works(names, viaPtr, t, l, w, addr)
  {
  }

  /** Its checks pass. */
  lemma StepPasses(names: Names, R: nat, viaPtr: bool, t: nat, l: H.Local, w: X.World)
    requires t < 2 && |w.stacks| == 2 && Fits(R, t, l) && ShapeFits(R, viaPtr, t, l, w.stacks[t])
    requires Intact(names, t, l, w.stacks[t], w.pool)
    ensures ChecksPass(names, t, l, w)
  {
  }

  /** A step other than a throw lets go of the current exception or keeps it. */
  lemma CurrentStays(names: Names, R: nat, viaPtr: bool, t: nat, l: H.Local, x: X.Stack, addr: nat, state: nat)
    requires t < 2 && Fits(R, t, l) && ShapeFits(R, viaPtr, t, l, x) && l.pc != H.Throw
    requires ActionOf(names, viaPtr, t, l, addr).Do?
    ensures var r := X.Move(x, ActionOf(names, viaPtr, t, l, addr).op);
            Current(r) == X.None || (Current(x) != X.None && Current(r) == Current(x))
    ensures Handles(t, H.Advance(R, viaPtr, t, l, state).phase) == Handles(t, l.phase)
  {
  }

  /** What the thread refers to after its step was made for it, or is what it was before. */
  lemma StepIntact(names: Names, R: nat, viaPtr: bool, t: nat, l: H.Local, w: X.World, addr: nat, state: nat)
    requires t < 2 && |w.stacks| == 2 && Fits(R, t, l) && X.Counted(w) && ShapeFits(R, viaPtr, t, l, w.stacks[t])
    requires Intact(names, t, l, w.stacks[t], w.pool)
    requires ActionOf(names, viaPtr, t, l, addr).Do? && X.Enabled(w, t, ActionOf(names, viaPtr, t, l, addr).op)
    ensures var r := X.Do(w, t, ActionOf(names, viaPtr, t, l, addr).op);
            |r.stacks| == 2 && Intact(names, t, H.Advance(R, viaPtr, t, l, state), r.stacks[t], r.pool)
  {
    var op := ActionOf(names, viaPtr, t, l, addr).op;
    var r := X.Do(w, t, op);
    if l.pc != H.Throw {
      CurrentStays(names, R, viaPtr, t, l, w.stacks[t], addr, state);
      CurrentIsReferred(w.stacks[t]);
      CurrentIsReferred(r.stacks[t]);
      if Current(r.stacks[t]) != X.None {
        X.ReferredIsSteady(w, t, op, t, Current(r.stacks[t]).addr);
      }
    }
  }

  /** The other thread notices nothing. */
  lemma OtherIntact(names: Names, t: nat, op: X.Op, u: nat, l: H.Local, w: X.World)
    requires |w.stacks| == 2 && X.Counted(w) && X.Enabled(w, t, op) && u < 2 && u != t
    requires Intact(names, u, l, w.stacks[u], w.pool)
    ensures var r := X.Do(w, t, op);
            |r.stacks| == 2 && r.stacks[u] == w.stacks[u] && Intact(names, u, l, w.stacks[u], r.pool)
  {
    CurrentIsReferred(w.stacks[u]);
    if Current(w.stacks[u]) != X.None {
      X.ReferredIsSteady(w, t, op, u, Current(w.stacks[u]).addr);
    }
  }

  /** Being woken or created does not change what a thread refers to. */
  predicate Nudged(l: H.Local, r: H.Local) {
    r == l || (l.pc == H.Waiting && r == l.(pc := H.Woken)) || (l.pc == H.Absent && r == l.(pc := H.Throw))
  }

  lemma NudgeFits(names: Names, R: nat, viaPtr: bool, t: nat, l: H.Local, r: H.Local, x: X.Stack,
                  pool: map<nat, X.Slot>)
    requires t < 2 && Nudged(l, r) && (l.pc == H.Absent ==> t == 1)
    requires ShapeFits(R, viaPtr, t, l, x) && Intact(names, t, l, x, pool)
    ensures ShapeFits(R, viaPtr, t, r, x) && Intact(names, t, r, x, pool)
  {
  }

  /** The step of the handshake, seen from both threads. */
  lemma HandshakeFrame(c: H.Control, t: nat)
    requires H.Inv(c) && H.Enabled(c, H.Run(t))
    ensures var r := H.Apply(c, H.Run(t));
            && |r.threads| == 2 && r.R == c.R && r.viaPtr == c.viaPtr
            && r.threads[t] == H.Advance(c.R, c.viaPtr, t, c.threads[t], c.state)
            && Nudged(c.threads[1 - t], r.threads[1 - t])
            && Fits(c.R, t, c.threads[t])
            && (c.threads[0].pc != H.Absent)
  {
    if t == 0 { H.MainFrame(c); } else { H.OtherFrame(c); }
  }

  lemma OwnWorld(names: Names, R: nat, viaPtr: bool, t: nat, l: H.Local, w: X.World, addr: nat, state: nat)
    requires t < 2 && |w.stacks| == 2 && Fits(R, t, l) && X.Counted(w) && ShapeFits(R, viaPtr, t, l, w.stacks[t])
    requires Intact(names, t, l, w.stacks[t], w.pool)
    requires Works(names, viaPtr, t, l, w, addr) && ActionOf(names, viaPtr, t, l, addr).Do?
    ensures var r, n := WorldAfter(names, viaPtr, t, l, w, addr), H.Advance(R, viaPtr, t, l, state);
            && X.Counted(r) && |r.stacks| == 2
            && ShapeFits(R, viaPtr, t, n, r.stacks[t]) && Intact(names, t, n, r.stacks[t], r.pool)
  {
    ActionShape(names, R, viaPtr, t, l, w.stacks[t], addr, state);
    X.DoCounted(w, t, ActionOf(names, viaPtr, t, l, addr).op);
    StepIntact(names, R, viaPtr, t, l, w, addr, state);
  }

  lemma NothingDone(names: Names, R: nat, viaPtr: bool, t: nat, l: H.Local, x: X.Stack, pool: map<nat, X.Slot>,
                    state: nat)
    requires t < 2 && Fits(R, t, l) && ShapeFits(R, viaPtr, t, l, x) && Intact(names, t, l, x, pool)
    requires ActionOf(names, viaPtr, t, l, 0).Nothing?
    ensures var n := H.Advance(R, viaPtr, t, l, state);
            ShapeFits(R, viaPtr, t, n, x) && Intact(names, t, n, x, pool)
  {
    ActionShape(names, R, viaPtr, t, l, x, 0, state);
  }

  lemma WorldStep(names: Names, R: nat, viaPtr: bool, t: nat, l: H.Local, m: H.Local, w: X.World, addr: nat, state: nat)
    requires t < 2 && |w.stacks| == 2 && Fits(R, t, l) && X.Counted(w) && ShapeFits(R, viaPtr, t, l, w.stacks[t])
    requires Intact(names, t, l, w.stacks[t], w.pool) && Intact(names, 1 - t, m, w.stacks[1 - t], w.pool)
    requires Works(names, viaPtr, t, l, w, addr)
    ensures var r, n := WorldAfter(names, viaPtr, t, l, w, addr), H.Advance(R, viaPtr, t, l, state);
            && X.Counted(r) && |r.stacks| == 2 && r.stacks[1 - t] == w.stacks[1 - t]
            && ShapeFits(R, viaPtr, t, n, r.stacks[t]) && Intact(names, t, n, r.stacks[t], r.pool)
            && Intact(names, 1 - t, m, w.stacks[1 - t], r.pool)
  {
    var action := ActionOf(names, viaPtr, t, l, addr);
    if action.Do? {
      OwnWorld(names, R, viaPtr, t, l, w, addr, state);
      OtherIntact(names, t, action.op, 1 - t, m, w);
    } else {
      NothingDone(names, R, viaPtr, t, l, w.stacks[t], w.pool, state);
    }
  }

  lemma ControlFits(c: H.Control, t: nat)
    requires H.Inv(c) && t < 2
    ensures |c.threads| == 2 && Fits(c.R, t, c.threads[t])
  {
  }

  lemma InvFits(names: Names, s: State, t: nat)
    requires Inv(names, s) && t < 2
    ensures Fits(s.ctl.R, t, s.ctl.threads[t]) && ThreadFits(names, s, t) && Alive(s.world.stacks[t], s.world.pool)
  {
    ControlFits(s.ctl, t);
    StackIsAlive(s.world, t);
    assert t == 0 || t == 1;
  }

  lemma NothingFails(names: Names, s: State, e: Event)
    requires Inv(names, s) && Enabled(s, e) && e.move.Run?
    ensures !Apply(names, s, e).failed
  {
    var c, t := s.ctl, e.move.tid;
    InvFits(names, s, t);
    StepWorks(names, c.R, c.viaPtr, t, c.threads[t], s.world, e.addr);
    StepPasses(names, c.R, c.viaPtr, t, c.threads[t], s.world);
  }

  lemma RunStep(names: Names, s: State, e: Event)
    requires Inv(names, s) && Enabled(s, e) && e.move.Run?
    ensures Inv(names, Apply(names, s, e))
  {
    var c, t, w := s.ctl, e.move.tid, s.world;
    var l, m, u := c.threads[t], c.threads[1 - t], 1 - t;
    NothingFails(names, s, e);
    var r := Apply(names, s, e);
    H.StepInv(c, e.move);
    HandshakeFrame(c, t);
    assert ThreadFits(names, s, t) && ThreadFits(names, s, u);
    InvFits(names, s, t);
    StepWorks(names, c.R, c.viaPtr, t, l, w, e.addr);
    WorldStep(names, c.R, c.viaPtr, t, l, m, w, e.addr, c.state);
    NudgeFits(names, c.R, c.viaPtr, u, m, r.ctl.threads[u], w.stacks[u], r.world.pool);
    assert ThreadFits(names, r, t) && ThreadFits(names, r, u);
  }

  lemma SpuriousStep(names: Names, s: State, e: Event)
    requires Inv(names, s) && Enabled(s, e) && e.move.Spurious?
    ensures Inv(names, Apply(names, s, e))
  {
    var c, t := s.ctl, e.move.tid;
    H.StepInv(c, e.move);
    var r := Apply(names, s, e);
    NudgeFits(names, c.R, c.viaPtr, t, c.threads[t], r.ctl.threads[t], s.world.stacks[t], s.world.pool);
    assert ThreadFits(names, r, t) && ThreadFits(names, r, 1 - t);
  }

  lemma StepInv(names: Names, s: State, e: Event)
    requires Inv(names, s)
    ensures var r := Step(names, s, e); Inv(names, r) && r.ctl.R == s.ctl.R && r.ctl.viaPtr == s.ctl.viaPtr
  {
    if Enabled(s, e) {
      H.StepInv(s.ctl, e.move);
      if e.move.Run? {
        RunStep(names, s, e);
      } else {
        SpuriousStep(names, s, e);
      }
    }
  }

  // ----- All runs -----

  function Move(names: Names): (State, Event) -> State {
    (s: State, e: Event) => Step(names, s, e)
  }

  lemma {:induction false} RunInv(names: Names, R: nat, viaPtr: bool, es: seq<Event>)
    requires R > 0
    ensures var s := Exec(Move(names), Start(R, viaPtr), es);
            Inv(names, s) && s.ctl.R == R && s.ctl.viaPtr == viaPtr
  {
    var inv := (s: State) => Inv(names, s) && s.ctl.R == R && s.ctl.viaPtr == viaPtr;
    forall s, e | inv(s) ensures inv(Move(names)(s, e)) {
      StepInv(names, s, e);
    }
    Invariance(Move(names), inv, Start(R, viaPtr), es);
  }

  /** In a handler, before, in and after its handshake. */
  predicate Handling(t: nat, l: H.Local) {
    InHandler(t, l) && l.pc !in {H.DropPtr, H.Unwind}
  }

  /** What a handler refers to through its `e`: for the other thread always exception 1, for main in phase p exception p,
      with the message of that number, both cookies and the type it was thrown with. */
  predicate SeesItsException(names: Names, s: State, t: nat)
    requires t < |s.ctl.threads|
  {
    && t < |s.world.stacks| && |s.world.stacks[t].caught| == 1
    && s.world.stacks[t].caught[0] in s.world.pool
    && var (e, phase) := (s.world.pool[s.world.stacks[t].caught[0]].thrown, s.ctl.threads[t].phase);
       && e.runtimeException && e.cookie1a == 0xAFFEAFFE && e.cookie2a == 0xAFFEAFFE
       && (t == 0 ==> 2 <= phase <= s.ctl.R + 1 && e.id == phase && e.message == names(phase))
       && (t != 0 ==> phase < s.ctl.R && e.id == 1 && e.message == names(1))
  }

  lemma HandlerSees(names: Names, s: State, t: nat)
    requires Inv(names, s) && t < 2 && Handling(t, s.ctl.threads[t])
    ensures SeesItsException(names, s, t)
  {
    InvFits(names, s, t);
  }

  /** In every run no check fails and no abort is reached: at every moment of a handler, whatever the other thread throws,
      rethrows and destroys meanwhile, its exception has the id, the message, the cookies and the type it was thrown
      with: 1 in every handler of the other thread, 2, 3, ... in those of main. */
  lemma {:induction false} EveryHandlerSeesItsException(names: Names, R: nat, viaPtr: bool, es: seq<Event>)
    requires R > 0
    ensures var s := Exec(Move(names), Start(R, viaPtr), es);
            && !s.failed && |s.ctl.threads| == 2
            && forall t :: 0 <= t < 2 && Handling(t, s.ctl.threads[t]) ==> SeesItsException(names, s, t)
  {
    RunInv(names, R, viaPtr, es);
    var s := Exec(Move(names), Start(R, viaPtr), es);
    forall t | 0 <= t < 2 && Handling(t, s.ctl.threads[t]) ensures SeesItsException(names, s, t) {
      HandlerSees(names, s, t);
    }
  }

  /** An object the checks for exception number `id` let through. */
  predicate LooksLike(o: X.Object, id: nat, message: string) {
    && o.runtimeException && o.cookie1a == 0xAFFEAFFE && o.cookie2a == 0xAFFEAFFE && o.id == id
    && (if |o.message| < 12 then o.message else o.message[..12]) == (if |message| < 12 then message else message[..12])
  }

  lemma PassesIffLooksLike(o: X.Object, names: Names, id: nat)
    ensures Passes(o, names, id) <==> LooksLike(o, id, names(id))
  {
  }

  lemma CheckFails(names: Names, s: State, t: nat)
    requires |s.ctl.threads| == 2 && t < 2 && s.ctl.threads[t].pc in {H.Check, H.Recheck, H.Final}
    ensures Enabled(s, Event(H.Run(t), 0))
    ensures Step(names, s, Event(H.Run(t), 0)).failed <==>
              s.failed || !ChecksPass(names, t, s.ctl.threads[t], s.world)
  {
  }

  lemma CheckedObject(names: Names, s: State, t: nat)
    requires Inv(names, s) && t < 2 && s.ctl.threads[t].pc in {H.Check, H.Recheck, H.Final}
    ensures |s.ctl.threads| == 2 && |s.world.stacks| == 2 && !s.failed
    ensures |s.world.stacks[t].caught| == 1 && s.world.stacks[t].caught[0] in s.world.pool
  {
    InvFits(names, s, t);
  }

  /** Another object in the place of the one thread `t` handles. */
  function Replaced(s: State, t: nat, o: X.Object): State
    requires t < |s.world.stacks| && s.world.stacks[t].caught != [] && s.world.stacks[t].caught[0] in s.world.pool
  {
    var addr := s.world.stacks[t].caught[0];
    s.(world := s.world.(pool := s.world.pool[addr := s.world.pool[addr].(thrown := o)]))
  }

  lemma ReplacedPasses(names: Names, s: State, t: nat, l: H.Local, o: X.Object)
    requires t < |s.world.stacks| && |s.world.stacks[t].caught| == 1 && s.world.stacks[t].caught[0] in s.world.pool
    requires l.pc in {H.Check, H.Recheck, H.Final}
    ensures ChecksPass(names, t, l, Replaced(s, t, o).world) <==> Passes(o, names, Handles(t, l.phase))
  {
  }

  /** Each check of a handler notices any other object in place of its own: it fails exactly when a cookie, the id, the
      type or the first twelve characters of the message differ from those of exception 1 in the other thread, of
      exception p in phase p of main. */
  lemma ChecksNotice(names: Names, s: State, t: nat, o: X.Object)
    requires Inv(names, s) && t < 2 && s.ctl.threads[t].pc in {H.Check, H.Recheck, H.Final}
    ensures s.world.stacks[t].caught != [] && s.world.stacks[t].caught[0] in s.world.pool
    ensures var id := if t == 0 then s.ctl.threads[t].phase else 1;
            Step(names, Replaced(s, t, o), Event(H.Run(t), 0)).failed <==> !LooksLike(o, id, names(id))
  {
    CheckedObject(names, s, t);
    var r := Replaced(s, t, o);
    CheckFails(names, r, t);
    ReplacedPasses(names, s, t, s.ctl.threads[t], o);
    PassesIffLooksLike(o, names, if t == 0 then s.ctl.threads[t].phase else 1);
  }

  // ----- How many checks are made -----

  /** A step that checks the exception of a handler. */
  predicate Checks(s: State, e: Event) {
    Enabled(s, e) && e.move.Run? && s.ctl.threads[e.move.tid].pc in {H.Check, H.Recheck, H.Final}
  }

  /** The checks a thread has yet to make: two in each handler, and a last one by main after the join. */
  function ChecksLeft(R: nat, t: nat, l: H.Local): int {
    if t == 0 then
      if l.phase <= 1 then 2 * R + 1
      else if l.pc in {H.Leave, H.Exit} then 0
      else if l.pc in {H.Join, H.Final} then 1
      else 2 * (R + 1 - l.phase) + 1
           + (if l.pc == H.Throw then 0 else if l.pc in {H.Unwind, H.Catch, H.Check} then 2 else 1)
    else
      2 * (R - 1 - l.phase) + (if l.pc in {H.Rethrow, H.Leave, H.Exit} then 0
                               else if l.pc in {H.Absent, H.Throw, H.DropPtr, H.Unwind, H.Catch, H.Capture, H.Check}
                               then 2
                               else 1)
  }

  lemma AdvanceChecks(R: nat, viaPtr: bool, t: nat, l: H.Local, state: nat)
    requires R > 0 && t < 2 && Fits(R, t, l)
    ensures ChecksLeft(R, t, H.Advance(R, viaPtr, t, l, state))
            == ChecksLeft(R, t, l) - if l.pc in {H.Check, H.Recheck, H.Final} then 1 else 0
  {
  }

  lemma NudgeChecks(R: nat, t: nat, l: H.Local, r: H.Local)
    requires t < 2 && Nudged(l, r) && (l.pc == H.Absent ==> t == 1)
    ensures ChecksLeft(R, t, r) == ChecksLeft(R, t, l)
  {
  }

  function ChecksAhead(c: H.Control): int {
    if |c.threads| == 2 then ChecksLeft(c.R, 0, c.threads[0]) + ChecksLeft(c.R, 1, c.threads[1]) else 0
  }

  lemma RunChecks(c: H.Control, t: nat)
    requires H.Inv(c) && H.Enabled(c, H.Run(t))
    ensures ChecksAhead(H.Apply(c, H.Run(t)))
            == ChecksAhead(c) - if c.threads[t].pc in {H.Check, H.Recheck, H.Final} then 1 else 0
  {
    var r := H.Apply(c, H.Run(t));
    HandshakeFrame(c, t);
    AdvanceChecks(c.R, c.viaPtr, t, c.threads[t], c.state);
    assert c.threads[1 - t].pc == H.Absent ==> t == 0;
    NudgeChecks(c.R, 1 - t, c.threads[1 - t], r.threads[1 - t]);
    assert |r.threads| == 2;
  }

  lemma WokenChecks(c: H.Control, t: nat)
    requires H.Enabled(c, H.Spurious(t))
    ensures ChecksAhead(H.Apply(c, H.Spurious(t))) == ChecksAhead(c)
  {
  }

  lemma StepChecks(names: Names, s: State, e: Event)
    requires H.Inv(s.ctl)
    ensures ChecksAhead(Step(names, s, e).ctl) == ChecksAhead(s.ctl) - if Checks(s, e) then 1 else 0
  {
    if Enabled(s, e) {
      match e.move {
        case Spurious(t) => WokenChecks(s.ctl, t);
        case Run(t) => RunChecks(s.ctl, t);
      }
    }
  }

  lemma ChecksSpend(names: Names, R: nat)
    ensures Spends(Move(names), (s: State) => InvOf(names, R, s), (s: State) => ChecksAhead(s.ctl), Checks)
  {
    forall s: State, e: Event | InvOf(names, R, s)
      ensures InvOf(names, R, Move(names)(s, e))
      ensures ChecksAhead(Move(names)(s, e).ctl) == ChecksAhead(s.ctl) - if Checks(s, e) then 1 else 0
    {
      StepInv(names, s, e);
      StepChecks(names, s, e);
    }
  }

  ghost predicate InvOf(names: Names, R: nat, s: State) {
    Inv(names, s) && s.ctl.R == R
  }

  lemma FitsChecks(R: nat, t: nat, l: H.Local)
    requires Fits(R, t, l) && t < 2
    ensures ChecksLeft(R, t, l) >= 0 && (l.pc == H.Exit ==> ChecksLeft(R, t, l) == 0)
  {
  }

  lemma ChecksToCome(names: Names, R: nat, s: State)
    requires InvOf(names, R, s)
    ensures |s.ctl.threads| == 2 && ChecksAhead(s.ctl) >= 0
    ensures s.ctl.threads[0].pc == H.Exit && s.ctl.threads[1].pc == H.Exit ==> ChecksAhead(s.ctl) == 0
  {
    InvFits(names, s, 0);
    FitsChecks(R, 0, s.ctl.threads[0]);
    InvFits(names, s, 1);
    FitsChecks(R, 1, s.ctl.threads[1]);
  }

  /** No check is skipped: a run makes at most 4R + 1 of them, and has made them all when both threads are through. */
  lemma {:induction false} EveryCheckIsMade(names: Names, R: nat, viaPtr: bool, es: seq<Event>)
    requires R > 0
    ensures var s := Exec(Move(names), Start(R, viaPtr), es);
            var made := StepsWhere(Move(names), Checks, Start(R, viaPtr), es);
            && |s.ctl.threads| == 2
            && made <= 4 * R + 1
            && (s.ctl.threads[0].pc == H.Exit && s.ctl.threads[1].pc == H.Exit ==> made == 4 * R + 1)
  {
    RunInv(names, R, viaPtr, []);
    ChecksSpend(names, R);
    WorkAddsUp(Move(names), (s: State) => InvOf(names, R, s), (s: State) => ChecksAhead(s.ctl), Checks, Start(R, viaPtr),
               es);
    ChecksToCome(names, R, Exec(Move(names), Start(R, viaPtr), es));
  }

  ghost predicate Stuck(s: State) {
    forall e: Event :: e.move.Run? ==> !Enabled(s, e)
  }

  lemma FreeAddress(used: set<nat>) returns (addr: nat)
    ensures forall u :: u in used ==> u < addr
  {
    addr := 0;
    if u :| u in used {
      var rest := FreeAddress(used - {u});
      assert forall v :: v in used ==> v == u || v in used - {u};
      addr := if u < rest then rest else u + 1;
    }
  }

  lemma StuckControl(s: State)
    requires H.Inv(s.ctl) && Stuck(s)
    ensures s.ctl.threads[0].pc == H.Exit && s.ctl.threads[1].pc == H.Exit && s.ctl.state == 2 * s.ctl.R
  {
    var addr := FreeAddress(s.world.pool.Keys);
    forall t ensures !H.Enabled(s.ctl, H.Run(t)) {
      assert !Enabled(s, Event(H.Run(t), addr));
    }
    H.StuckPcs(s.ctl);
    H.StuckTurns(s.ctl.R, s.ctl.threads[0], s.ctl.threads[1], s.ctl.state);
  }

  lemma ExitIsClear(R: nat, viaPtr: bool, t: nat, l: H.Local, x: X.Stack)
    requires ShapeFits(R, viaPtr, t, l, x) && l.pc == H.Exit
    ensures X.Clear(x)
  {
  }

  /** When nobody can go on without a spurious wakeup both threads are through, and no exception is left. */
  lemma {:induction false} StuckRunsLeaveNothing(names: Names, R: nat, viaPtr: bool, es: seq<Event>)
    requires R > 0
    ensures var s := Exec(Move(names), Start(R, viaPtr), es);
            && |s.ctl.threads| == 2
            && (Stuck(s) ==> && s.ctl.threads[0].pc == H.Exit && s.ctl.threads[1].pc == H.Exit && s.ctl.state == 2 * R
                             && s.world.pool == map[])
  {
    RunInv(names, R, viaPtr, es);
    var s := Exec(Move(names), Start(R, viaPtr), es);
    if Stuck(s) {
      StuckControl(s);
      assert ThreadFits(names, s, 0) && ThreadFits(names, s, 1);
      ExitIsClear(R, viaPtr, 0, s.ctl.threads[0], s.world.stacks[0]);
      ExitIsClear(R, viaPtr, 1, s.ctl.threads[1], s.world.stacks[1]);
      X.ClearIsEmpty(s.world);
    }
  }
}
