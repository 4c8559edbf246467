/**
 What `ping` and `pong` do, round by round: the record each reads, the count and the record each leaves, and the status
 with which each passes the turn.
 */
module PingPongTrace {
  import opened Runs
  import opened MemoryModel
  import opened HappensBefore
  import opened Traces
  import opened PingPong
  import opened PingPongLimits

  /** The operations of thread `t` in the turns, loads apart, in order. */
  function Played(ops: seq<Op>, t: nat): seq<Op> {
    if ops == [] then []
    else
      var op := ops[|ops| - 1];
      Played(ops[..|ops| - 1], t)
      + if op.tid == t && !op.OpLoad? && !(op.OpStore? && op.atom == READY) then [op] else []
  }

  /** Round `k` of thread `t`: it reads the record, counts, publishes the record with its own counter one higher, and
      passes the turn; the last pong of P leaves IDLE. */
  function Round(P: nat, t: nat, k: nat): seq<Op> {
    var total, status := if t == 0 then 2 * k + 1 else 2 * k + 2, if t == 0 then 2 else if k + 1 < P then 1 else 0;
    [OpRead(t, 0), OpRead(t, 1), OpRead(t, 2), OpRead(t, 3),
     OpStore(t, COUNTER, total),
     OpAssign(t, 0, status), OpAssign(t, 1, total), OpAssign(t, 2, k + 1), OpAssign(t, 3, if t == 0 then k else k + 1),
     OpStore(t, STATUS, status)]
  }

  /** The first `n` rounds of thread `t`. */
  function Program(P: nat, t: nat, n: nat): seq<Op> {
    if n == 0 then [] else Program(P, t, n - 1) + Round(P, t, n - 1)
  }

  /** How far a thread is in its round. */
  function Progress(l: Local): nat
    requires l.field < 4
  {
    match l.pc
    case Copy => l.field
    case CheckCount => 4
    case LoadCount => 4
    case StoreCount => 4
    case Publish => 5 + l.field
    case StoreStatus => 9
    case _ => 0
  }

  function Made(P: nat, t: nat, l: Local): seq<Op>
    requires l.field < 4
  {
    var k := Rounds(P, l);
    if k < 0 then [] else Program(P, t, k) + Round(P, t, k)[..Progress(l)]
  }

  /** The step of the thread is an operation of its round. */
  predicate Plays(pc: Pc) {
    pc in {Copy, StoreCount, Publish, StoreStatus}
  }

  /** What the turn of round `k` leaves, in numbers. */
  lemma TurnValues(P: nat, a: int, b: int, t: nat, l: Local)
    requires t < 2 && Turn(P, a, b, t) && LocalFits(P, l) && Plays(l.pc) && Rounds(P, l) == (if t == 0 then a else b)
    ensures var k := Rounds(P, l);
            var total := if t == 0 then 2 * k + 1 else 2 * k + 2;
            var status := if t == 0 then 2 else if k + 1 < P then 1 else 0;
            && k >= 0 && a + b + 1 == total && Passes(t, l.count) == status
            && NextRecord(P, a, b, t) == [status, total, k + 1, if t == 0 then k else k + 1]
  {
  }

  lemma ValuesPlayed(P: nat, a: int, b: int, t: nat, l: Local)
    requires t < 2 && Turn(P, a, b, t) && CopyHolds(P, a, b, t, l) && Plays(l.pc)
    requires Rounds(P, l) == (if t == 0 then a else b)
    ensures Rounds(P, l) >= 0
    ensures Round(P, t, Rounds(P, l))[Progress(l)]
            == match l.pc case Copy => OpRead(t, l.field) case StoreCount => OpStore(t, COUNTER, l.loaded + 1)
                          case Publish => OpAssign(t, l.field, l.pp[l.field])
                          case _ => OpStore(t, STATUS, Passes(t, l.count))
  {
    TurnValues(P, a, b, t, l);
  }

  lemma PlaysRound(P: nat, a: int, b: int, t: nat, l: Local, m: Memory, s: State)
    requires InTurn(P, a, b, t, l, m) && Plays(l.pc)
    requires Fits(s) && s.threads[t] == l
    ensures Rounds(P, l) >= 0 && Actions(s, t) == [Round(P, t, Rounds(P, l))[Progress(l)]]
  {
    ValuesPlayed(P, a, b, t, l);
  }

  lemma EndsRound(P: nat, t: nat, l: Local)
    requires t < 2 && LocalFits(P, l) && l.pc == StoreStatus && Rounds(P, l) >= 0
    ensures Made(P, t, Again(l)) == Made(P, t, l) + [Round(P, t, Rounds(P, l))[Progress(l)]]
  {
    var k, r := Rounds(P, l), Again(l);
    var round := Round(P, t, k);
    assert round == round[..9] + [round[9]];
    assert Rounds(P, r) == k + 1 && Progress(r) == 0;
    assert Made(P, t, r) == Program(P, t, k + 1);
    assert Program(P, t, k) + (round[..9] + [round[9]]) == (Program(P, t, k) + round[..9]) + [round[9]];
  }

  lemma GoesOn(P: nat, t: nat, l: Local, r: Local, n: nat)
    requires l.field < 4 && r.field < 4 && n < 10 && Rounds(P, r) == Rounds(P, l) >= 0
    requires Progress(l) == n && Progress(r) == n + 1
    ensures Made(P, t, r) == Made(P, t, l) + [Round(P, t, Rounds(P, l))[n]]
  {
    var round := Round(P, t, Rounds(P, l));
    assert round[..n + 1] == round[..n] + [round[n]];
  }

  lemma AdvanceMade(P: nat, t: nat, l: Local, status: int, counter: int, plain: int)
    requires t < 2 && LocalFits(P, l) && l.pc != Done && Rounds(P, l) >= 0
    ensures var r := Advance(t, l, status, counter, plain);
            && r.field < 4
            && Made(P, t, r) == Made(P, t, l) + if Plays(l.pc) then [Round(P, t, Rounds(P, l))[Progress(l)]] else []
  {
    var r := Advance(t, l, status, counter, plain);
    if l.pc == StoreStatus {
      EndsRound(P, t, l);
    } else if Plays(l.pc) {
      GoesOn(P, t, l, r, Progress(l));
    }
  }

  lemma PlayedOne(ops: seq<Op>, op: Op, t: nat)
    ensures Played(ops + [op], t)
            == Played(ops, t) + if op.tid == t && !op.OpLoad? && !(op.OpStore? && op.atom == READY) then [op] else []
  {
    assert (ops + [op])[..|ops|] == ops;
  }

  /** Getting ready, spinning and checking add nothing to what is played. */
  lemma IdlePlays(s: State, u: nat, ops: seq<Op>, t: nat)
    requires Fits(s) && u <= 2 && t < 2 && (u < 2 ==> !Plays(s.threads[u].pc))
    ensures Played(ops + Actions(s, u), t) == Played(ops, t)
  {
    var acts := Actions(s, u);
    if |acts| == 0 {
      assert ops + acts == ops;
    } else if |acts| == 1 {
      PlayedOne(ops, acts[0], t);
    } else {
      PlayedOne(ops, acts[0], t);
      PlayedOne(ops + [acts[0]], acts[1], t);
      assert ops + acts == ops + [acts[0]] + [acts[1]];
    }
  }

  /** Each thread has played its rounds so far, and nothing else. */
  ghost predicate Followed(s: State, ops: seq<Op>) {
    Inv(s) && forall t: nat :: t < 2 ==> Played(ops, t) == Made(s.P, t, s.threads[t])
  }

  lemma OwnTurn(s: State, t: nat)
    requires Inv(s) && t < 2 && Plays(s.threads[t].pc)
    ensures var l := s.threads[t];
            Rounds(s.P, l) >= 0 && Actions(s, t) == [Round(s.P, t, Rounds(s.P, l))[Progress(l)]]
            && Actions(s, t)[0].tid == t && !Actions(s, t)[0].OpLoad?
            && !(Actions(s, t)[0].OpStore? && Actions(s, t)[0].atom == READY)
  {
    PlaysRound(s.P, Rounds(s.P, s.threads[0]), Rounds(s.P, s.threads[1]), t, s.threads[t], s.mem, s);
  }

  lemma OwnFollowed(s: State, e: Event, ops: seq<Op>)
    requires Followed(s, ops) && Enabled(s, e) && e.tid < 2
    ensures var r := Step(s, e);
            |r.threads| == 2 && r.threads[e.tid].field < 4
            && Played(ops + Actions(s, e.tid), e.tid) == Made(s.P, e.tid, r.threads[e.tid])
  {
    var t, l := e.tid, s.threads[e.tid];
    AdvanceMade(s.P, t, l, s.mem.atoms[STATUS].value, s.mem.atoms[COUNTER].value, Plain(s, e));
    if Plays(l.pc) {
      OwnTurn(s, t);
      PlayedOne(ops, Actions(s, t)[0], t);
    } else {
      IdlePlays(s, t, ops, t);
    }
  }

  predicate LoadsNow(s: State, u: nat)
    requires Fits(s)
  {
    u == 2 || (u < 2 && s.threads[u].pc in {Ready, Spin, Recheck, CheckCount, LoadCount})
  }

  lemma ActionKinds(s: State, u: nat)
    requires Fits(s) && u <= 2
    ensures var acts := Actions(s, u);
            && |acts| <= 2 && (forall i :: 0 <= i < |acts| ==> acts[i].tid == u)
            && (|acts| == 2 ==> acts[0].OpLoad? && !acts[1].OpLoad? && LoadsNow(s, u))
            && (|acts| == 1 ==> (acts[0].OpLoad? <==> LoadsNow(s, u)))
            && (|acts| == 0 ==> !LoadsNow(s, u))
  {
  }

  lemma OthersPlay(ops: seq<Op>, acts: seq<Op>, u: nat, t: nat)
    requires |acts| <= 2 && (forall i :: 0 <= i < |acts| ==> acts[i].tid == t) && u != t
    ensures Played(ops + acts, u) == Played(ops, u)
  {
    if |acts| == 0 {
      assert ops + acts == ops;
    } else if |acts| == 1 {
      assert ops + acts == ops + [acts[0]];
      PlayedOne(ops, acts[0], u);
    } else {
      PlayedOne(ops, acts[0], u);
      PlayedOne(ops + [acts[0]], acts[1], u);
      assert ops + acts == ops + [acts[0]] + [acts[1]];
    }
  }

  lemma OtherKept(s: State, e: Event, u: nat)
    requires Enabled(s, e) && u < 2 && u != e.tid
    ensures |Step(s, e).threads| == 2 && Step(s, e).threads[u] == s.threads[u]
  {
  }

  lemma OtherFollowed(s: State, e: Event, ops: seq<Op>, u: nat)
    requires Enabled(s, e) && u < 2 && u != e.tid
    ensures |Step(s, e).threads| == 2 && Step(s, e).threads[u] == s.threads[u]
    ensures Played(ops + Actions(s, e.tid), u) == Played(ops, u)
  {
    OtherKept(s, e, u);
    ActionKinds(s, e.tid);
    OthersPlay(ops, Actions(s, e.tid), u, e.tid);
  }

  lemma StepFollowed(s: State, e: Event, ops: seq<Op>)
    requires Followed(s, ops) && Enabled(s, e)
    ensures Followed(Step(s, e), ops + Actions(s, e.tid)) && Step(s, e).P == s.P
  {
    StepInv(s, e);
    forall u: nat | u < 2 ensures Played(ops + Actions(s, e.tid), u) == Made(s.P, u, Step(s, e).threads[u]) {
      if u == e.tid {
        OwnFollowed(s, e, ops);
      } else {
        OtherFollowed(s, e, ops, u);
      }
    }
  }

  lemma {:induction false} RunFollowed(P: nat, es: seq<Event>)
    ensures Followed(Exec(Step, Start(P), es), Trace(Start(P), es)) && Exec(Step, Start(P), es).P == P
  {
    if es == [] {
      StartFollowed(P);
    } else {
      var front, e := es[..|es| - 1], es[|es| - 1];
      RunFollowed(P, front);
      var r := Exec(Step, Start(P), front);
      if Enabled(r, e) {
        StepFollowed(r, e, Trace(Start(P), front));
      } else {
        assert Trace(Start(P), es) == Trace(Start(P), front);
      }
    }
  }

  lemma StartFollowed(P: nat)
    ensures Followed(Start(P), [])
  {
    StartInv(P);
    forall t: nat | t < 2 ensures Made(P, t, Start(P).threads[t]) == [] {
    }
  }

  lemma {:induction false} ProgramGrows(P: nat, t: nat, k: nat, n: nat)
    requires k < n
    ensures Program(P, t, k) + Round(P, t, k) <= Program(P, t, n)
  {
    if k < n - 1 {
      ProgramGrows(P, t, k, n - 1);
    }
  }

  lemma MadeIsPrefix(P: nat, t: nat, l: Local)
    requires LocalFits(P, l)
    ensures Made(P, t, l) <= Program(P, t, P)
    ensures l.pc == Done ==> Made(P, t, l) == Program(P, t, P)
  {
    var k := Rounds(P, l);
    if k < P {
      ProgramGrows(P, t, k, P);
    } else {
      assert Progress(l) == 0;
    }
  }

  /** In every run each thread plays its rounds one after the other as they are written down: in round k it reads the
      record, counts up to 2k + 1 or 2k + 2, publishes exactly that total, the rounds of both and the status it leaves,
      and stores that status; when it is done it has played all P rounds, and nothing else. */
  lemma {:induction false} EveryThreadPlaysItsRounds(P: nat, es: seq<Event>, t: nat)
    requires t < 2
    ensures var s := Exec(Step, Start(P), es);
            && Fits(s)
            && Played(Trace(Start(P), es), t) <= Program(P, t, P)
            && (s.threads[t].pc == Done ==> Played(Trace(Start(P), es), t) == Program(P, t, P))
  {
    RunFollowed(P, es);
    var s := Exec(Step, Start(P), es);
    assert LocalFits(P, s.threads[0]) && LocalFits(P, s.threads[1]);
    MadeIsPrefix(P, t, s.threads[t]);
  }

  // ----- Its loads -----

  /** A failed spin of thread `t`. */
  predicate SpinsInVain(t: nat, s: State, e: Event) {
    t < 2 && e.tid == t && Enabled(s, e) && s.threads[t].pc == Spin && s.mem.atoms[STATUS].value != t + 1
  }

  function InVain(t: nat): (State, Event) -> bool {
    (s: State, e: Event) => SpinsInVain(t, s, e)
  }

  /** The loads a thread has behind it: one to get ready, and four a round, for its turn, the check of the status, the
      check of the count and the count. */
  function LoadsDue(P: nat, l: Local): int {
    if l.pc == Ready then 0
    else 1 + 4 * Rounds(P, l) + match l.pc case Recheck => 1 case Copy => 2 case CheckCount => 2 case LoadCount => 3
                                           case StoreCount => 4 case Publish => 4 case StoreStatus => 4 case _ => 0
  }

  lemma AdvanceLoads(P: nat, t: nat, l: Local, status: int, counter: int, plain: int)
    requires t < 2 && LocalFits(P, l)
    ensures var r := Advance(t, l, status, counter, plain);
            LoadsDue(P, r) == LoadsDue(P, l)
              + if l.pc == Spin && status != t + 1 then 0
                else if l.pc in {Ready, Spin, Recheck, CheckCount, LoadCount} then 1 else 0
  {
  }

  lemma LoadsMore(ops: seq<Op>, acts: seq<Op>, t: nat, u: nat, loads: bool)
    requires |acts| <= 2 && (forall i :: 0 <= i < |acts| ==> acts[i].tid == u)
    requires |acts| == 2 ==> acts[0].OpLoad? && !acts[1].OpLoad? && loads
    requires |acts| == 1 ==> (acts[0].OpLoad? <==> loads)
    requires |acts| == 0 ==> !loads
    ensures Loads(ops + acts, t) == Loads(ops, t) + if u == t && loads then 1 else 0
  {
    if |acts| == 0 {
      assert ops + acts == ops;
    } else if |acts| == 1 {
      assert ops + acts == ops + [acts[0]];
      LoadsOneMore(ops, acts[0], t);
    } else {
      LoadsOneMore(ops, acts[0], t);
      LoadsOneMore(ops + [acts[0]], acts[1], t);
      assert ops + acts == ops + [acts[0]] + [acts[1]];
    }
  }

  lemma ActionsLoad(s: State, u: nat, ops: seq<Op>, t: nat)
    requires Fits(s) && u <= 2 && t < 2
    ensures Loads(ops + Actions(s, u), t) == Loads(ops, t) + if u == t && LoadsNow(s, t) then 1 else 0
  {
    ActionKinds(s, u);
    LoadsMore(ops, Actions(s, u), t, u, LoadsNow(s, u));
  }

  lemma StepLoads(s: State, e: Event, ops: seq<Op>, t: nat)
    requires Inv(s) && Enabled(s, e) && t < 2
    ensures |Step(s, e).threads| == 2
    ensures Loads(ops + Actions(s, e.tid), t) - LoadsDue(s.P, Step(s, e).threads[t])
            == Loads(ops, t) - LoadsDue(s.P, s.threads[t]) + if SpinsInVain(t, s, e) then 1 else 0
  {
    ActionsLoad(s, e.tid, ops, t);
    assert LocalFits(s.P, s.threads[0]) && LocalFits(s.P, s.threads[1]);
    if e.tid == t {
      AdvanceLoads(s.P, t, s.threads[t], s.mem.atoms[STATUS].value, s.mem.atoms[COUNTER].value, Plain(s, e));
    }
  }

  /** Failed spins apart, a thread makes one load to get ready and four in each round. */
  lemma {:induction false} EveryThreadAcquires(P: nat, es: seq<Event>, t: nat)
    requires t < 2
    ensures var s := Exec(Step, Start(P), es);
            && Fits(s)
            && Loads(Trace(Start(P), es), t) == StepsWhere(Step, InVain(t), Start(P), es) + LoadsDue(P, s.threads[t])
  {
    RunInv(P, es);
    if es != [] {
      var front, e := es[..|es| - 1], es[|es| - 1];
      EveryThreadAcquires(P, front, t);
      RunInv(P, front);
      var r := Exec(Step, Start(P), front);
      if Enabled(r, e) {
        StepLoads(r, e, Trace(Start(P), front), t);
      } else {
        assert Trace(Start(P), es) == Trace(Start(P), front);
      }
    }
  }

  // ----- The REQUIREs -----

  /** The next step of the thread is a check that fails: the status is no longer the one of its turn, or its copy of the
      record does not have that status, the count, a total that adds up and its own count of its rounds. */
  predicate Mismatch(s: State, e: Event) {
    && Enabled(s, e) && e.tid < 2
    && var l := s.threads[e.tid];
       || (l.pc == Recheck && s.mem.atoms[STATUS].value != e.tid + 1)
       || (l.pc == CheckCount && (|| l.pp[0] != e.tid + 1
                                  || s.mem.atoms[COUNTER].value != l.pp[1]
                                  || l.pp[1] != l.pp[2] + l.pp[3]
                                  || l.tls != l.pp[e.tid + 2]))
  }

  lemma StepFails(s: State, e: Event)
    ensures Step(s, e).failed <==> s.failed || Mismatch(s, e)
  {
  }

  /** A REQUIRE of `ping` or `pong` has failed exactly when one of the checks made met a value it does not allow. */
  lemma {:induction false} FailedIffMismatch(P: nat, es: seq<Event>)
    ensures Exec(Step, Start(P), es).failed <==> StepsWhere(Step, Mismatch, Start(P), es) > 0
  {
    forall s, e ensures Step(s, e).failed <==> s.failed || Mismatch(s, e) {
      StepFails(s, e);
    }
    FlagIffRaised(Step, (s: State) => s.failed, Mismatch, Start(P), es);
  }
}
