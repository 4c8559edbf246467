/**
 The three scripts of tests/pthread/src/pthread_specific.c, cut into the segments that the stages order, with every
 assertion they make about the keys.
 */
module KeyScripts {
  import opened Runs
  import opened KeyTable
  import S = StageScheduler

  const TagP := 0x11
  const TagK := 0x22
  const TagM := 0x33
  const TagP2 := 0x12
  const TagK2 := 0x23
  const TagM2 := 0x34

  /** The slot the allocator picks, given how many keys it has made and which slots are used. */
  type Allocator = (nat, set<nat>) -> nat

  datatype Variable = Key | Key2 | Key3 | Key4

  /** A call of one of the four functions on a key variable, with what it returned. */
  datatype Call =
    | Made(v: Variable, status: int)
    | Deleted(v: Variable, status: int)
    | Put(thread: nat, v: Variable, tag: int, status: int)
    | Got(thread: nat, v: Variable, value: int)

  /** The key table, the four key variables, and whether every assertion so far held; the first that fails ends the
      scripts.  `made` counts the keys created, `calls` lists the calls made so far. */
  datatype World = World(table: Table, key: nat, key2: nat, key3: nat, key4: nat, made: nat, calls: seq<Call>, ok: bool)

  function ValueOf(w: World, v: Variable): nat {
    match v case Key => w.key case Key2 => w.key2 case Key3 => w.key3 case Key4 => w.key4
  }

  /** `zassert_ok(pthread_key_create(&v, NULL))` */
  function Create(alloc: Allocator, w: World, v: Variable): (r: World)
    ensures Valid(w.table) ==> Valid(r.table)
  {
    if !w.ok then w
    else
      var slot := alloc(w.made, w.table.used);
      var (status, table) := KeyCreate(w.table, slot);
      if status != 0 then w.(calls := w.calls + [Made(v, status)], ok := false)
      else
        var made := w.(table := table, made := w.made + 1, calls := w.calls + [Made(v, 0)]);
        match v case Key => made.(key := slot) case Key2 => made.(key2 := slot)
                case Key3 => made.(key3 := slot) case Key4 => made.(key4 := slot)
  }

  /** `zassert_ok(pthread_key_delete(v))`, or `zassert_equal(EINVAL, pthread_key_delete(v))` */
  function Delete(w: World, v: Variable, expected: int): (r: World)
    ensures Valid(w.table) ==> Valid(r.table)
  {
    if !w.ok then w
    else
      var (status, table) := KeyDelete(w.table, ValueOf(w, v));
      w.(table := table, calls := w.calls + [Deleted(v, status)], ok := status == expected)
  }

  /** `zassert_ok(pthread_setspecific(v, &tag))` */
  function Set(w: World, thread: nat, v: Variable, tag: int): (r: World)
    ensures Valid(w.table) ==> Valid(r.table)
  {
    if !w.ok then w
    else
      var (status, table) := SetSpecific(w.table, thread, ValueOf(w, v), tag);
      w.(table := table, calls := w.calls + [Put(thread, v, tag, status)], ok := status == 0)
  }

  /** The assertions on the value `pthread_getspecific(v)` returns. */
  function Expect(w: World, thread: nat, v: Variable, value: int): (r: World)
    ensures Valid(w.table) ==> Valid(r.table)
  {
    if !w.ok then w
    else
      var val := GetSpecific(w.table, thread, ValueOf(w, v));
      w.(calls := w.calls + [Got(thread, v, val)], ok := val == value)
  }

  /** Check that a key reads NULL, set it, check that it reads the tag. */
  function Fill(w: World, thread: nat, v: Variable, tag: int): (r: World)
    ensures Valid(w.table) ==> Valid(r.table)
  {
    Expect(Set(Expect(w, thread, v, NULL), thread, v, tag), thread, v, tag)
  }

  /** Delete a key, check that it cannot be deleted twice. */
  function DeleteOnce(w: World, v: Variable): (r: World)
    ensures Valid(w.table) ==> Valid(r.table)
  {
    Delete(Delete(w, v, 0), v, EINVAL)
  }

  /** Check that a key is gone. */
  function Gone(w: World, thread: nat, v: Variable): (r: World)
    ensures Valid(w.table) ==> Valid(r.table)
  {
    Expect(Delete(w, v, EINVAL), thread, v, NULL)
  }

  // ----- The segments; threads 0, 1, 2 are main, thread_1, thread_2 -----

  function Main0(alloc: Allocator, w: World): (r: World)
    ensures Valid(w.table) ==> Valid(r.table)
  {
    var a := Fill(Create(alloc, w, Key), 0, Key, TagM);
    var b := Expect(DeleteOnce(a, Key), 0, Key, NULL);
    var c := Fill(Create(alloc, b, Key), 0, Key, TagM);
    var d := Fill(Create(alloc, c, Key2), 0, Key2, TagM2);
    Expect(d, 0, Key, TagM)
  }

  function FillBoth(w: World, thread: nat, tag: int, tag2: int): (r: World)
    ensures Valid(w.table) ==> Valid(r.table)
  {
    Expect(Fill(Fill(w, thread, Key, tag), thread, Key2, tag2), thread, Key, tag)
  }

  function Main3(w: World): (r: World)
    ensures Valid(w.table) ==> Valid(r.table)
  {
    var a := Expect(Expect(w, 0, Key, TagM), 0, Key2, TagM2);
    Expect(Expect(DeleteOnce(a, Key2), 0, Key2, NULL), 0, Key, TagM)
  }

  function KeepsKey(w: World, thread: nat, tag: int): (r: World)
    ensures Valid(w.table) ==> Valid(r.table)
  {
    Expect(Gone(w, thread, Key2), thread, Key, tag)
  }

  function Thread1Stage7(w: World): (r: World)
    ensures Valid(w.table) ==> Valid(r.table)
  {
    Expect(DeleteOnce(w, Key), 1, Key, NULL)
  }

  function Thread2Stage8(alloc: Allocator, w: World): (r: World)
    ensures Valid(w.table) ==> Valid(r.table)
  {
    Fill(Create(alloc, Gone(w, 2, Key), Key4), 2, Key4, TagK)
  }

  function Main9(alloc: Allocator, w: World): (r: World)
    ensures Valid(w.table) ==> Valid(r.table)
  {
    var a := Gone(Expect(w, 0, Key, NULL), 0, Key2);
    DeleteOnce(Expect(Create(alloc, a, Key), 0, Key, NULL), Key)
  }

  function Thread1Stage10(alloc: Allocator, w: World): (r: World)
    ensures Valid(w.table) ==> Valid(r.table)
  {
    Fill(Create(alloc, w, Key3), 1, Key3, TagP)
  }

  function Main12(w: World): (r: World)
    ensures Valid(w.table) ==> Valid(r.table)
  {
    DeleteOnce(DeleteOnce(Expect(Expect(w, 0, Key3, NULL), 0, Key4, NULL), Key3), Key4)
  }

  function BothGone(w: World, thread: nat): (r: World)
    ensures Valid(w.table) ==> Valid(r.table)
  {
    Gone(Gone(w, thread, Key3), thread, Key4)
  }

  function Script(alloc: Allocator, stage: nat, w: World): (r: World)
    ensures Valid(w.table) ==> Valid(r.table)
  {
    match stage
    case 0 => Main0(alloc, w)
    case 1 => FillBoth(w, 1, TagP, TagP2)
    case 2 => FillBoth(w, 2, TagK, TagK2)
    case 3 => Main3(w)
    case 4 => KeepsKey(w, 1, TagP)
    case 5 => KeepsKey(w, 2, TagK)
    case 7 => Thread1Stage7(w)
    case 8 => Thread2Stage8(alloc, w)
    case 9 => Main9(alloc, w)
    case 10 => Thread1Stage10(alloc, w)
    case 12 => Main12(w)
    case 13 => BothGone(w, 1)
    case 14 => BothGone(w, 2)
    case _ => w
  }

  function Fresh(slots: nat): World {
    World(Table(slots, {}, map[]), 0, 0, 0, 0, 0, [], true)
  }

  // ----- What each segment leaves behind -----

  /** The allocator finds a free slot whenever there is one. */
  ghost predicate FindsFree(alloc: Allocator, slots: nat) {
    forall made: nat, used: set<nat>, slot: nat {:trigger alloc(made, used), slot in used} ::
      slot < slots && slot !in used ==>
      alloc(made, used) < slots && alloc(made, used) !in used
  }

  lemma OneUsed(alloc: Allocator, slots: nat, made: nat, used: set<nat>, a: nat)
    requires FindsFree(alloc, slots) && slots >= 2 && used <= {a}
    ensures alloc(made, used) < slots && alloc(made, used) !in used
  {
    assert (if a == 0 then 1 else 0) !in used;
  }

  // ----- The calls of the scripts, one after the other -----

  function FillLog(calls: seq<Call>, thread: nat, v: Variable, tag: int): seq<Call> {
    calls + [Got(thread, v, 0)] + [Put(thread, v, tag, 0)] + [Got(thread, v, tag)]
  }

  function FillBothLog(calls: seq<Call>, thread: nat, tag: int, tag2: int): seq<Call> {
    FillLog(FillLog(calls, thread, Key, tag), thread, Key2, tag2) + [Got(thread, Key, tag)]
  }

  function DeleteLog(calls: seq<Call>, v: Variable): seq<Call> {
    calls + [Deleted(v, 0)] + [Deleted(v, 22)]
  }

  function GoneLog(calls: seq<Call>, thread: nat, v: Variable): seq<Call> {
    calls + [Deleted(v, 22)] + [Got(thread, v, 0)]
  }

  function Log0(calls: seq<Call>): seq<Call> {
    var a := FillLog(calls + [Made(Key, 0)], 0, Key, 0x33);
    var b := DeleteLog(a, Key) + [Got(0, Key, 0)];
    var c := FillLog(b + [Made(Key, 0)], 0, Key, 0x33);
    FillLog(c + [Made(Key2, 0)], 0, Key2, 0x34) + [Got(0, Key, 0x33)]
  }

  /** What the calls of a segment return, added to the calls before it; 22 is EINVAL, 0 is NULL. */
  function LogOf(stage: nat, calls: seq<Call>): seq<Call> {
    match stage
    case 0 => Log0(calls)
    case 1 => FillBothLog(calls, 1, 0x11, 0x12)
    case 2 => FillBothLog(calls, 2, 0x22, 0x23)
    case 3 => DeleteLog(calls + [Got(0, Key, 0x33)] + [Got(0, Key2, 0x34)], Key2)
              + [Got(0, Key2, 0)] + [Got(0, Key, 0x33)]
    case 4 => GoneLog(calls, 1, Key2) + [Got(1, Key, 0x11)]
    case 5 => GoneLog(calls, 2, Key2) + [Got(2, Key, 0x22)]
    case 7 => DeleteLog(calls, Key) + [Got(1, Key, 0)]
    case 8 => FillLog(GoneLog(calls, 2, Key) + [Made(Key4, 0)], 2, Key4, 0x22)
    case 9 => DeleteLog(GoneLog(calls + [Got(0, Key, 0)], 0, Key2) + [Made(Key, 0)] + [Got(0, Key, 0)], Key)
    case 10 => FillLog(calls + [Made(Key3, 0)], 1, Key3, 0x11)
    case 12 => DeleteLog(DeleteLog(calls + [Got(0, Key3, 0)] + [Got(0, Key4, 0)], Key3), Key4)
    case 13 => GoneLog(GoneLog(calls, 1, Key3), 1, Key4)
    case 14 => GoneLog(GoneLog(calls, 2, Key3), 2, Key4)
    case _ => calls
  }

  function Log(n: nat): seq<Call> {
    if n == 0 then [] else LogOf(n - 1, Log(n - 1))
  }

  // ----- One segment at a time -----

  lemma FillReads(w: World, thread: nat, v: Variable, tag: int)
    requires w.ok && ValueOf(w, v) in w.table.used && (thread, ValueOf(w, v)) !in w.table.bound && tag != NULL
    ensures Fill(w, thread, v, tag)
              == w.(table := w.table.(bound := w.table.bound[(thread, ValueOf(w, v)) := tag]),
                    calls := FillLog(w.calls, thread, v, tag))
  {
  }

  lemma FillBothReads(w: World, thread: nat, tag: int, tag2: int)
    requires w.ok && w.key in w.table.used && w.key2 in w.table.used && w.key != w.key2
    requires (thread, w.key) !in w.table.bound && (thread, w.key2) !in w.table.bound && tag != NULL && tag2 != NULL
    ensures FillBoth(w, thread, tag, tag2)
              == w.(table := w.table.(bound := w.table.bound[(thread, w.key) := tag][(thread, w.key2) := tag2]),
                    calls := FillBothLog(w.calls, thread, tag, tag2))
  {
    FillReads(w, thread, Key, tag);
    FillReads(Fill(w, thread, Key, tag), thread, Key2, tag2);
  }

  lemma DeleteOnceWorks(w: World, v: Variable)
    requires w.ok && ValueOf(w, v) in w.table.used
    ensures DeleteOnce(w, v) == w.(table := KeyDelete(w.table, ValueOf(w, v)).1, calls := DeleteLog(w.calls, v))
  {
  }

  lemma GoneWorks(w: World, thread: nat, v: Variable)
    requires w.ok && ValueOf(w, v) !in w.table.used
    ensures Gone(w, thread, v) == w.(calls := GoneLog(w.calls, thread, v))
  {
  }

  lemma ExpectWorks(w: World, thread: nat, v: Variable, value: int)
    requires w.ok && GetSpecific(w.table, thread, ValueOf(w, v)) == value
    ensures Expect(w, thread, v, value) == w.(calls := w.calls + [Got(thread, v, value)])
  {
  }

  lemma CreateWorks(alloc: Allocator, w: World, v: Variable)
    requires w.ok && alloc(w.made, w.table.used) < w.table.slots && alloc(w.made, w.table.used) !in w.table.used
    ensures var r := Create(alloc, w, v);
            && r.ok && ValueOf(r, v) == alloc(w.made, w.table.used) && r.made == w.made + 1
            && r.table == w.table.(used := w.table.used + {ValueOf(r, v)})
            && r.calls == w.calls + [Made(v, 0)]
            && forall u :: u != v ==> ValueOf(r, u) == ValueOf(w, u)
  {
  }

  // ----- What the scripts leave behind, stage by stage -----

  function FirstKey(alloc: Allocator): nat {
    alloc(1, {})
  }

  function SecondKey(alloc: Allocator): nat {
    alloc(2, {FirstKey(alloc)})
  }

  /** The slot `key4` gets, made after all earlier keys were deleted. */
  function FourthKey(alloc: Allocator): nat {
    alloc(3, {})
  }

  /** The slot `key` gets when it is made again beside `key4`, and the one `key3` gets beside `key4`. */
  function FifthKey(alloc: Allocator): nat {
    alloc(4, {FourthKey(alloc)})
  }

  function SixthKey(alloc: Allocator): nat {
    alloc(5, {FourthKey(alloc)})
  }

  predicate OnlyKey(w: World) {
    w.table.used == {w.key} && w.table.bound == map[(0, w.key) := TagM, (1, w.key) := TagP, (2, w.key) := TagK]
  }

  predicate NoKey(w: World) {
    w.table.used == {} && w.table.bound == map[]
  }

  predicate BothKeys(w: World, n: nat) {
    var b := map[(0, w.key) := TagM, (0, w.key2) := TagM2];
    var b1 := b[(1, w.key) := TagP][(1, w.key2) := TagP2];
    var b2 := b1[(2, w.key) := TagK][(2, w.key2) := TagK2];
    && w.key != w.key2 && w.table.used == {w.key, w.key2}
    && w.table.bound == (if n == 1 then b else if n == 2 then b1 else b2)
  }

  /** The table after `n` segments, as the comments of the scripts describe it. */
  predicate Tables(n: nat, w: World) {
    if n == 0 then NoKey(w)
    else if n <= 3 then BothKeys(w, n)
    else if n <= 7 then OnlyKey(w) && w.key != w.key2
    else if n == 8 then NoKey(w)
    else if n <= 10 then w.table.used == {w.key4} && w.table.bound == map[(2, w.key4) := TagK]
    else if n <= 12 then w.key3 != w.key4 && w.table.used == {w.key3, w.key4}
                         && w.table.bound == map[(2, w.key4) := TagK, (1, w.key3) := TagP]
    else NoKey(w)
  }

  /** The keys made in the first `n` segments, and the slots the variables hold after them. */
  predicate Variables(alloc: Allocator, n: nat, w: World) {
    && w.made == (if n == 0 then 0 else if n <= 8 then 3 else if n == 9 then 4 else if n == 10 then 5 else 6)
    && (1 <= n ==> w.key == if n <= 9 then FirstKey(alloc) else FifthKey(alloc))
    && (1 <= n ==> w.key2 == SecondKey(alloc))
    && (9 <= n ==> w.key4 == FourthKey(alloc))
    && (11 <= n ==> w.key3 == SixthKey(alloc))
  }

  predicate After(alloc: Allocator, slots: nat, n: nat, w: World) {
    w.ok && w.table.slots == slots && Tables(n, w) && Variables(alloc, n, w)
  }

  lemma Segment0(alloc: Allocator, slots: nat)
    requires FindsFree(alloc, slots) && slots >= 2
    ensures After(alloc, slots, 1, Main0(alloc, Fresh(slots))) && Main0(alloc, Fresh(slots)).calls == Log0([])
  {
    var w := Fresh(slots);
    OneUsed(alloc, slots, 0, {}, 0);
    CreateWorks(alloc, w, Key);
    FillReads(Create(alloc, w, Key), 0, Key, TagM);
    var a := Fill(Create(alloc, w, Key), 0, Key, TagM);
    DeleteOnceWorks(a, Key);
    ExpectWorks(DeleteOnce(a, Key), 0, Key, NULL);
    var b := Expect(DeleteOnce(a, Key), 0, Key, NULL);
    assert b.ok && NoKey(b) && b.made == 1;
    Segment0Rest(alloc, slots, b);
  }

  lemma Segment0Rest(alloc: Allocator, slots: nat, b: World)
    requires FindsFree(alloc, slots) && slots >= 2
    requires b.ok && b.table.slots == slots && NoKey(b) && b.made == 1
    ensures var c := Fill(Create(alloc, b, Key), 0, Key, TagM);
            var d := Fill(Create(alloc, c, Key2), 0, Key2, TagM2);
            var e := Expect(d, 0, Key, TagM);
            && After(alloc, slots, 1, e)
            && e.calls == FillLog(FillLog(b.calls + [Made(Key, 0)], 0, Key, TagM) + [Made(Key2, 0)], 0, Key2, TagM2)
                          + [Got(0, Key, TagM)]
  {
    OneUsed(alloc, slots, 1, {}, 0);
    CreateWorks(alloc, b, Key);
    FillReads(Create(alloc, b, Key), 0, Key, TagM);
    var c := Fill(Create(alloc, b, Key), 0, Key, TagM);
    assert c.table.used == {c.key} && c.table.bound == map[(0, c.key) := TagM];
    OneUsed(alloc, slots, 2, {c.key}, c.key);
    CreateWorks(alloc, c, Key2);
    FillReads(Create(alloc, c, Key2), 0, Key2, TagM2);
    ExpectWorks(Fill(Create(alloc, c, Key2), 0, Key2, TagM2), 0, Key, TagM);
  }

  lemma Segments1And2(alloc: Allocator, slots: nat, n: nat, w: World)
    requires After(alloc, slots, n, w) && 1 <= n <= 2
    ensures After(alloc, slots, n + 1, Script(alloc, n, w)) && Script(alloc, n, w).calls == LogOf(n, w.calls)
  {
    if n == 1 {
      FillBothReads(w, 1, TagP, TagP2);
    } else {
      FillBothReads(w, 2, TagK, TagK2);
    }
  }

  lemma Segment3(alloc: Allocator, slots: nat, w: World)
    requires After(alloc, slots, 3, w)
    ensures After(alloc, slots, 4, Script(alloc, 3, w)) && Script(alloc, 3, w).calls == LogOf(3, w.calls)
  {
    ExpectWorks(w, 0, Key, TagM);
    ExpectWorks(Expect(w, 0, Key, TagM), 0, Key2, TagM2);
    var a := Expect(Expect(w, 0, Key, TagM), 0, Key2, TagM2);
    DeleteOnceWorks(a, Key2);
    var b := DeleteOnce(a, Key2);
    assert b.table.used == {w.key};
    assert b.table.bound == map[(0, w.key) := TagM, (1, w.key) := TagP, (2, w.key) := TagK];
    ExpectWorks(b, 0, Key2, NULL);
    ExpectWorks(Expect(b, 0, Key2, NULL), 0, Key, TagM);
  }

  lemma KeepsKeyWorks(w: World, thread: nat, tag: int)
    requires w.ok && w.key2 !in w.table.used && GetSpecific(w.table, thread, w.key) == tag
    ensures KeepsKey(w, thread, tag) == w.(calls := GoneLog(w.calls, thread, Key2) + [Got(thread, Key, tag)])
  {
    GoneWorks(w, thread, Key2);
    ExpectWorks(Gone(w, thread, Key2), thread, Key, tag);
  }

  lemma Segments4To6(alloc: Allocator, slots: nat, n: nat, w: World)
    requires After(alloc, slots, n, w) && 4 <= n <= 6
    ensures After(alloc, slots, n + 1, Script(alloc, n, w)) && Script(alloc, n, w).calls == LogOf(n, w.calls)
  {
    if n == 4 {
      KeepsKeyWorks(w, 1, TagP);
    } else if n == 5 {
      KeepsKeyWorks(w, 2, TagK);
    }
  }

  lemma Segment7(alloc: Allocator, slots: nat, w: World)
    requires After(alloc, slots, 7, w)
    ensures After(alloc, slots, 8, Script(alloc, 7, w)) && Script(alloc, 7, w).calls == LogOf(7, w.calls)
  {
    DeleteOnceWorks(w, Key);
    assert NoKey(DeleteOnce(w, Key));
    ExpectWorks(DeleteOnce(w, Key), 1, Key, NULL);
  }

  lemma Segment8(alloc: Allocator, slots: nat, w: World)
    requires FindsFree(alloc, slots) && slots >= 2 && After(alloc, slots, 8, w)
    ensures After(alloc, slots, 9, Script(alloc, 8, w)) && Script(alloc, 8, w).calls == LogOf(8, w.calls)
  {
    GoneWorks(w, 2, Key);
    var a := Gone(w, 2, Key);
    OneUsed(alloc, slots, 3, {}, 0);
    CreateWorks(alloc, a, Key4);
    FillReads(Create(alloc, a, Key4), 2, Key4, TagK);
  }

  lemma Segment9Fails(alloc: Allocator, slots: nat, w: World)
    requires After(alloc, slots, 9, w) && FourthKey(alloc) == SecondKey(alloc)
    ensures !Script(alloc, 9, w).ok
  {
    ExpectWorks(w, 0, Key, NULL);
    var a := Expect(w, 0, Key, NULL);
    assert a.key2 in a.table.used && !Delete(a, Key2, EINVAL).ok;
  }

  lemma Segment9Holds(alloc: Allocator, slots: nat, w: World)
    requires FindsFree(alloc, slots) && slots >= 2 && After(alloc, slots, 9, w)
    requires FourthKey(alloc) != SecondKey(alloc)
    ensures After(alloc, slots, 10, Script(alloc, 9, w)) && Script(alloc, 9, w).calls == LogOf(9, w.calls)
  {
    ExpectWorks(w, 0, Key, NULL);
    GoneWorks(Expect(w, 0, Key, NULL), 0, Key2);
    var a := Gone(Expect(w, 0, Key, NULL), 0, Key2);
    OneUsed(alloc, slots, 4, {w.key4}, w.key4);
    CreateWorks(alloc, a, Key);
    ExpectWorks(Create(alloc, a, Key), 0, Key, NULL);
    var b := Expect(Create(alloc, a, Key), 0, Key, NULL);
    DeleteOnceWorks(b, Key);
    assert DeleteOnce(b, Key).table.used == {w.key4};
    assert DeleteOnce(b, Key).table.bound == w.table.bound;
  }

  /** Here the scripts count on `key4` not having the slot `key2` had. */
  lemma Segment9(alloc: Allocator, slots: nat, w: World)
    requires FindsFree(alloc, slots) && slots >= 2 && After(alloc, slots, 9, w)
    ensures FourthKey(alloc) != SecondKey(alloc) ==>
              After(alloc, slots, 10, Script(alloc, 9, w)) && Script(alloc, 9, w).calls == LogOf(9, w.calls)
    ensures FourthKey(alloc) == SecondKey(alloc) ==> !Script(alloc, 9, w).ok
  {
    if FourthKey(alloc) != SecondKey(alloc) {
      Segment9Holds(alloc, slots, w);
    } else {
      Segment9Fails(alloc, slots, w);
    }
  }

  lemma Segments10And11(alloc: Allocator, slots: nat, n: nat, w: World)
    requires FindsFree(alloc, slots) && slots >= 2 && After(alloc, slots, n, w) && 10 <= n <= 11
    ensures After(alloc, slots, n + 1, Script(alloc, n, w)) && Script(alloc, n, w).calls == LogOf(n, w.calls)
  {
    if n == 10 {
      OneUsed(alloc, slots, 5, {w.key4}, w.key4);
      CreateWorks(alloc, w, Key3);
      FillReads(Create(alloc, w, Key3), 1, Key3, TagP);
    }
  }

  lemma Segment12(alloc: Allocator, slots: nat, w: World)
    requires After(alloc, slots, 12, w)
    ensures After(alloc, slots, 13, Script(alloc, 12, w)) && Script(alloc, 12, w).calls == LogOf(12, w.calls)
  {
    ExpectWorks(w, 0, Key3, NULL);
    ExpectWorks(Expect(w, 0, Key3, NULL), 0, Key4, NULL);
    var a := Expect(Expect(w, 0, Key3, NULL), 0, Key4, NULL);
    DeleteOnceWorks(a, Key3);
    var b := DeleteOnce(a, Key3);
    DeleteOnceWorks(b, Key4);
    assert NoKey(DeleteOnce(b, Key4));
  }

  lemma BothGoneWorks(w: World, thread: nat)
    requires w.ok && w.key3 !in w.table.used && w.key4 !in w.table.used
    ensures BothGone(w, thread) == w.(calls := GoneLog(GoneLog(w.calls, thread, Key3), thread, Key4))
  {
    GoneWorks(w, thread, Key3);
    GoneWorks(Gone(w, thread, Key3), thread, Key4);
  }

  lemma Segments13On(alloc: Allocator, slots: nat, n: nat, w: World)
    requires After(alloc, slots, n, w) && n >= 13
    ensures After(alloc, slots, n + 1, Script(alloc, n, w)) && Script(alloc, n, w).calls == LogOf(n, w.calls)
  {
    if n == 13 {
      BothGoneWorks(w, 1);
    } else if n == 14 {
      BothGoneWorks(w, 2);
    }
  }

  lemma SegmentKeepsAfter(alloc: Allocator, slots: nat, n: nat, w: World)
    requires FindsFree(alloc, slots) && slots >= 2 && After(alloc, slots, n, w) && n > 0
    requires n < 9 || FourthKey(alloc) != SecondKey(alloc)
    ensures After(alloc, slots, n + 1, Script(alloc, n, w)) && Script(alloc, n, w).calls == LogOf(n, w.calls)
  {
    if n <= 2 { Segments1And2(alloc, slots, n, w); }
    else if n == 3 { Segment3(alloc, slots, w); }
    else if n <= 6 { Segments4To6(alloc, slots, n, w); }
    else if n == 7 { Segment7(alloc, slots, w); }
    else if n == 8 { Segment8(alloc, slots, w); }
    else if n == 9 { Segment9(alloc, slots, w); }
    else if n <= 11 { Segments10And11(alloc, slots, n, w); }
    else if n == 12 { Segment12(alloc, slots, w); }
    else { Segments13On(alloc, slots, n, w); }
  }

  /** A failed assertion ends the scripts. */
  lemma FailureStays(alloc: Allocator, n: nat, w: World)
    ensures !w.ok ==> !Script(alloc, n, w).ok
  {
  }

  function Segments(alloc: Allocator): (nat, World) -> World {
    (stage: nat, w: World) => Script(alloc, stage, w)
  }

  /** Either every assertion held so far, or the one on `key2` failed. */
  predicate Outcome(alloc: Allocator, slots: nat, n: nat, w: World) {
    if n < 10 || FourthKey(alloc) != SecondKey(alloc) then After(alloc, slots, n, w) && w.calls == Log(n) else !w.ok
  }

  lemma SegmentKeepsOutcome(alloc: Allocator, slots: nat, n: nat, w: World)
    requires FindsFree(alloc, slots) && slots >= 2 && Outcome(alloc, slots, n, w) && n > 0
    ensures Outcome(alloc, slots, n + 1, Script(alloc, n, w))
  {
    if n == 9 {
      Segment9(alloc, slots, w);
    } else if n < 9 || FourthKey(alloc) != SecondKey(alloc) {
      SegmentKeepsAfter(alloc, slots, n, w);
    } else {
      FailureStays(alloc, n, w);
    }
  }

  lemma {:induction false} SerialScripts(alloc: Allocator, slots: nat, n: nat)
    requires FindsFree(alloc, slots) && slots >= 2
    ensures Outcome(alloc, slots, n, S.Serial(Segments(alloc), Fresh(slots), n))
  {
    if n == 1 {
      Segment0(alloc, slots);
    } else if n > 1 {
      SerialScripts(alloc, slots, n - 1);
      SegmentKeepsOutcome(alloc, slots, n - 1, S.Serial(Segments(alloc), Fresh(slots), n - 1));
    }
  }

  // ----- All runs of the three threads -----

  const THREADS := 3
  const ROUNDS := 5

  function Start(slots: nat): S.State<World> {
    S.Start(THREADS, ROUNDS, Fresh(slots))
  }

  /** In every run and at every moment, every key assertion made so far holds; unless `key4` is given the slot `key2`
      had, when exactly the tenth segment, where main takes `key2` for deleted, and no run past it, fails. */
  lemma {:induction false} EveryAssertionHolds(alloc: Allocator, slots: nat, es: seq<S.Event>)
    requires FindsFree(alloc, slots) && slots >= 2
    ensures var s := Exec(S.Move(Segments(alloc)), Start(slots), es);
            s.data.ok <==> |s.log| < 10 || FourthKey(alloc) != SecondKey(alloc)
  {
    S.RunInv(Segments(alloc), THREADS, ROUNDS, Fresh(slots), es);
    var s := Exec(S.Move(Segments(alloc)), Start(slots), es);
    SerialScripts(alloc, slots, |s.log|);
  }

  lemma {:induction false} SerialValid(alloc: Allocator, slots: nat, n: nat)
    ensures Valid(S.Serial(Segments(alloc), Fresh(slots), n).table)
  {
    if n > 0 {
      SerialValid(alloc, slots, n - 1);
    }
  }

  lemma {:induction false} RunValid(alloc: Allocator, slots: nat, es: seq<S.Event>)
    ensures Valid(Exec(S.Move(Segments(alloc)), Start(slots), es).data.table)
  {
    S.RunInv(Segments(alloc), THREADS, ROUNDS, Fresh(slots), es);
    SerialValid(alloc, slots, |Exec(S.Move(Segments(alloc)), Start(slots), es).log|);
  }

  /** Whatever the allocator does, no thread ever holds a value in a free slot.  As far as the assertions hold, the
      table is what the scripts left, each variable holds the slot its key was last made in, and the calls made are
      exactly those of the scripts, with the results they ask for. */
  lemma {:induction false} EveryTableIsValid(alloc: Allocator, slots: nat, es: seq<S.Event>)
    ensures var s := Exec(S.Move(Segments(alloc)), Start(slots), es);
            && Valid(s.data.table)
            && (FindsFree(alloc, slots) && slots >= 2 && s.data.ok ==>
                  && Tables(|s.log|, s.data) && Variables(alloc, |s.log|, s.data) && s.data.calls == Log(|s.log|))
  {
    RunValid(alloc, slots, es);
    S.RunInv(Segments(alloc), THREADS, ROUNDS, Fresh(slots), es);
    var s := Exec(S.Move(Segments(alloc)), Start(slots), es);
    if FindsFree(alloc, slots) && slots >= 2 {
      SerialScripts(alloc, slots, |s.log|);
    }
  }

  /** A run that cannot go on without a spurious wakeup has every thread through, the stage counter at 15, and, if the
      assertions held, all calls made and no key left. */
  lemma {:induction false} StuckRunsEndAtFifteen(alloc: Allocator, slots: nat, es: seq<S.Event>)
    requires FindsFree(alloc, slots) && slots >= 2
    ensures var s := Exec(S.Move(Segments(alloc)), Start(slots), es);
            S.Stuck(s) ==>
              && S.AllDone(s) && s.testStage == 15
              && (s.data.ok <==> FourthKey(alloc) != SecondKey(alloc))
              && (s.data.ok ==> NoKey(s.data) && s.data.made == 6 && s.data.calls == Log(15))
  {
    S.StuckRunsAreOver(Segments(alloc), THREADS, ROUNDS, Fresh(slots), es);
    SerialScripts(alloc, slots, 15);
  }

  // ----- The lowest free slot -----

  function LowestFrom(used: set<nat>, slot: nat, slots: nat): nat
    decreases slots - slot
  {
    if slot >= slots || slot !in used then slot else LowestFrom(used, slot + 1, slots)
  }

  function Lowest(slots: nat): Allocator {
    (made: nat, used: set<nat>) => LowestFrom(used, 0, slots)
  }

  lemma {:induction false} LowestIsFree(used: set<nat>, from: nat, slots: nat, free: nat)
    requires from <= free < slots && free !in used
    ensures LowestFrom(used, from, slots) <= free && LowestFrom(used, from, slots) !in used
    decreases slots - from
  {
    if from in used {
      LowestIsFree(used, from + 1, slots, free);
    }
  }

  /** With the lowest free slot, `key4` gets the slot of `key` and not that of `key2`: every assertion of every run
      holds. */
  lemma {:induction false} LowestSlotsWork(slots: nat, es: seq<S.Event>)
    requires slots >= 2
    ensures FirstKey(Lowest(slots)) == FourthKey(Lowest(slots)) == 0 && SecondKey(Lowest(slots)) == 1
    ensures var s := Exec(S.Move(Segments(Lowest(slots))), Start(slots), es);
            && s.data.ok
            && (11 <= |s.log| ==> s.data.key == s.data.key2 == s.data.key3 == 1 && s.data.key4 == 0 && s.data.made == 6)
  {
    var alloc := Lowest(slots);
    assert LowestFrom({}, 0, slots) == 0;
    assert LowestFrom({0}, 0, slots) == LowestFrom({0}, 1, slots) == 1;
    forall made: nat, used: set<nat>, slot: nat {:trigger alloc(made, used), slot in used} | slot < slots && slot !in used
      ensures alloc(made, used) < slots && alloc(made, used) !in used
    {
      LowestIsFree(used, 0, slots, slot);
    }
    EveryAssertionHolds(alloc, slots, es);
    EveryTableIsValid(alloc, slots, es);
  }
}
