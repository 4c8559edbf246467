/**
 Thread-specific keys, as tests/pthread/src/pthread_specific.c uses them: a key is a bare slot of a table, deleting it
 frees the slot and clears its value in every thread, and a later key may get the same slot.
 */
module KeyTable {

  const NULL := 0
  const EINVAL := 22
  const EAGAIN := 11

  /** `bound[(thread, slot)]` is the value of a slot in a thread; what is not bound reads NULL. */
  datatype Table = Table(slots: nat, used: set<nat>, bound: map<(nat, nat), int>)

  /** Only keys that exist have values. */
  ghost predicate Valid(t: Table) {
    && (forall slot :: slot in t.used ==> slot < t.slots)
    && (forall b :: b in t.bound.Keys ==> b.1 in t.used && t.bound[b] != NULL)
  }

  function GetSpecific(t: Table, thread: nat, slot: nat): int {
    if slot in t.used && (thread, slot) in t.bound then t.bound[(thread, slot)] else NULL
  }

  function SetSpecific(t: Table, thread: nat, slot: nat, v: int): (int, Table) {
    if slot !in t.used then (EINVAL, t)
    else if v == NULL then (0, t.(bound := t.bound - {(thread, slot)}))
    else (0, t.(bound := t.bound[(thread, slot) := v]))
  }

  /** `pthread_key_create` when the allocator offers `slot`. */
  function KeyCreate(t: Table, slot: nat): (int, Table) {
    if slot < t.slots && slot !in t.used then (0, t.(used := t.used + {slot})) else (EAGAIN, t)
  }

  function KeyDelete(t: Table, slot: nat): (int, Table) {
    if slot !in t.used then (EINVAL, t)
    else (0, t.(used := t.used - {slot}, bound := map b | b in t.bound && b.1 != slot :: t.bound[b]))
  }

  lemma OperationsKeepValid(t: Table, thread: nat, slot: nat, v: int)
    requires Valid(t)
    ensures Valid(SetSpecific(t, thread, slot, v).1)
    ensures Valid(KeyCreate(t, slot).1)
    ensures Valid(KeyDelete(t, slot).1)
  {
  }

  /** A key made from a slot, new or used before, reads NULL in every thread, and leaves the other keys alone. */
  lemma NewKeyReadsNull(t: Table, slot: nat, thread: nat, other: nat)
    requires Valid(t)
    ensures var (status, r) := KeyCreate(t, slot);
            && (status == 0 <==> slot < t.slots && slot !in t.used) && (status == 0 || (status == 11 && r == t))
            && (status == 0 ==> GetSpecific(r, thread, slot) == NULL)
            && (other != slot ==> GetSpecific(r, thread, other) == GetSpecific(t, thread, other))
  {
  }

  /** Deleting a key clears it in every thread, leaves the others alone, and works once. */
  lemma DeletedKeyReadsNull(t: Table, slot: nat, thread: nat, other: nat)
    requires Valid(t)
    ensures var (status, r) := KeyDelete(t, slot);
            && (status == 0 <==> slot in t.used) && (status == 0 || (status == 22 && r == t))
            && GetSpecific(r, thread, slot) == NULL
            && KeyDelete(r, slot) == (22, r)
            && SetSpecific(r, thread, slot, 1) == (22, r)
            && (other != slot ==> GetSpecific(r, thread, other) == GetSpecific(t, thread, other))
  {
  }

  /** A value set is read back by the thread that set it, for that key only. */
  lemma SetThenGet(t: Table, thread: nat, slot: nat, v: int, thread': nat, slot': nat)
    requires Valid(t) && slot in t.used
    ensures var (status, r) := SetSpecific(t, thread, slot, v);
            && status == 0
            && GetSpecific(r, thread', slot')
                 == (if thread' == thread && slot' == slot then v else GetSpecific(t, thread', slot'))
  {
  }

  /** Creating a key and deleting it again restores the table. */
  lemma CreateDeleteRoundTrip(t: Table, slot: nat)
    requires Valid(t) && slot < t.slots && slot !in t.used
    ensures KeyDelete(KeyCreate(t, slot).1, slot) == (0, t)
  {
    var r := KeyDelete(KeyCreate(t, slot).1, slot).1;
    assert r.used == t.used;
    assert r.bound == t.bound;
  }
}
