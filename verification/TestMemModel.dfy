/**
 `TestMemModelSCDRF00` (samples/cpp_atomic_mm/src/main.cpp) as an object: its plain fields, written in place while
 main has them to itself, and the two multi-threaded tests, stepped in place under any schedule.
 */
module TestMemModel {
  import opened Runs
  import opened MemoryModel
  import Ring = TokenRing
  import RingLimits = TokenRingLimits
  import Once = WriteOnce
  import OnceLimits = WriteOnceLimits

  /** The fields of the object; `array` is called `slots` here. */
  class Fields {
    var value1: int
    var slots: array<int>
    var syncValue: int

    constructor (arraySize: nat)
      ensures fresh(slots) && slots.Length == arraySize
      ensures value1 == 0 && syncValue == 0 && slots[..] == seq(arraySize, _ => 0)
    {
      value1, syncValue := 0, 0;
      slots := new int[arraySize](_ => 0);
    }

    method Reset(v1: int, arrayValue: int)
      modifies this, slots
      ensures slots == old(slots)
      ensures value1 == v1 && syncValue == v1 && slots[..] == seq(slots.Length, _ => arrayValue)
    {
      value1 := v1;
      for i := 0 to slots.Length
        invariant value1 == v1 && slots == old(slots)
        invariant forall k :: 0 <= k < i ==> slots[k] == arrayValue
      {
        slots[i] := arrayValue;
      }
      syncValue := v1;
    }

    /** What a thread that knows every access finds in the fields. */
    method TakeFrom(m: Memory)
      requires Valid(m) && |m.cells| == slots.Length + 1 && |m.atoms| == 1
      modifies this, slots
      ensures slots == old(slots)
      ensures value1 == Last(m.cells[0]) && syncValue == m.atoms[0].value
      ensures forall i :: 0 <= i < slots.Length ==> slots[i] == Last(m.cells[1 + i])
    {
      value1, syncValue := Last(m.cells[0]), m.atoms[0].value;
      for i := 0 to slots.Length
        invariant slots == old(slots) && value1 == Last(m.cells[0]) && syncValue == m.atoms[0].value
        invariant forall k :: 0 <= k < i ==> slots[k] == Last(m.cells[1 + k])
      {
        slots[i] := Last(m.cells[1 + i]);
      }
    }
  }

  /** The threads of `test11_Read10Write10` and `test12_Read10Write10`, which differ in creation order only. */
  class RingTest {
    const M: nat
    const fields: Fields
    var mem: Memory
    var pc: seq<Ring.Pc>
    var order: seq<nat>
    var puts: nat
    var gets: nat
    var failed: bool

    ghost function View(): Ring.State
      reads this, fields
    {
      Ring.State(Ring.Control(M, fields.slots.Length, pc, order, puts, gets), mem, failed)
    }

    constructor (M: nat, fields: Fields)
      ensures this.M == M && this.fields == fields
    {
      this.M, this.fields := M, fields;
      mem, pc, order, puts, gets, failed := Begin(0, [], []), [], [], 0, 0, false;
    }

    method CreateThreads(ghost arrayValue: int)
      requires fields.slots.Length > 0
      requires fields.value1 == -1 && fields.syncValue == -1
      requires fields.slots[..] == seq(fields.slots.Length, _ => arrayValue)
      modifies this
      ensures View() == Ring.Start(M, fields.slots.Length, arrayValue)
    {
      mem := Begin(2 * M, [fields.value1] + fields.slots[..], [fields.syncValue]);
      pc := seq(2 * M, _ => Ring.Spin);
      order, puts, gets, failed := [], 0, 0, false;
    }

    /** One step of a thread running `putThreadType11`. */
    method PutThreadType11(t: nat)
      requires Ring.Fits(View()) && t < M && pc[t] in {Ring.Spin, Ring.SetValue, Ring.SetSlot, Ring.Release}
      modifies this
      ensures View() == Ring.Apply(old(View()), Ring.Event(t, 0))
    {
      var idx := if t < fields.slots.Length - 1 then t else fields.slots.Length - 1;
      match pc[t] {
        case Spin =>
          var sync := mem.atoms[0].value;
          mem := Load(mem, t, 0);
          if idx == (sync * -1) - 1 {
            pc, order, puts := pc[t := Ring.SetValue], order + [t], puts + 1;
          }
        case SetValue =>
          mem, pc := Assign(mem, t, 0, idx), pc[t := Ring.SetSlot];
        case SetSlot =>
          mem, pc := Assign(mem, t, 1 + idx, idx), pc[t := Ring.Release];
        case Release =>
          mem, pc := Store(mem, t, 0, idx), pc[t := Ring.Done];
      }
    }

    /** One step of a thread running `getThreadType11`; a plain read returns write `pick`. */
    method GetThreadType11(t: nat, pick: nat)
      requires Ring.Enabled(View(), Ring.Event(t, pick)) && M <= t && pc[t] != Ring.SetSlot
      modifies this
      ensures View() == Ring.Apply(old(View()), Ring.Event(t, pick))
    {
      var raw := t - M;
      var idx := if raw < fields.slots.Length - 1 then raw else fields.slots.Length - 1;
      match pc[t] {
        case Spin =>
          var sync := mem.atoms[0].value;
          mem := Load(mem, t, 0);
          if idx == sync {
            pc, order, gets := pc[t := Ring.CheckSlot], order + [t], gets + 1;
          }
        case CheckSlot =>
          failed := failed || mem.cells[1 + idx].writes[pick].value != idx;
          mem, pc := Read(mem, t, 1 + idx), pc[t := Ring.CheckValue];
        case CheckValue =>
          failed := failed || mem.cells[0].writes[pick].value != idx;
          mem, pc := Read(mem, t, 0), pc[t := Ring.SetValue];
        case SetValue =>
          var next := (idx + 1) % fields.slots.Length;
          next := (next + 1) * -1;
          mem, pc := Assign(mem, t, 0, next), pc[t := Ring.Release];
        case Release =>
          var next := (idx + 1) % fields.slots.Length;
          next := (next + 1) * -1;
          mem, pc := Store(mem, t, 0, next), pc[t := Ring.Done];
      }
    }

    /** One step of whichever thread the schedule picks. */
    method Step(e: Ring.Event)
      requires Ring.Inv(View())
      modifies this
      ensures View() == Ring.Step(old(View()), e)
    {
      if Ring.Enabled(Ring.State(Ring.Control(M, fields.slots.Length, pc, order, puts, gets), mem, failed), e) {
        if pc[e.tid] != Ring.Spin {
          Ring.HolderControl(View().ctl, e.tid, mem.atoms[0].value);
        }
        if e.tid < M {
          PutThreadType11(e.tid);
        } else {
          GetThreadType11(e.tid, e.pick);
        }
      }
    }

    /** Resets the fields and runs the threads under a schedule. */
    method RunThreads(arrayValue: int, schedule: seq<Ring.Event>)
      requires 0 < fields.slots.Length && M <= fields.slots.Length
      modifies this, fields, fields.slots
      ensures fields.slots == old(fields.slots)
      ensures View() == Exec(Ring.Step, Ring.Start(M, fields.slots.Length, arrayValue), schedule)
    {
      fields.Reset(-1, arrayValue);
      CreateThreads(arrayValue);
      ghost var start := View();
      for k := 0 to |schedule|
        invariant fields.slots == old(fields.slots)
        invariant View() == Exec(Ring.Step, start, schedule[..k])
      {
        Ring.RunInv(M, fields.slots.Length, arrayValue, schedule[..k]);
        assert schedule[..k + 1][..k] == schedule[..k];
        Step(schedule[k]);
      }
      assert schedule[..|schedule|] == schedule;
    }

    /** Main joins the threads and has the fields to itself again. */
    method JoinThreads(ghost arrayValue: int, ghost schedule: seq<Ring.Event>)
      requires 0 < fields.slots.Length && M <= fields.slots.Length
      requires View() == Exec(Ring.Step, Ring.Start(M, fields.slots.Length, arrayValue), schedule)
      requires Ring.AllDone(View().ctl)
      modifies fields, fields.slots
      ensures fields.slots == old(fields.slots) && View() == old(View())
      ensures fields.syncValue == -((M % fields.slots.Length) + 1)
      ensures fields.value1 == -((M % fields.slots.Length) + 1)
      ensures forall i :: 0 <= i < M ==> fields.slots[i] == i
    {
      Ring.EveryRunIsForced(M, fields.slots.Length, arrayValue, schedule);
      ghost var s := View();
      assert Ring.Fits(s) && s.mem == mem && s.ctl.M == M && s.ctl.A == fields.slots.Length;
      fields.TakeFrom(mem);
      forall i: nat | i < M ensures fields.slots[i] == i {
        assert Ring.Slot(s, i) == i;
      }
    }

    /** Nothing fails, nothing races, and once every thread is done main may read the fields again and the slots,
        `value1` and the atomic have their final values. */
    method Test11(arrayValue: int, schedule: seq<Ring.Event>) returns (done: bool)
      requires 0 < fields.slots.Length && M <= fields.slots.Length
      modifies this, fields, fields.slots
      ensures fields.slots == old(fields.slots)
      ensures View() == Exec(Ring.Step, Ring.Start(M, fields.slots.Length, arrayValue), schedule)
      ensures !failed && !mem.raced
      ensures Valid(mem) && |mem.clocks| == 2 * M + 1 && Covers(Joined(mem, 2 * M, 2 * M), mem.cells)
      ensures done <==> Ring.AllDone(View().ctl)
      ensures done ==> fields.syncValue == -((M % fields.slots.Length) + 1)
      ensures done ==> fields.value1 == -((M % fields.slots.Length) + 1)
      ensures done ==> forall i :: 0 <= i < M ==> fields.slots[i] == i
    {
      RunThreads(arrayValue, schedule);
      Ring.EveryRunIsForced(M, fields.slots.Length, arrayValue, schedule);
      RingLimits.MainRegainsMemory(M, fields.slots.Length, arrayValue, schedule);
      done := forall t :: 0 <= t < |pc| ==> pc[t] == Ring.Done;
      if done {
        JoinThreads(arrayValue, schedule);
      }
    }
  }

  /** The threads of `test01_Read1Write1`, `test02_Read2Write1` and `test03_Read4Write1`. */
  class ReadManyTest {
    const R: nat
    const fields: Fields
    var len: int
    var startValue: int
    var mem: Memory
    var pc: seq<Once.Pc>
    var at: seq<nat>
    var failed: bool

    ghost function View(): Once.State
      reads this, fields
    {
      Once.State(Once.Control(R, fields.slots.Length, len, startValue, pc, at), mem, failed)
    }

    constructor (R: nat, fields: Fields)
      ensures this.R == R && this.fields == fields
    {
      this.R, this.fields := R, fields;
      len, startValue, mem, pc, at, failed := 0, 0, Begin(0, [], []), [], [], false;
    }

    method CreateThreads(len: int, startValue: int, ghost v1: int, ghost arrayValue: int)
      requires fields.value1 == v1 && fields.syncValue == v1
      requires fields.slots[..] == seq(fields.slots.Length, _ => arrayValue)
      modifies this
      ensures View() == Once.Start(R, fields.slots.Length, len, startValue, v1, arrayValue)
    {
      this.len := if len < fields.slots.Length then len else fields.slots.Length;
      this.startValue := startValue;
      mem := Begin(R + 1, [fields.value1] + fields.slots[..], [fields.syncValue]);
      pc := seq(R + 1, t => if t == 0 then Once.Acquire else Once.Spin);
      at, failed := seq(R + 1, _ => 0), false;
    }

    /** One step of the thread running `putThreadType01`. */
    method PutThreadType01()
      requires Once.Enabled(View(), Once.Event(0, 0))
      modifies this
      ensures View() == Once.Apply(old(View()), Once.Event(0, 0))
    {
      match pc[0] {
        case Acquire =>
          mem, pc := Load(mem, 0, 0), pc[0 := Once.Fill];
        case Fill =>
          if at[0] < len {
            mem, at := Assign(mem, 0, 1 + at[0], startValue + at[0]), at[0 := at[0] + 1];
          } else {
            mem, pc := Assign(mem, 0, 0, startValue), pc[0 := Once.Release];
          }
        case Release =>
          mem, pc := Store(mem, 0, 0, startValue), pc[0 := Once.Done];
      }
    }

    /** One step of a thread running `getThreadType01`; a plain read returns write `pick`. */
    method GetThreadType01(t: nat, pick: nat)
      requires Once.Enabled(View(), Once.Event(t, pick)) && t > 0
      modifies this
      ensures View() == Once.Apply(old(View()), Once.Event(t, pick))
    {
      match pc[t] {
        case Spin =>
          var sync := mem.atoms[0].value;
          mem := Load(mem, t, 0);
          if startValue == sync {
            pc := pc[t := Once.Recheck];
          }
        case Recheck =>
          failed := failed || mem.atoms[0].value != startValue;
          mem, pc := Load(mem, t, 0), pc[t := Once.CheckValue];
        case CheckValue =>
          failed := failed || startValue != mem.cells[0].writes[pick].value;
          mem, pc := Read(mem, t, 0), pc[t := Once.CheckSlots];
        case CheckSlots =>
          if at[t] < len {
            failed := failed || startValue + at[t] != mem.cells[1 + at[t]].writes[pick].value;
            mem, at := Read(mem, t, 1 + at[t]), at[t := at[t] + 1];
          } else {
            mem, pc := Store(mem, t, 0, startValue), pc[t := Once.Done];
          }
      }
    }

    /** One step of whichever thread the schedule picks. */
    method Step(e: Once.Event)
      modifies this
      ensures View() == Once.Step(old(View()), e)
    {
      var now := Once.State(Once.Control(R, fields.slots.Length, len, startValue, pc, at), mem, failed);
      if Once.Enabled(now, e) {
        if e.tid == 0 {
          PutThreadType01();
        } else {
          GetThreadType01(e.tid, e.pick);
        }
      }
    }

    /** Resets the fields and runs one writer and R readers under a schedule. */
    method RunThreads(len: int, startValue: int, v1: int, arrayValue: int, schedule: seq<Once.Event>)
      modifies this, fields, fields.slots
      ensures fields.slots == old(fields.slots)
      ensures View() == Exec(Once.Step, Once.Start(R, fields.slots.Length, len, startValue, v1, arrayValue), schedule)
    {
      fields.Reset(v1, arrayValue);
      CreateThreads(len, startValue, v1, arrayValue);
      ghost var start := View();
      for k := 0 to |schedule|
        invariant fields.slots == old(fields.slots)
        invariant View() == Exec(Once.Step, start, schedule[..k])
      {
        assert schedule[..k + 1][..k] == schedule[..k];
        Step(schedule[k]);
      }
      assert schedule[..|schedule|] == schedule;
    }

    /** Main joins the threads and has the fields to itself again. */
    method JoinThreads(len: int, startValue: int, ghost v1: int, ghost arrayValue: int,
                       ghost schedule: seq<Once.Event>)
      requires startValue != v1 || R == 0
      requires View() == Exec(Once.Step, Once.Start(R, fields.slots.Length, len, startValue, v1, arrayValue), schedule)
      requires |pc| > 0 && pc[0] == Once.Done
      modifies fields, fields.slots
      ensures fields.slots == old(fields.slots) && View() == old(View())
      ensures fields.value1 == startValue && fields.syncValue == startValue
      ensures forall i :: 0 <= i < fields.slots.Length && i < len ==> fields.slots[i] == startValue + i
    {
      OnceLimits.EndIsPublished(R, fields.slots.Length, len, startValue, v1, arrayValue, schedule);
      ghost var s := View();
      assert Once.Fits(s) && s.mem == mem && s.ctl.A == fields.slots.Length;
      fields.TakeFrom(mem);
      forall i: nat | i < fields.slots.Length && i < len ensures fields.slots[i] == startValue + i {
        assert OnceLimits.Slot(s, i) == startValue + i;
      }
    }

    /** Nothing fails, nothing races, and once every thread is joined main may use the fields again, and finds in them
        what the writer wrote. */
    method Test01(len: int, startValue: int, v1: int, arrayValue: int, schedule: seq<Once.Event>)
        returns (done: bool)
      requires startValue != v1 || R == 0
      modifies this, fields, fields.slots
      ensures fields.slots == old(fields.slots)
      ensures View() == Exec(Once.Step, Once.Start(R, fields.slots.Length, len, startValue, v1, arrayValue), schedule)
      ensures !failed && !mem.raced
      ensures Valid(mem) && |mem.clocks| == R + 2 && Covers(Joined(mem, R + 1, R + 1), mem.cells)
      ensures done <==> OnceLimits.AllDone(View().ctl)
      ensures done ==> fields.value1 == startValue && fields.syncValue == startValue
      ensures done ==> forall i :: 0 <= i < fields.slots.Length && i < len ==> fields.slots[i] == startValue + i
    {
      RunThreads(len, startValue, v1, arrayValue, schedule);
      Once.EveryReaderSeesTheWriter(R, fields.slots.Length, len, startValue, v1, arrayValue, schedule);
      OnceLimits.MainRegainsMemory(R, fields.slots.Length, len, startValue, v1, arrayValue, schedule);
      done := forall t :: 0 <= t < |pc| ==> pc[t] == Once.Done;
      if done {
        JoinThreads(len, startValue, v1, arrayValue, schedule);
      }
    }
  }
}
