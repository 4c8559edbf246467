/**
 The bucket as an object: `TakeItem` and `GiveItem` stepped in place, under any schedule.
 */
module BucketObject {
  import opened Runs
  import opened Bucket

  /** The shared fields and mutex, and what each of the two threads owns. */
  class SharedBucket {
    const form: Form
    const capacity: int
    const itemCount: nat
    var owner: Owner
    var producer: Local
    var consumer: Local
    var bucketValue: int
    var bucketGiven: int
    var bucketTaken: int
    var mainTls: int
    var aborted: bool

    function View(): State
      reads this
    {
      State(form, capacity, itemCount, owner, producer, consumer, bucketValue, bucketGiven, bucketTaken, mainTls,
            aborted)
    }

    constructor (form: Form, capacity: int, itemCount: nat)
      ensures View() == Start(form, capacity, itemCount)
    {
      this.form, this.capacity, this.itemCount := form, capacity, itemCount;
      owner := Free;
      producer, consumer := Local(Loop, itemCount, 0), Local(Loop, itemCount, 0);
      bucketValue, bucketGiven, bucketTaken, mainTls, aborted := 0, 0, 0, 0, false;
    }

    /** `cv` is notified: the other thread leaves the wait set if it is in there. */
    method NotifyCondition(notifier: Side)
      modifies this
      ensures View() == Wake(old(View()), Other(notifier))
    {
      if notifier == Producer {
        if consumer.pc == Waiting { consumer := consumer.(pc := Woken); }
      } else {
        if producer.pc == Waiting { producer := producer.(pc := Woken); }
      }
    }

    /** One step of `while(count--) { TakeItem(); }`. */
    method TakeStep()
      requires Enabled(View(), Event.Step(Consumer))
      modifies this
      ensures View() == Apply(old(View()), Event.Step(Consumer))
    {
      match consumer.pc {
        case Loop =>
          if consumer.left == 0 { consumer := consumer.(pc := Done); }
          else { consumer := consumer.(pc := Lock, left := consumer.left - 1); }
        case Lock => owner, consumer := Held(Consumer), consumer.(pc := Check);
        case Woken => owner, consumer := Held(Consumer), consumer.(pc := Check);
        case Check =>
          if bucketValue == 0 { owner, consumer := Free, consumer.(pc := Waiting); }
          else { consumer := consumer.(pc := Tls); }
        case Tls => consumer := consumer.(pc := Value, tls := consumer.tls - 1);
        case Value => bucketValue, consumer := bucketValue - 1, consumer.(pc := Pc.Count);
        case Count => bucketTaken, consumer := bucketTaken + 1, consumer.(pc := Decide);
        case Decide =>
          if -consumer.tls != bucketTaken { aborted := true; }
          if bucketValue == capacity - 1 {
            consumer := consumer.(pc := if form == SignalLocked then Signal else UnlockThenNotify);
          } else {
            consumer := consumer.(pc := Unlock);
          }
        case Signal => consumer := consumer.(pc := Unlock); NotifyCondition(Consumer);
        case Unlock => owner, consumer := Free, consumer.(pc := Loop);
        case UnlockThenNotify => owner, consumer := Free, consumer.(pc := Notify);
        case Notify => consumer := consumer.(pc := Loop); NotifyCondition(Consumer);
      }
    }

    /** One step of `while(count--) { GiveItem(); }`. */
    method GiveStep()
      requires Enabled(View(), Event.Step(Producer))
      modifies this
      ensures View() == Apply(old(View()), Event.Step(Producer))
    {
      match producer.pc {
        case Loop =>
          if producer.left == 0 { producer := producer.(pc := Done); }
          else { producer := producer.(pc := Lock, left := producer.left - 1); }
        case Lock => owner, producer := Held(Producer), producer.(pc := Check);
        case Woken => owner, producer := Held(Producer), producer.(pc := Check);
        case Check =>
          if bucketValue < capacity { producer := producer.(pc := Tls); }
          else { owner, producer := Free, producer.(pc := Waiting); }
        case Tls => producer := producer.(pc := Value, tls := producer.tls + 1);
        case Value => bucketValue, producer := bucketValue + 1, producer.(pc := Pc.Count);
        case Count => bucketGiven, producer := bucketGiven + 1, producer.(pc := Decide);
        case Decide =>
          if producer.tls != bucketGiven { aborted := true; }
          if bucketValue == 1 {
            producer := producer.(pc := if form == SignalLocked then Signal else UnlockThenNotify);
          } else {
            producer := producer.(pc := Unlock);
          }
        case Signal => producer := producer.(pc := Unlock); NotifyCondition(Producer);
        case Unlock => owner, producer := Free, producer.(pc := Loop);
        case UnlockThenNotify => owner, producer := Free, producer.(pc := Notify);
        case Notify => producer := producer.(pc := Loop); NotifyCondition(Producer);
      }
    }

    method StepOnce(e: Event)
      modifies this
      ensures View() == Next(old(View()), e)
    {
      if Enabled(View(), e) {
        match e {
          case Spurious(side) =>
            if side == Producer { producer := producer.(pc := Woken); }
            else { consumer := consumer.(pc := Woken); }
          case Step(side) =>
            if side == Producer { GiveStep(); } else { TakeStep(); }
        }
      }
    }

    /** Runs both threads under a schedule from the start.  Nothing aborts, and if neither thread can go on both
        are done and main's checks hold. */
    method Run(schedule: seq<Event>) returns (stuck: bool)
      requires View() == Start(form, capacity, itemCount)
      modifies this
      ensures View() == Exec(Next, Start(form, capacity, itemCount), schedule)
      ensures !aborted
      ensures stuck <==> Stuck(View())
      ensures stuck && (capacity >= 1 || itemCount == 0) ==>
                && producer.pc == consumer.pc == Done
                && bucketGiven == bucketTaken == itemCount && bucketValue == 0 && mainTls == 0
    {
      ghost var start := View();
      for k := 0 to |schedule|
        invariant View() == Exec(Next, start, schedule[..k])
      {
        assert schedule[..k + 1][..k] == schedule[..k];
        StepOnce(schedule[k]);
      }
      assert schedule[..|schedule|] == schedule;
      EveryRunBalances(form, capacity, itemCount, schedule);
      if capacity >= 1 || itemCount == 0 {
        EveryStuckRunIsFinished(form, capacity, itemCount, schedule);
      }
      stuck := Stuck(View());
    }
  }
}
