/**
  The Lux clock as the driver keeps it: the cached queue of armed subscribers, the comparator
  and control bits of the hardware timer, and the worker's queue.
*/
module LuxClock {
  import opened LuxTimerQueue
  import opened LuxTimerIrq
  import opened LuxTimerWork
  import opened LuxTimerPass

  const UNPRIV_MIN_DELTA := 15625000

  /** The time of the device as subscriber `s` sees it. */
  function Virtual(s: Sub, now: nat): nat {
    (now + s.offset) % U64
  }

  /** `s` armed for deadline `cmp` of its own time. */
  function AlarmArmed(s: Sub, now: nat, cmp: nat): Sub {
    var t := Virtual(s, now);
    var delta := (cmp - t) % U64;
    var deadline := (t + delta) % U64;
    s.(deadline := deadline, phys := (deadline - s.offset) % U64)
  }

  /** `s` armed for `delta` from now on, and every `delta` after that. */
  function PeriodicArmed(s: Sub, now: nat, delta: nat): Sub {
    var deadline := (Virtual(s, now) + delta) % U64;
    s.(deadline := deadline, phys := (deadline - s.offset) % U64, delta := delta)
  }

  lemma PhysOfVirtual(offset: nat, now: nat, delta: nat)
    requires offset < U64
    ensures (((now + offset) % U64 + delta) % U64 - offset) % U64 == (now + delta) % U64
  {
    var t := (now + offset) % U64;
    assert now + offset == (now + offset) / U64 * U64 + t;
    var d := (t + delta) % U64;
    assert t + delta == (t + delta) / U64 * U64 + d;
    SameResidue(now + delta, d - offset, (now + offset) / U64 + (t + delta) / U64);
  }

  /** Arming for `delta` from now means `delta` from now on the device, whatever the offset. */
  lemma PeriodicIsPhysical(s: Sub, now: nat, delta: nat)
    requires s.offset < U64
    ensures PeriodicArmed(s, now, delta).phys == (now + delta) % U64
  {
    PhysOfVirtual(s.offset, now, delta);
  }

  /** Arming changes nothing else of a subscriber, but that a period replaces the one before. */
  lemma ArmingKeeps(s: Sub, now: nat, cmp: nat, delta: nat)
    ensures var a := AlarmArmed(s, now, cmp);
      a == Sub(s.id, s.offset, a.deadline, a.phys, s.delta, s.periodic, s.irqData)
    ensures var a := PeriodicArmed(s, now, delta);
      a == Sub(s.id, s.offset, a.deadline, a.phys, delta, s.periodic, s.irqData)
  {
  }

  /** Set to a period and in periodic mode, the n-th expiration is due n periods from now, for every n. */
  lemma PeriodicComesAround(s: Sub, now: nat, delta: nat, n: nat)
    requires s.offset < U64
    ensures Advanced(PeriodicArmed(s, now, delta), n).phys == (now + (n + 1) * delta) % U64
  {
    PeriodicIsPhysical(s, now, delta);
    AddMore(now, delta, n);
  }

  /**
    An alarm keeps the caller's deadline; on the device it is as far ahead as the deadline is
    ahead of the caller's time, where a deadline in the past counts as almost 2^64 ns ahead.
  */
  lemma AlarmIsPhysical(s: Sub, now: nat, cmp: nat)
    requires s.offset < U64 && cmp < U64
    ensures AlarmArmed(s, now, cmp).deadline == cmp
    ensures AlarmArmed(s, now, cmp).phys == (now + (cmp - Virtual(s, now)) % U64) % U64
  {
    var t := Virtual(s, now);
    var x := cmp - t;
    assert x == x / U64 * U64 + x % U64;
    SameResidue(cmp, t + x % U64, x / U64);
    PhysOfVirtual(s.offset, now, x % U64);
  }

  /**
    Before it sets the comparator the driver asks whether the deadline is ahead in the
    subscriber's time, while the worker asks in the time of the device. The two agree exactly
    if the subscriber's clock does not pass 2^64 between now and the deadline.
  */
  lemma TestsAgreeIff(s: Sub, now: nat)
    requires Armed(s) && now < U64
    ensures (s.deadline > Virtual(s, now) <==> s.phys > now) <==>
            (s.phys + s.offset >= U64 <==> now + s.offset >= U64)
  {
    var a := s.phys + s.offset;
    var x := s.deadline - s.offset;
    assert x == x / U64 * U64 + s.phys;
    SameResidue(s.deadline, a, x / U64);
    assert s.deadline == if a >= U64 then a - U64 else a;
    assert Virtual(s, now) == if now + s.offset >= U64 then now + s.offset - U64 else now + s.offset;
  }

  /**
    An alarm set in the subscriber's past, further back than the device has been running.
    It is not due for the worker before a time that lies past the end of the subscriber's
    clock. Until that clock wraps at 2^64, and no longer, reprogramming finds its deadline
    passed and asks for the worker, which finds nothing to do; from then until it is due,
    reprogramming sets the comparator.
  */
  lemma PastAlarm(s: Sub, now: nat, cmp: nat, t: nat)
    requires s.offset < U64 && now < U64 && cmp < Virtual(s, now) && now <= t < U64
    requires Virtual(s, now) - cmp > now
    ensures var a, wraps := AlarmArmed(s, now, cmp), now + (U64 - Virtual(s, now));
            && a.phys == wraps + cmp
            && (t < a.phys ==> (a.deadline <= Virtual(a, t) <==> t < wraps))
  {
    var a, v := AlarmArmed(s, now, cmp), Virtual(s, now);
    PastAlarmIs(s, now, cmp);
    var x := now + s.offset;
    assert x == x / U64 * U64 + v;
    if t < now + (U64 - v) {
      SameResidue(t + s.offset, v + (t - now), x / U64);
    } else if t < a.phys {
      SameResidue(t + s.offset, t - now + v - U64, x / U64 + 1);
    }
  }

  /** One that lies no further back is due at once, for reprogramming and for the worker. */
  lemma RecentAlarm(s: Sub, now: nat, cmp: nat)
    requires s.offset < U64 && now < U64 && cmp < Virtual(s, now)
    requires Virtual(s, now) - cmp <= now
    ensures var a := AlarmArmed(s, now, cmp);
            a.phys == now - (Virtual(s, now) - cmp) && a.deadline <= Virtual(a, now)
  {
    PastAlarmIs(s, now, cmp);
  }

  lemma PastAlarmIs(s: Sub, now: nat, cmp: nat)
    requires s.offset < U64 && now < U64 && cmp < Virtual(s, now)
    ensures var a, back := AlarmArmed(s, now, cmp), Virtual(s, now) - cmp;
            && a.deadline == cmp && a.offset == s.offset
            && a.phys == if back <= now then now - back else now + U64 - back
  {
    AlarmIsPhysical(s, now, cmp);
    var back := Virtual(s, now) - cmp;
    assert (0 - back) % U64 == U64 - back by {
      SameResidue(0 - back, U64 - back, -1);
    }
    if now >= back {
      SameResidue(now + U64 - back, now - back, 1);
    }
  }

  /**
    A subscriber 100 ns ahead of a device that has run for 10 ns asks for 50 ns on its own
    clock: at any time below 2^64 - 100 the alarm is passed for reprogramming and not for the
    worker.
  */
  lemma PastAlarmExample(s: Sub, t: nat)
    requires s.offset == 100 && 10 <= t < U64 - 100
    ensures var a := AlarmArmed(s, 10, 50);
            a.deadline <= Virtual(a, t) && a.phys > t
  {
    PastAlarm(s, 10, 50, t);
  }

  /** What every subscriber satisfies, queued or not. */
  predicate Fits(s: Sub) {
    s.offset < U64 && s.deadline < U64 && s.irqData < U64 && s.delta < U64
  }

  lemma ArmedAfter(s: Sub, now: nat, cmp: nat, delta: nat)
    requires Fits(s) && delta < U64
    ensures Armed(AlarmArmed(s, now, cmp)) && Armed(PeriodicArmed(s, now, delta))
  {
  }

  /** Queueing an armed subscriber anew keeps what the worker relies on. */
  lemma RequeueKeeps(q: seq<Sub>, a: Sub)
    requires QueueOk(q) && Armed(a)
    ensures QueueOk(Insert(Without(q, a.id), a))
  {
    var rest := Without(q, a.id);
    WithoutKeeps(q, a.id);
    WithoutMembers(q, a.id);
    InsertMembers(rest, a);
    hide Armed, Without, Insert;
    assert !Has(rest, a.id);
    InsertKeepsOrder(rest, a);
    InsertDistinct(rest, a);
    var q' := Insert(rest, a);
    forall i | 0 <= i < |q'|
      ensures Armed(q'[i])
    {
      assert q'[i] in q';
      assert q'[i] == a || q'[i] in q;
    }
  }

  lemma WorkByRounds(q: seq<Sub>, now: nat)
    requires QueueOk(q) && now < HALF && Finishes(q, now) && !Quiet(q, now)
    ensures QueueOk(Round(q)) && Finishes(Round(q), now)
    ensures var rest := Work(Round(q), now);
            Work(q, now) == Pass(rest.queue, (if q[0].periodic then [] else [Fired(q[0])]) + rest.popped)
  {
    assert q != [];
    hide QueueOk, Finishes, Fired, Round, TotalFalls, Riser, TimeLeft, Insert, Quiet;
    RoundKeepsQueue(q);
    RoundFinishes(q, now);
  }

  lemma WorkWhenQuiet(q: seq<Sub>, now: nat)
    requires QueueOk(q) && now < HALF && Quiet(q, now)
    ensures Finishes(q, now) && Work(q, now) == Pass(q, [])
  {
  }

  class Clock {
    const subscribers: CachedTree
    /** Alarms that rang off, in order. */
    var expired: seq<Sub>
    var cmp: nat
    var timerOn: bool
    var irqOn: bool
    var reloadOn: bool
    var workQueued: bool

    ghost function Queue(): seq<Sub>
      reads this, subscribers
    {
      Walk(subscribers.root)
    }

    ghost predicate Valid()
      reads this, subscribers
    {
      subscribers.Valid()
    }

    constructor ()
      ensures Valid() && fresh(subscribers) && Queue() == [] && expired == []
      ensures !timerOn && !irqOn && !reloadOn && !workQueued && cmp == 0
    {
      subscribers := new CachedTree();
      expired, cmp := [], 0;
      timerOn, irqOn, reloadOn, workQueued := false, false, false, false;
    }

    /**
      Point the hardware at the first subscriber, or run the worker again if its deadline has
      passed. The first one has the latest deadline, so the interrupt comes at that one.
    */
    method Reprogram(now: nat)
      requires Valid()
      modifies this`cmp, this`timerOn, this`irqOn, this`reloadOn, this`workQueued
      ensures var q := Queue();
              var late := q != [] && q[0].deadline <= Virtual(q[0], now);
              && workQueued == (old(workQueued) || late)
              && (q == [] ==> !irqOn && !reloadOn && timerOn == old(timerOn) && cmp == old(cmp))
              && (late ==> irqOn == old(irqOn) && timerOn == old(timerOn) && cmp == old(cmp))
              && (q != [] && !late ==> irqOn && timerOn && cmp == q[0].phys)
              && (q != [] ==> reloadOn == old(reloadOn))
    {
      if subscribers.first.None? {
        irqOn, reloadOn := false, false;
        return;
      }
      var minSub := subscribers.first.value;
      if minSub.deadline <= Virtual(minSub, now) {
        workQueued := true;
        return;
      }
      cmp := minSub.phys;
      irqOn, timerOn := true, true;
    }

    /** One expiration of the first subscriber. */
    method ServeFirst()
      requires Valid() && QueueOk(Queue()) && Queue() != []
      modifies subscribers, this`expired
      ensures Valid() && Queue() == Round(old(Queue()))
      ensures expired == old(expired) +
                         if old(Queue())[0].periodic then [] else [Fired(old(Queue())[0])]
    {
      hide QueueOk, Insert, Expire;
      var sub := subscribers.first.value;
      EraseHead(Queue());
      subscribers.Erase(sub.id);
      if sub.periodic {
        var deadline := (sub.deadline + sub.delta) % U64;
        sub := sub.(irqData := Expire(sub.irqData, true), deadline := deadline,
                    phys := (deadline - sub.offset) % U64);
        subscribers.Enqueue(sub);
      } else {
        sub := sub.(irqData := Expire(sub.irqData, false), deadline := 0, phys := 0);
        expired := expired + [sub];
      }
    }

    /** The loop of the worker, at device time `now`. */
    method DrainExpired(now: nat)
      requires Valid() && QueueOk(Queue()) && now < HALF && Finishes(Queue(), now)
      modifies subscribers, this`expired
      ensures Valid() && QueueOk(Queue())
      ensures Queue() == Work(old(Queue()), now).queue
      ensures expired == old(expired) + Work(old(Queue()), now).popped
    {
      hide QueueOk, Finishes, Fired, TotalFalls, Riser, TimeLeft, Round, Work, Sorted, Distinct, Walk;
      ghost var all := Work(Queue(), now);
      while true
        invariant Valid() && QueueOk(Queue()) && Finishes(Queue(), now)
        invariant all.queue == Work(Queue(), now).queue
        invariant old(expired) + all.popped == expired + Work(Queue(), now).popped
        decreases Busy(Queue(), now), |Queue()|, TotalFalls(Queue()), Riser(Queue(), 0), TimeLeft(Queue(), now)
      {
        ghost var q := Queue();
        if subscribers.first.None? {
          WorkWhenQuiet(q, now);
          break;
        }
        if subscribers.first.value.phys > now {
          WorkWhenQuiet(q, now);
          break;
        }
        RoundFinishes(q, now);
        WorkByRounds(q, now);
        ServeFirst();
      }
    }

    /** The worker reads the time once, drains, then reprograms at a `later` time. */
    method WorkFunc(now: nat, later: nat)
      requires Valid() && QueueOk(Queue()) && now < HALF && Finishes(Queue(), now)
      modifies this, subscribers
      ensures Valid() && QueueOk(Queue())
      ensures Queue() == Work(old(Queue()), now).queue
      ensures expired == old(expired) + Work(old(Queue()), now).popped
      ensures var q := Queue();
              var late := q != [] && q[0].deadline <= Virtual(q[0], later);
              && workQueued == (old(workQueued) || late)
              && (q != [] && !late ==> irqOn && timerOn && cmp == q[0].phys)
    {
      DrainExpired(now);
      Reprogram(later);
    }

    /** Take `s` out if it is queued, and queue it as `armed`. */
    method Requeue(s: Sub, armed: Sub)
      requires Valid() && armed.id == s.id
      modifies subscribers
      ensures Valid() && Queue() == Insert(Without(old(Queue()), s.id), armed) && Queue() != []
    {
      WithoutMembers(Queue(), s.id);
      if Queued(s.id) {
        subscribers.Erase(s.id);
      } else {
        WithoutAbsent(Queue(), s.id);
      }
      subscribers.Enqueue(armed);
    }

    predicate Queued(id: nat)
      reads this, subscribers
    {
      Has(Walk(subscribers.root), id)
    }

    /** `s` is the record of the caller's subscriber; the caller may need two capabilities. */
    method AlarmSet(s: Sub, regCmp: nat, now: nat, later: nat, sysTime: bool, sysResource: bool)
      returns (ok: bool)
      requires Valid() && QueueOk(Queue()) && Fits(s) && (Queued(s.id) ==> s in Queue()) && regCmp < U64
      modifies this, subscribers
      ensures Valid() && QueueOk(Queue())
      ensures ok == (sysTime && (sysResource || (regCmp - Virtual(s, now)) % U64 >= 15_625_000))
      ensures Queue() == if ok then Insert(Without(old(Queue()), s.id), AlarmArmed(s, now, regCmp))
                         else old(Queue())
      ensures expired == old(expired)
      ensures ok && Queue()[0].deadline > Virtual(Queue()[0], later) ==>
                irqOn && timerOn && cmp == Queue()[0].phys
    {
      hide Insert, Without, Sorted, Distinct, Virtual, QueueOk;
      if !sysTime {
        return false;
      }
      var timeNow := Virtual(s, now);
      var userDelta := (regCmp - timeNow) % U64;
      if userDelta < UNPRIV_MIN_DELTA && !sysResource {
        return false;
      }
      ArmedAfter(s, now, regCmp, 0);
      RequeueKeeps(Queue(), AlarmArmed(s, now, regCmp));
      var deadline := (timeNow + userDelta) % U64;
      Requeue(s, s.(deadline := deadline, phys := (deadline - s.offset) % U64));
      Reprogram(later);
      ok := true;
    }

    method PeriodicSet(s: Sub, userDelta: nat, now: nat, later: nat, sysTime: bool, sysResource: bool)
      returns (ok: bool)
      requires Valid() && QueueOk(Queue()) && Fits(s) && (Queued(s.id) ==> s in Queue()) && userDelta < U64
      modifies this, subscribers
      ensures Valid() && QueueOk(Queue())
      ensures ok == (sysTime && (sysResource || userDelta >= 15_625_000))
      ensures Queue() == if ok then Insert(Without(old(Queue()), s.id), PeriodicArmed(s, now, userDelta))
                         else old(Queue())
      ensures expired == old(expired)
      ensures ok && Queue()[0].deadline > Virtual(Queue()[0], later) ==>
                irqOn && timerOn && cmp == Queue()[0].phys
    {
      hide Insert, Without, Sorted, Distinct, Virtual, QueueOk;
      if !sysTime || (userDelta < UNPRIV_MIN_DELTA && !sysResource) {
        return false;
      }
      ArmedAfter(s, now, 0, userDelta);
      RequeueKeeps(Queue(), PeriodicArmed(s, now, userDelta));
      var deadline := (Virtual(s, now) + userDelta) % U64;
      Requeue(s, s.(deadline := deadline, phys := (deadline - s.offset) % U64, delta := userDelta));
      Reprogram(later);
      ok := true;
    }
  }

  lemma EraseHead(q: seq<Sub>)
    requires q != [] && Distinct(q)
    ensures Has(q, q[0].id) && Without(q, q[0].id) == q[1..] && !Has(q[1..], q[0].id)
  {
    assert !Has(q[1..], q[0].id);
    WithoutAbsent(q[1..], q[0].id);
  }
}
