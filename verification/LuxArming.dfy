/**
  The Lux clock over whole runs: subscribers that open, arm alarms and periods, switch
  periodic mode, read and close, with passes of the worker in between. What the worker needs
  of its queue holds throughout, and its loop ends unless somebody is periodic without a
  period.
*/
module LuxArming {
  import opened LuxTimerQueue
  import opened LuxTimerIrq
  import opened LuxTimerWork
  import opened LuxTimerPass
  import opened LuxClock

  /** The queued subscribers, the others by id, and whether a pass of the worker never ended. */
  datatype Park = Park(queue: seq<Sub>, idle: map<nat, Sub>, hung: bool)

  datatype Step =
    | Open(id: nat)
    | SetOffset(id: nat, offset: nat)
    | SetAlarm(id: nat, cmp: nat, now: nat)
    | SetPeriod(id: nat, delta: nat, now: nat)
    | SetPeriodic(id: nat, on: bool)
    | ReadWord(id: nat)
    | WorkerPass(now: nat)
    | Close(id: nat)

  function FirstPark(): Park {
    Park([], map[], false)
  }

  /** The record of `id`, if it is queued. */
  function Find(q: seq<Sub>, id: nat): (s: Sub)
    requires Has(q, id)
    ensures s in q && s.id == id
  {
    if q[0].id == id then q[0] else
      assert Has(q[1..], id) by {
        var i :| 0 <= i < |q| && q[i].id == id;
        assert q[1..][i - 1].id == id;
      }
      Find(q[1..], id)
  }

  predicate Known(p: Park, id: nat) {
    id in p.idle || Has(p.queue, id)
  }

  function Record(p: Park, id: nat): (s: Sub)
    requires Known(p, id)
  {
    if id in p.idle then p.idle[id] else Find(p.queue, id)
  }

  /** In place: flags and the expiration word may change while a subscriber is queued. */
  function Replace(q: seq<Sub>, a: Sub): (q': seq<Sub>)
    ensures |q'| == |q|
    ensures forall i | 0 <= i < |q| :: q'[i] == if q[i].id == a.id then a else q[i]
  {
    seq(|q|, i requires 0 <= i < |q| => if q[i].id == a.id then a else q[i])
  }

  function Update(p: Park, a: Sub): Park {
    if a.id in p.idle then p.(idle := p.idle[a.id := a]) else p.(queue := Replace(p.queue, a))
  }

  function Enqueue(p: Park, a: Sub): Park {
    p.(queue := Insert(Without(p.queue, a.id), a), idle := p.idle - {a.id})
  }

  /** The alarms a pass took out are idle again. */
  function Shelved(idle: map<nat, Sub>, popped: seq<Sub>): map<nat, Sub> {
    if popped == [] then idle else Shelved(idle, popped[1..])[popped[0].id := popped[0]]
  }

  ghost function Passed(p: Park, now: nat): Park
    requires QueueOk(p.queue) && now < HALF
  {
    if Finishes(p.queue, now) then
      var w := Work(p.queue, now);
      p.(queue := w.queue, idle := Shelved(p.idle, w.popped))
    else p.(hung := true)
  }

  ghost function Do(p: Park, s: Step): Park
    requires QueueOk(p.queue)
  {
    if p.hung then p else
    match s
    case Open(id) => if Known(p, id) then p else p.(idle := p.idle[id := Sub(id, 0, 0, 0, 0, false, 0)])
    case SetOffset(id, offset) =>
      if id in p.idle && offset < U64 then Update(p, p.idle[id].(offset := offset)) else p
    case SetAlarm(id, cmp, now) =>
      if Known(p, id) && cmp < U64 then Enqueue(p, AlarmArmed(Record(p, id), now, cmp)) else p
    case SetPeriod(id, delta, now) =>
      if Known(p, id) && delta < U64 then Enqueue(p, PeriodicArmed(Record(p, id), now, delta)) else p
    case SetPeriodic(id, on) => if Known(p, id) then Update(p, Record(p, id).(periodic := on)) else p
    case ReadWord(id) => if Known(p, id) then Update(p, Record(p, id).(irqData := 0)) else p
    case WorkerPass(now) => if now < HALF then Passed(p, now) else p
    case Close(id) => p.(queue := Without(p.queue, id), idle := p.idle - {id})
  }

  ghost predicate ParkOk(p: Park) {
    && QueueOk(p.queue)
    && forall id | id in p.idle :: p.idle[id].id == id && Fits(p.idle[id]) && !Has(p.queue, id)
  }

  lemma RecordFits(p: Park, id: nat)
    requires ParkOk(p) && Known(p, id)
    ensures Record(p, id).id == id && Fits(Record(p, id))
    ensures id !in p.idle ==> Record(p, id) in p.queue && Armed(Record(p, id))
  {
  }

  lemma EnqueueOk(p: Park, a: Sub)
    requires ParkOk(p) && Armed(a)
    ensures ParkOk(Enqueue(p, a))
  {
    RequeueKeeps(p.queue, a);
    WithoutMembers(p.queue, a.id);
    InsertMembers(Without(p.queue, a.id), a);
    hide Insert, Without, QueueOk, Fits, Armed;
    var q' := Enqueue(p, a).queue;
    forall i | 0 <= i < |q'|
      ensures q'[i] == a || q'[i] in p.queue
    {
      assert q'[i] in q';
    }
  }

  lemma UpdateOk(p: Park, s: Sub, a: Sub)
    requires ParkOk(p) && Known(p, a.id) && s == Record(p, a.id) && Fits(a)
    requires a.id in p.idle || (a.phys == s.phys && Armed(a))
    ensures ParkOk(Update(p, a))
  {
    if a.id !in p.idle {
      var q' := Replace(p.queue, a);
      assert forall i | 0 <= i < |q'| :: q'[i].id == p.queue[i].id;
      ReplaceKeepsPhys(p.queue, s, a);
    }
  }

  lemma ReplaceKeepsPhys(q: seq<Sub>, s: Sub, a: Sub)
    requires Distinct(q) && s in q && s.id == a.id && s.phys == a.phys
    ensures forall i | 0 <= i < |q| :: Replace(q, a)[i].phys == q[i].phys
  {
    var k :| 0 <= k < |q| && q[k] == s;
    forall i | 0 <= i < |q|
      ensures Replace(q, a)[i].phys == q[i].phys
    {
      assert i == k || q[i].id != q[k].id;
    }
  }

  lemma CloseOk(p: Park, id: nat)
    requires ParkOk(p)
    ensures ParkOk(Do(p, Close(id)))
  {
    var q' := Without(p.queue, id);
    WithoutKeeps(p.queue, id);
    WithoutMembers(p.queue, id);
    hide Without, Fits, Armed;
    forall i | 0 <= i < |q'|
      ensures q'[i] in p.queue
    {
      assert q'[i] in q';
    }
  }

  lemma {:induction false} IdsHas(q: seq<Sub>, id: nat)
    ensures id in Ids(q) <==> Has(q, id)
  {
    if q != [] {
      IdsHas(q[1..], id);
      assert q == [q[0]] + q[1..];
      assert Has(q, id) <==> q[0].id == id || Has(q[1..], id) by {
        if i :| 0 <= i < |q| && q[i].id == id {
          assert i == 0 || q[1..][i - 1].id == id;
        }
        if j :| 0 <= j < |q[1..]| && q[1..][j].id == id {
          assert q[j + 1].id == id;
        }
      }
    }
  }

  lemma {:induction false} IdsOnce(q: seq<Sub>, id: nat)
    requires Distinct(q)
    ensures Ids(q)[id] <= 1
  {
    if q != [] {
      IdsOnce(q[1..], id);
      IdsHas(q[1..], id);
    }
  }

  lemma {:induction false} ShelvedIs(idle: map<nat, Sub>, popped: seq<Sub>)
    ensures forall id :: id in Shelved(idle, popped) <==> id in idle || Has(popped, id)
    ensures forall id | id in Shelved(idle, popped) ::
              (id in idle && Shelved(idle, popped)[id] == idle[id])
              || (Shelved(idle, popped)[id] in popped && Shelved(idle, popped)[id].id == id)
  {
    if popped != [] {
      var rest := popped[1..];
      ShelvedIs(idle, rest);
      forall id
        ensures Has(popped, id) <==> popped[0].id == id || Has(rest, id)
      {
        if i :| 0 <= i < |popped| && popped[i].id == id {
          assert i == 0 || rest[i - 1].id == id;
        }
        if j :| 0 <= j < |rest| && rest[j].id == id {
          assert popped[j + 1].id == id;
        }
      }
      assert forall s :: s in rest ==> s in popped;
    }
  }

  /** After a pass nobody is queued and idle at once, and what was popped is fit to arm again. */
  lemma PassedOk(p: Park, now: nat)
    requires ParkOk(p) && now < HALF && Finishes(p.queue, now)
    ensures ParkOk(Passed(p, now))
  {
    var w := Work(p.queue, now);
    PassConserves(p.queue, now);
    PassAccounts(p.queue, now);
    ShelvedIs(p.idle, w.popped);
    hide Work, Finishes, Shelved, Armed;
    var p' := Passed(p, now);
    forall id | id in p'.idle
      ensures p'.idle[id].id == id && Fits(p'.idle[id]) && !Has(p'.queue, id)
    {
      IdsHas(w.queue, id);
      IdsHas(w.popped, id);
      IdsHas(p.queue, id);
      IdsOnce(p.queue, id);
      var s' := p'.idle[id];
      if !(id in p.idle && s' == p.idle[id]) {
        PoppedFits(p.queue, now, s');
      }
    }
  }

  lemma PoppedFits(q: seq<Sub>, now: nat, s': Sub)
    requires QueueOk(q) && RangOff(q, now, s')
    ensures Fits(s') && !s'.periodic
  {
    var s :| s in q && !s.periodic && s.phys <= now && s' == Fired(s);
    ExpireFits(s.irqData, false);
  }

  lemma DoOk(p: Park, s: Step)
    requires ParkOk(p)
    ensures ParkOk(Do(p, s))
  {
    match s
    case SetAlarm(id, cmp, now) =>
      if Known(p, id) && cmp < U64 {
        RecordFits(p, id);
        ArmedAfter(Record(p, id), now, cmp, 0);
        EnqueueOk(p, AlarmArmed(Record(p, id), now, cmp));
      }
    case SetPeriod(id, delta, now) =>
      if Known(p, id) && delta < U64 {
        RecordFits(p, id);
        ArmedAfter(Record(p, id), now, 0, delta);
        EnqueueOk(p, PeriodicArmed(Record(p, id), now, delta));
      }
    case SetPeriodic(id, on) =>
      if Known(p, id) {
        RecordFits(p, id);
        UpdateOk(p, Record(p, id), Record(p, id).(periodic := on));
      }
    case ReadWord(id) =>
      if Known(p, id) {
        RecordFits(p, id);
        UpdateOk(p, Record(p, id), Record(p, id).(irqData := 0));
      }
    case WorkerPass(now) =>
      if !p.hung && now < HALF && Finishes(p.queue, now) {
        PassedOk(p, now);
      }
    case Close(id) => CloseOk(p, id);
    case _ =>
  }

  ghost function Run(steps: seq<Step>): (p: Park)
    ensures ParkOk(p)
  {
    if steps == [] then FirstPark()
    else
      DoOk(Run(steps[..|steps| - 1]), steps[|steps| - 1]);
      Do(Run(steps[..|steps| - 1]), steps[|steps| - 1])
  }

  // ---- What a step does to each record -------------------------------------------------------

  lemma FindIs(q: seq<Sub>, s: Sub)
    requires Distinct(q) && s in q
    ensures Has(q, s.id) && Find(q, s.id) == s
  {
    var k :| 0 <= k < |q| && q[k] == s;
    var j :| 0 <= j < |q| && q[j] == Find(q, s.id);
    assert j == k || q[j].id != q[k].id;
  }

  /** A subscriber both queues have with the same record. */
  lemma SameFind(q: seq<Sub>, q': seq<Sub>, id: nat)
    requires Distinct(q) && Distinct(q')
    requires forall s: Sub | s.id == id :: s in q <==> s in q'
    ensures Has(q, id) <==> Has(q', id)
    ensures Has(q, id) ==> Find(q, id) == Find(q', id)
  {
    if Has(q, id) {
      FindIs(q', Find(q, id));
    } else if Has(q', id) {
      FindIs(q, Find(q', id));
    }
  }

  lemma EnqueueRecords(p: Park, a: Sub, id: nat)
    requires ParkOk(p) && Armed(a)
    ensures var p' := Enqueue(p, a);
      && (id == a.id ==> Known(p', id) && Record(p', id) == a)
      && (id != a.id ==> (Known(p', id) <==> Known(p, id)) && (Known(p, id) ==> Record(p', id) == Record(p, id)))
  {
    EnqueueOk(p, a);
    var p' := Enqueue(p, a);
    WithoutMembers(p.queue, a.id);
    InsertMembers(Without(p.queue, a.id), a);
    hide Insert, Without, Armed, Fits;
    FindIs(p'.queue, a);
    if id != a.id {
      SameFind(p.queue, p'.queue, id);
    }
  }

  lemma ReplaceMembers(q: seq<Sub>, a: Sub, id: nat)
    requires Distinct(q) && Has(q, a.id)
    ensures Distinct(Replace(q, a)) && a in Replace(q, a)
    ensures forall s: Sub | s.id == id != a.id :: s in q <==> s in Replace(q, a)
  {
    var q' := Replace(q, a);
    var k :| 0 <= k < |q| && q[k].id == a.id;
    assert q'[k] == a;
    forall s: Sub | s.id == id != a.id
      ensures s in q <==> s in q'
    {
      if i :| 0 <= i < |q| && q[i] == s {
        assert q'[i] == s;
      }
    }
  }

  lemma UpdateRecords(p: Park, a: Sub, id: nat)
    requires ParkOk(p) && Known(p, a.id)
    ensures var p' := Update(p, a);
      && (id == a.id ==> Known(p', id) && Record(p', id) == a)
      && (id != a.id ==> (Known(p', id) <==> Known(p, id)) && (Known(p, id) ==> Record(p', id) == Record(p, id)))
  {
    if a.id !in p.idle {
      var q' := Update(p, a).queue;
      ReplaceMembers(p.queue, a, id);
      hide Replace, Armed, Fits;
      FindIs(q', a);
      if id != a.id {
        SameFind(p.queue, q', id);
      }
    }
  }

  lemma CloseRecords(p: Park, id: nat, other: nat)
    requires ParkOk(p) && !p.hung
    ensures var p' := Do(p, Close(id));
      && !Known(p', id)
      && (other != id ==> (Known(p', other) <==> Known(p, other))
                          && (Known(p, other) ==> Record(p', other) == Record(p, other)))
  {
    CloseOk(p, id);
    WithoutMembers(p.queue, id);
    hide Without, Armed, Fits;
    var q' := Do(p, Close(id)).queue;
    if other != id {
      SameFind(p.queue, q', other);
    }
    forall i | 0 <= i < |q'|
      ensures q'[i].id != id
    {
      assert q'[i] in q';
    }
  }

  /** What step `s`, taken by the subscriber with record `r`, makes of the record. */
  predicate Becomes(s: Step, idle: bool, r: Sub, r': Sub) {
    match s
    case SetOffset(_, offset) =>
      r' == if idle && offset < U64 then r.(offset := offset) else r
    case SetAlarm(_, cmp, now) =>
      r' == if cmp < U64 then AlarmArmed(r, now, cmp) else r
    case SetPeriod(_, delta, now) =>
      r' == if delta < U64 then PeriodicArmed(r, now, delta) else r
    case SetPeriodic(_, on) => r' == Sub(r.id, r.offset, r.deadline, r.phys, r.delta, on, r.irqData)
    case ReadWord(_) => r' == Sub(r.id, r.offset, r.deadline, r.phys, r.delta, r.periodic, 0)
    case _ => r' == r
  }

  /** The subscriber a step is about; a pass of the worker is about none. */
  predicate About(s: Step, id: nat) {
    !s.WorkerPass? && s.id == id
  }

  /** A step changes the record of the subscriber that takes it, as it says, and of nobody else. */
  lemma StepsAreOwn(p: Park, s: Step, id: nat)
    requires ParkOk(p) && !p.hung && !s.WorkerPass?
    ensures var p' := Do(p, s);
      && (!About(s, id) ==> (Known(p', id) <==> Known(p, id)) && (Known(p, id) ==> Record(p', id) == Record(p, id)))
      && (About(s, id) && s.Close? ==> !Known(p', id))
      && (About(s, id) && s.Open? && !Known(p, id) ==> Known(p', id) && Record(p', id) == Sub(id, 0, 0, 0, 0, false, 0))
      && (About(s, id) && !s.Close? && Known(p, id) ==> Known(p', id) && Becomes(s, id in p.idle, Record(p, id), Record(p', id)))
  {
    match s
    case Open(_) =>
    case SetOffset(_, _) =>
    case SetAlarm(own, cmp, now) =>
      if Known(p, own) && cmp < U64 {
        RecordFits(p, own);
        ArmedAfter(Record(p, own), now, cmp, 0);
        EnqueueRecords(p, AlarmArmed(Record(p, own), now, cmp), id);
      }
    case SetPeriod(own, delta, now) =>
      if Known(p, own) && delta < U64 {
        RecordFits(p, own);
        ArmedAfter(Record(p, own), now, 0, delta);
        EnqueueRecords(p, PeriodicArmed(Record(p, own), now, delta), id);
      }
    case SetPeriodic(own, on) =>
      if Known(p, own) {
        RecordFits(p, own);
        UpdateRecords(p, Record(p, own).(periodic := on), id);
      }
    case ReadWord(own) =>
      if Known(p, own) {
        RecordFits(p, own);
        UpdateRecords(p, Record(p, own).(irqData := 0), id);
      }
    case Close(own) => CloseRecords(p, own, id);
  }

  /** A pass of the worker loses nobody: the alarms that rang off can be armed again. */
  lemma PassLosesNobody(p: Park, now: nat, id: nat)
    requires ParkOk(p) && !p.hung
    ensures Known(Do(p, WorkerPass(now)), id) <==> Known(p, id)
  {
    if now < HALF && Finishes(p.queue, now) {
      var w := Work(p.queue, now);
      PassConserves(p.queue, now);
      ShelvedIs(p.idle, w.popped);
      IdsHas(p.queue, id);
      IdsHas(w.queue, id);
      IdsHas(w.popped, id);
      hide Work, Finishes, Shelved, Ids, Has, QueueOk;
      assert id in Ids(p.queue) <==> id in Ids(w.queue) || id in Ids(w.popped);
    }
  }

  // ---- Runs in which the worker's loop always ends -------------------------------------------

  /** Nobody, queued or idle, is periodic without a period. */
  ghost predicate NobodyAtAllStands(p: Park) {
    NobodyStands(p.queue) && forall id | id in p.idle :: !Stands(p.idle[id])
  }

  /** A step that makes a subscriber so: periodic mode without a period, or the period taken away. */
  predicate Stalls(p: Park, s: Step) {
    match s
    case SetPeriodic(id, on) => Known(p, id) && on && Record(p, id).delta == 0
    case SetPeriod(id, delta, _) => Known(p, id) && delta == 0 && Record(p, id).periodic
    case _ => false
  }

  lemma StallsIff(p: Park, s: Step)
    requires ParkOk(p) && !p.hung && NobodyAtAllStands(p)
    ensures NobodyAtAllStands(Do(p, s)) <==> !Stalls(p, s)
    ensures !Do(p, s).hung
  {
    match s
    case Open(_) =>
    case SetOffset(_, _) =>
    case SetAlarm(id, cmp, now) =>
      if Known(p, id) && cmp < U64 {
        RecordFits(p, id);
        RecordStands(p, id);
        EnqueueStands(p, AlarmArmed(Record(p, id), now, cmp));
      }
    case SetPeriod(id, delta, now) =>
      if Known(p, id) && delta < U64 {
        RecordFits(p, id);
        EnqueueStands(p, PeriodicArmed(Record(p, id), now, delta));
      }
    case SetPeriodic(id, on) =>
      if Known(p, id) {
        RecordFits(p, id);
        RecordStands(p, id);
        UpdateStands(p, Record(p, id), Record(p, id).(periodic := on));
      }
    case ReadWord(id) =>
      if Known(p, id) {
        RecordFits(p, id);
        RecordStands(p, id);
        UpdateStands(p, Record(p, id), Record(p, id).(irqData := 0));
      }
    case WorkerPass(now) =>
      if now < HALF {
        PassedStands(p, now);
      }
    case Close(id) =>
      WithoutMembers(p.queue, id);
      MembersStand(p.queue, Without(p.queue, id));
  }

  lemma RecordStands(p: Park, id: nat)
    requires Known(p, id) && NobodyAtAllStands(p)
    ensures !Stands(Record(p, id))
  {
  }

  lemma MembersStand(q: seq<Sub>, q': seq<Sub>)
    requires NobodyStands(q) && forall s :: s in q' ==> s in q
    ensures NobodyStands(q')
  {
    forall i | 0 <= i < |q'|
      ensures !Stands(q'[i])
    {
      assert q'[i] in q;
    }
  }

  lemma EnqueueStands(p: Park, a: Sub)
    requires NobodyAtAllStands(p)
    ensures NobodyAtAllStands(Enqueue(p, a)) <==> !Stands(a)
  {
    var rest := Without(p.queue, a.id);
    WithoutMembers(p.queue, a.id);
    MembersStand(p.queue, rest);
    InsertMembers(rest, a);
    hide Insert, Without, Stands;
    var q' := Insert(rest, a);
    assert a in q';
    if !Stands(a) {
      forall i | 0 <= i < |q'|
        ensures !Stands(q'[i])
      {
        assert q'[i] in q';
        assert q'[i] == a || q'[i] in p.queue;
      }
    }
  }

  lemma UpdateStands(p: Park, s: Sub, a: Sub)
    requires NobodyAtAllStands(p) && Known(p, a.id) && s == Record(p, a.id)
    requires a.id in p.idle || (s in p.queue && s.id == a.id)
    ensures NobodyAtAllStands(Update(p, a)) <==> !Stands(a)
  {
    hide Stands;
    var p' := Update(p, a);
    if a.id in p.idle {
      assert p'.idle[a.id] == a;
    } else {
      var k :| 0 <= k < |p.queue| && p.queue[k] == s;
      assert p'.queue[k] == a;
    }
  }

  lemma PassedStands(p: Park, now: nat)
    requires ParkOk(p) && now < HALF && NobodyAtAllStands(p)
    ensures NobodyAtAllStands(Passed(p, now)) && Passed(p, now).hung == p.hung
  {
    var w := Work(p.queue, now);
    PassAccounts(p.queue, now);
    ShelvedIs(p.idle, w.popped);
    hide Work, Shelved, Armed;
    forall i | 0 <= i < |w.queue|
      ensures !Stands(w.queue[i])
    {
      assert w.queue[i] in w.queue;
      SurvivorStands(p.queue, now, w.queue[i]);
    }
    forall s' | s' in w.popped
      ensures !Stands(s')
    {
      PoppedFits(p.queue, now, s');
    }
  }

  lemma SurvivorStands(q: seq<Sub>, now: nat, s': Sub)
    requires NobodyStands(q) && ComesFrom(q, now, s')
    ensures !Stands(s')
  {
    var s, n: nat :| s in q && CaughtUp(s, n, now, s');
  }

  /** A run none of whose steps, where it is taken, makes somebody periodic without a period. */
  ghost predicate Careful(steps: seq<Step>)
    decreases |steps|
  {
    steps == [] ||
    (var front := steps[..|steps| - 1];
     Careful(front) && !Stalls(Run(front), steps[|steps| - 1]))
  }

  /** In such runs every pass of the worker ends. */
  lemma {:induction false} CarefulRunsGoOn(steps: seq<Step>)
    requires Careful(steps)
    ensures !Run(steps).hung && NobodyAtAllStands(Run(steps))
    decreases |steps|
  {
    if steps != [] {
      var front := steps[..|steps| - 1];
      CarefulRunsGoOn(front);
      StallsIff(Run(front), steps[|steps| - 1]);
    }
  }

  lemma RunLast(steps: seq<Step>, s: Step)
    ensures Run(steps + [s]) == Do(Run(steps), s)
  {
    assert (steps + [s])[..|steps|] == steps;
  }

  /** A subscriber with no period, alone in the queue and due, in periodic mode. */
  lemma PeriodicHangs(p: Park, id: nat, now: nat)
    requires ParkOk(p) && !p.hung && |p.queue| == 1 && p.queue[0].id == id
    requires p.queue[0].delta == 0 && p.queue[0].phys <= now < HALF
    ensures Do(Do(p, SetPeriodic(id, true)), WorkerPass(now)).hung
  {
    DoOk(p, SetPeriodic(id, true));
    assert Has(p.queue, id);
    var p' := Do(p, SetPeriodic(id, true));
    assert p'.queue[0] == p.queue[0].(periodic := true);
    assert Stands(p'.queue[0]);
  }

  /** An alarm, then periodic mode: the pass at its deadline never ends. */
  lemma AlarmThenPeriodicHangs()
    ensures Run([Open(1)] + [SetAlarm(1, 5, 0)] + [SetPeriodic(1, true)] + [WorkerPass(5)]).hung
  {
    var s1 := [Open(1)];
    var s2 := s1 + [SetAlarm(1, 5, 0)];
    var s3 := s2 + [SetPeriodic(1, true)];
    RunLast([], Open(1));
    RunLast(s1, SetAlarm(1, 5, 0));
    RunLast(s2, SetPeriodic(1, true));
    RunLast(s3, WorkerPass(5));
    var sub := Sub(1, 0, 0, 0, 0, false, 0);
    assert [] + [Open(1)] == s1;
    assert Run(s1).idle == map[1 := sub];
    ArmOne(Run(s1), sub);
    PeriodicHangs(Run(s2), 1, 5);
  }

  lemma ArmOne(p: Park, sub: Sub)
    requires QueueOk(p.queue) && p.queue == [] && p.idle == map[1 := sub] && !p.hung
    requires sub == Sub(1, 0, 0, 0, 0, false, 0)
    ensures var p' := Do(p, SetAlarm(1, 5, 0));
            p'.queue == [sub.(deadline := 5, phys := 5)] && !p'.hung
  {
  }
}
