/**
  One pass of the Lux clock's worker from start to end: what it does to every subscriber, and
  who is still late when it is over.
*/
module LuxTimerPass {
  import opened LuxTimerQueue
  import opened LuxTimerIrq
  import opened LuxTimerWork
  import opened RingArith

  /** The queue a pass leaves, and the alarms it took out. */
  datatype Pass = Pass(queue: seq<Sub>, popped: seq<Sub>)

  function Work(q: seq<Sub>, now: nat): (p: Pass)
    requires QueueOk(q) && now < HALF && Finishes(q, now)
    ensures QueueOk(p.queue) && Quiet(p.queue, now)
    decreases Busy(q, now), |q|, TotalFalls(q), Riser(q, 0), TimeLeft(q, now)
  {
    if Quiet(q, now) then Pass(q, [])
    else
      RoundKeepsQueue(q);
      RoundFinishes(q, now);
      var rest := Work(Round(q), now);
      if q[0].periodic then rest else rest.(popped := [Fired(q[0])] + rest.popped)
  }

  /** A 64-bit time, `n` periods later. */
  function Later(x: nat, delta: nat, n: nat): nat {
    (x + n * delta) % U64
  }

  /** `s` after `n` of its periods. */
  function Advanced(s: Sub, n: nat): Sub {
    s.(deadline := Later(s.deadline, s.delta, n),
       phys := Later(s.phys, s.delta, n),
       irqData := if n == 0 then s.irqData else OrPeriodic((s.irqData + 256 * n) % U64))
  }

  lemma NoPeriods(s: Sub)
    requires Armed(s)
    ensures Advanced(s, 0) == s
  {
  }

  lemma AddMore(x: nat, delta: nat, n: nat)
    ensures Later((x + delta) % U64, delta, n) == Later(x, delta, n + 1)
  {
    assert n * delta + delta == (n + 1) * delta;
    var d := x + delta;
    assert d == d / U64 * U64 + d % U64;
    SameResidue(x + (n + 1) * delta, d % U64 + n * delta, d / U64);
  }

  lemma OnePeriodMore(s: Sub, n: nat)
    requires Armed(s) && s.periodic
    ensures Advanced(Fired(s), n) == Advanced(s, n + 1)
  {
    FiredMovesOn(s);
    AddMore(s.deadline, s.delta, n);
    AddMore(s.phys, s.delta, n);
    CountMore(s.irqData, n);
  }

  /** The lowest bit takes no part in adding multiples of 256. */
  lemma EvenAdds(a: nat, n: nat)
    requires a % 2 == 0
    ensures (a + 256 * n) % U64 % 2 == 0
    ensures (a + 1 + 256 * n) % U64 == (a + 256 * n) % U64 + 1
  {
    var x := a + 256 * n;
    var b, l := x % U64, x / U64;
    assert x == l * U64 + b;
    assert b == 2 * (a / 2 + 128 * n - l * HALF);
    SameResidue(x + 1, b + 1, l);
  }

  lemma CountMore(d: nat, n: nat)
    ensures OrPeriodic((OrPeriodic((d + 256) % U64) + 256 * n) % U64) ==
            OrPeriodic((d + 256 * (n + 1)) % U64)
  {
    var a := (d + 256) % U64;
    var m := (d + 256) / U64;
    assert d + 256 == m * U64 + a;
    SameResidue(d + 256 * (n + 1), a + 256 * n, m);
    if a % 2 == 0 {
      EvenAdds(a, n);
    }
  }

  // ---- What a pass does to each subscriber ----------------------------------------------

  /** `s` moved on by `n` periods, each of them due. */
  ghost predicate CaughtUp(s: Sub, n: nat, now: nat, s': Sub) {
    s' == Advanced(s, n) && (n > 0 ==> s.periodic && Later(s.phys, s.delta, n - 1) <= now)
  }

  ghost predicate ComesFrom(q: seq<Sub>, now: nat, s': Sub) {
    exists s, n: nat :: s in q && CaughtUp(s, n, now, s')
  }

  ghost predicate RangOff(q: seq<Sub>, now: nat, s': Sub) {
    exists s :: s in q && !s.periodic && s.phys <= now && s' == Fired(s)
  }

  lemma CaughtUpFromFired(h: Sub, n: nat, now: nat, s': Sub)
    requires Armed(h) && h.periodic && h.phys <= now && CaughtUp(Fired(h), n, now, s')
    ensures CaughtUp(h, n + 1, now, s')
  {
    hide Later;
    FiredMovesOn(h);
    OnePeriodMore(h, n);
    hide Fired, Advanced;
    if n == 0 {
      NoPeriodsLater(h.phys, h.delta);
    } else {
      AddMore(h.phys, h.delta, n - 1);
    }
  }

  lemma NoPeriodsLater(x: nat, delta: nat)
    ensures x < U64 ==> Later(x, delta, 0) == x
  {
  }

  lemma ComesFromRound(q: seq<Sub>, now: nat, s': Sub)
    requires QueueOk(q) && !Quiet(q, now) && now < HALF && ComesFrom(Round(q), now, s')
    ensures ComesFrom(q, now, s')
  {
    hide Fired, Advanced, Armed, CaughtUp, Round;
    var s, n: nat :| s in Round(q) && CaughtUp(s, n, now, s');
    RoundMembers(q, s);
    if s !in q {
      CaughtUpFromFired(q[0], n, now, s');
      assert q[0] in q;
    }
  }

  lemma RangOffRound(q: seq<Sub>, now: nat, s': Sub)
    requires q != [] && RangOff(Round(q), now, s')
    ensures RangOff(q, now, s')
  {
    var s :| s in Round(q) && !s.periodic && s.phys <= now && s' == Fired(s);
    RoundMembers(q, s);
  }

  lemma RoundMembers(q: seq<Sub>, s: Sub)
    requires q != [] && s in Round(q)
    ensures s in q || (q[0].periodic && s == Fired(q[0]) && s.periodic)
  {
    if q[0].periodic {
      InsertMembers(q[1..], Fired(q[0]));
    }
    assert q == [q[0]] + q[1..];
  }

  /**
    After a pass every queued subscriber is one of before, moved on by as many periods as its
    overrun count grew, none of them early; every alarm taken out was due.
  */
  lemma {:induction false} PassAccounts(q: seq<Sub>, now: nat)
    requires QueueOk(q) && now < HALF && Finishes(q, now)
    ensures forall s' | s' in Work(q, now).queue :: ComesFrom(q, now, s')
    ensures forall s' | s' in Work(q, now).popped :: RangOff(q, now, s')
    decreases Busy(q, now), |q|, TotalFalls(q), Riser(q, 0), TimeLeft(q, now)
  {
    if Quiet(q, now) {
      forall s' | s' in Work(q, now).queue
        ensures ComesFrom(q, now, s')
      {
        NoPeriods(s');
        assert CaughtUp(s', 0, now, s');
      }
    } else {
      RoundKeepsQueue(q);
      RoundFinishes(q, now);
      PassAccounts(Round(q), now);
      forall s' | s' in Work(q, now).queue
        ensures ComesFrom(q, now, s')
      {
        ComesFromRound(q, now, s');
      }
      forall s' | s' in Work(q, now).popped
        ensures RangOff(q, now, s')
      {
        if s' in Work(Round(q), now).popped {
          RangOffRound(q, now, s');
        }
      }
    }
  }

  function Ids(q: seq<Sub>): multiset<nat> {
    if q == [] then multiset{} else multiset{q[0].id} + Ids(q[1..])
  }

  lemma {:induction false} IdsInsert(q: seq<Sub>, s: Sub)
    ensures Ids(Insert(q, s)) == Ids(q) + multiset{s.id}
  {
    if q == [] || q[0].phys < s.phys {
      assert ([s] + q)[1..] == q;
    } else {
      IdsInsert(q[1..], s);
      assert ([q[0]] + Insert(q[1..], s))[1..] == Insert(q[1..], s);
    }
  }

  /** Nobody is lost and nobody is duplicated. */
  lemma {:induction false} PassConserves(q: seq<Sub>, now: nat)
    requires QueueOk(q) && now < HALF && Finishes(q, now)
    ensures Ids(Work(q, now).queue) + Ids(Work(q, now).popped) == Ids(q)
    decreases Busy(q, now), |q|, TotalFalls(q), Riser(q, 0), TimeLeft(q, now)
  {
    if !Quiet(q, now) {
      RoundKeepsQueue(q);
      RoundFinishes(q, now);
      PassConserves(Round(q), now);
      hide QueueOk, Finishes, Riser, TimeLeft, TotalFalls;
      var rest := Work(Round(q), now);
      var f := Fired(q[0]);
      assert f.id == q[0].id;
      hide Fired;
      if q[0].periodic {
        hide Insert;
        IdsInsert(q[1..], f);
      } else {
        assert ([f] + rest.popped)[1..] == rest.popped;
      }
    }
  }

  // ---- The pass in closed form ------------------------------------------------------------

  function FirstPeriodic(q: seq<Sub>): (i: nat)
    ensures i <= |q|
    ensures forall j | 0 <= j < i :: !q[j].periodic
    ensures i < |q| ==> q[i].periodic
  {
    if q == [] || q[0].periodic then 0 else 1 + FirstPeriodic(q[1..])
  }

  function AllFired(q: seq<Sub>): seq<Sub> {
    seq(|q|, i requires 0 <= i < |q| => Fired(q[i]))
  }

  /** How many periods a deadline is behind. */
  function Behind(phys: nat, delta: nat, now: nat): nat
    requires delta > 0
  {
    if phys > now then 0 else (now - phys) / delta + 1
  }

  lemma BehindStep(phys: nat, delta: nat, now: nat)
    requires delta > 0 && phys <= now
    ensures Behind(phys, delta, now) == Behind(phys + delta, delta, now) + 1
  {
    var x := now - phys;
    if x < delta {
      ModUnique(x, delta, 0, x);
    } else {
      var y := x - delta;
      assert y == y / delta * delta + y % delta;
      assert x == (y / delta + 1) * delta + y % delta;
      ModUnique(x, delta, y / delta + 1, y % delta);
    }
  }

  lemma PlainPeriods(s: Sub, n: nat)
    requires s.phys + n * s.delta < U64
    ensures Advanced(s, n).phys == s.phys + n * s.delta
  {
  }

  /** A periodic subscriber at the head catches up in one go; the others are not looked at. */
  lemma {:induction false} HeadCatchesUp(q: seq<Sub>, now: nat)
    requires QueueOk(q) && now < HALF && q != [] && q[0].periodic && 0 < q[0].delta <= HALF
    requires Finishes(q, now)
    ensures Work(q, now) ==
            Pass([Advanced(q[0], Behind(q[0].phys, q[0].delta, now))] + q[1..], [])
    decreases TimeLeft(q, now)
  {
    var h := q[0];
    if Quiet(q, now) {
      NoPeriods(h);
      assert q == [h] + q[1..];
    } else {
      var q' := Round(q);
      ForwardStays(q, now);
      RoundKeepsQueue(q);
      RoundFinishes(q, now);
      FiredMovesOn(h);
      assert TimeLeft(q', now) < TimeLeft(q, now);
      assert Work(q, now) == Work(q', now);
      hide Work, Round, Insert, Fired, Advanced, Behind, Armed, Finishes, QueueOk, TimeLeft, Quiet;
      HeadCatchesUp(q', now);
      BehindStep(h.phys, h.delta, now);
      OnePeriodMore(h, Behind(h.phys + h.delta, h.delta, now));
    }
  }

  /** The first periodic subscriber, if there is one, has a period that moves it forward. */
  predicate PositivePeriod(q: seq<Sub>) {
    var i := FirstPeriodic(q);
    i < |q| ==> 0 < q[i].delta <= HALF
  }

  lemma PositivePeriodFinishes(q: seq<Sub>, now: nat)
    requires Sorted(q) && PositivePeriod(q)
    ensures Finishes(q, now)
  {
    var i := FirstPeriodic(q);
    if i < |q| {
      assert Rises(q, i);
    }
  }

  /**
    The alarms in front of the first periodic subscriber ring off; that one moves on to its
    first deadline after `now`; everything behind it is left alone.
  */
  function ClosedPass(q: seq<Sub>, now: nat): Pass
    requires PositivePeriod(q)
  {
    var i := FirstPeriodic(q);
    if i == |q| then Pass([], AllFired(q))
    else Pass([Advanced(q[i], Behind(q[i].phys, q[i].delta, now))] + q[i + 1..], AllFired(q[..i]))
  }

  lemma ClosedStep(q: seq<Sub>, now: nat)
    requires q != [] && !q[0].periodic && PositivePeriod(q)
    ensures PositivePeriod(q[1..])
    ensures var rest := ClosedPass(q[1..], now);
            ClosedPass(q, now) == rest.(popped := [Fired(q[0])] + rest.popped)
  {
    var t := q[1..];
    var i := FirstPeriodic(t);
    assert FirstPeriodic(q) == i + 1;
    hide FirstPeriodic, Fired, Advanced, Behind;
    if i == |t| {
      assert AllFired(q) == [Fired(q[0])] + AllFired(t);
    } else {
      assert AllFired(q[..i + 1]) == [Fired(q[0])] + AllFired(t[..i]);
      assert t[i + 1..] == q[i + 2..];
    }
  }

  lemma ClosedAtHead(q: seq<Sub>, now: nat)
    requires q != [] && q[0].periodic && 0 < q[0].delta <= HALF
    ensures PositivePeriod(q)
    ensures ClosedPass(q, now) ==
            Pass([Advanced(q[0], Behind(q[0].phys, q[0].delta, now))] + q[1..], [])
  {
    assert AllFired(q[..0]) == [];
  }

  /** The whole pass, when it has something to do. */
  lemma {:induction false} PassInClosedForm(q: seq<Sub>, now: nat)
    requires QueueOk(q) && now < HALF && !Quiet(q, now) && PositivePeriod(q)
    ensures Finishes(q, now)
    ensures Work(q, now) == ClosedPass(q, now)
    decreases |q|
  {
    PositivePeriodFinishes(q, now);
    if q[0].periodic {
      HeadCatchesUp(q, now);
      ClosedAtHead(q, now);
    } else {
      var t := q[1..];
      RoundKeepsQueue(q);
      ClosedStep(q, now);
      PositivePeriodFinishes(t, now);
      if Quiet(t, now) {
        QuietTail(q, now);
        assert t == [];
      } else {
        PassInClosedForm(t, now);
        hide ClosedPass;
      }
    }
  }

  /** When the latest deadline has passed, all have. */
  lemma QuietTail(q: seq<Sub>, now: nat)
    requires QueueOk(q) && !Quiet(q, now) && Quiet(q[1..], now)
    ensures |q| == 1
  {
  }

  /** A lone periodic subscriber gets exactly floor((now - deadline) / period) + 1 overruns. */
  lemma LonePeriodic(s: Sub, now: nat)
    requires Armed(s) && s.periodic && 0 < s.delta <= HALF && s.phys <= now < HALF
    ensures Finishes([s], now)
    ensures var n := Behind(s.phys, s.delta, now);
            && n == (now - s.phys) / s.delta + 1
            && Work([s], now) == Pass([Advanced(s, n)], [])
            && Advanced(s, n).phys == s.phys + n * s.delta
            && now < s.phys + n * s.delta <= now + s.delta
  {
    PositivePeriodFinishes([s], now);
    HeadCatchesUp([s], now);
    hide Fired, Armed, Finishes, QueueOk, Work, Advanced;
    NextMultiple(now - s.phys, s.delta);
    PlainPeriods(s, Behind(s.phys, s.delta, now));
  }

  lemma NextMultiple(x: nat, d: nat)
    requires d > 0
    ensures x < (x / d + 1) * d <= x + d
  {
    assert x == x / d * d + x % d;
    assert (x / d + 1) * d == x / d * d + d;
  }

  /**
    The walk is latest first, so a pass that found work serves one periodic subscriber at
    most: all others still queued afterwards have missed their deadline.
  */
  lemma {:induction false} OthersStayLate(q: seq<Sub>, now: nat)
    requires QueueOk(q) && now < HALF && Finishes(q, now)
    requires forall j | 0 < j < |q| :: q[j].phys <= now
    ensures forall j | 0 < j < |Work(q, now).queue| :: Work(q, now).queue[j].phys <= now
    decreases Busy(q, now), |q|, TotalFalls(q), Riser(q, 0), TimeLeft(q, now)
  {
    if !Quiet(q, now) {
      RoundKeepsQueue(q);
      RoundFinishes(q, now);
      TailStaysLate(q, now);
      OthersStayLate(Round(q), now);
    }
  }

  lemma TailStaysLate(q: seq<Sub>, now: nat)
    requires QueueOk(q) && !Quiet(q, now)
    requires forall j | 0 < j < |q| :: q[j].phys <= now
    ensures forall j | 0 < j < |Round(q)| :: Round(q)[j].phys <= now
  {
    var h, t := q[0], q[1..];
    if h.periodic {
      hide Fired, Armed;
      InsertAtPlace(t, Fired(h));
      var k := Place(t, Fired(h));
      if Fired(h).phys > now {
        assert k == 0;
      }
      hide Insert, Place;
    }
  }

  /** Somebody is late after the pass exactly if somebody else is still queued. */
  lemma LateIff(q: seq<Sub>, now: nat)
    requires QueueOk(q) && now < HALF && Finishes(q, now) && !Quiet(q, now)
    ensures var q' := Work(q, now).queue;
            (exists j | 0 <= j < |q'| :: q'[j].phys <= now) <==> |q'| > 1
  {
    forall j | 0 < j < |q|
      ensures q[j].phys <= now
    {
      assert q[0].phys >= q[j].phys;
    }
    OthersStayLate(q, now);
    var q' := Work(q, now).queue;
    if |q'| > 1 {
      assert q'[1].phys <= now;
    }
  }

  /**
    Before the pass: if the first periodic subscriber has a period that moves it forward,
    somebody is late afterwards exactly if somebody is queued behind it.
  */
  lemma LateWhen(q: seq<Sub>, now: nat)
    requires QueueOk(q) && now < HALF && !Quiet(q, now) && PositivePeriod(q)
    ensures Finishes(q, now)
    ensures var q' := Work(q, now).queue;
            (exists j | 0 <= j < |q'| :: q'[j].phys <= now) <==> FirstPeriodic(q) + 1 < |q|
  {
    PassInClosedForm(q, now);
    LateIff(q, now);
    hide Work, QueueOk, Finishes, Advanced, Behind, FirstPeriodic;
  }
}
