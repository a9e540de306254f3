/**
  The worker of the Lux clock: it takes the first subscriber of the queue while that one has
  expired, counts the expiration, and queues a periodic one again at its next deadline.
*/
module LuxTimerWork {
  import opened LuxTimerQueue
  import opened LuxTimerIrq
  import opened RingArith

  const HALF := 0x8000_0000_0000_0000

  /** One expiration of `s`. */
  function Fired(s: Sub): Sub {
    if s.periodic then
      var deadline := (s.deadline + s.delta) % U64;
      s.(irqData := Expire(s.irqData, true), deadline := deadline, phys := (deadline - s.offset) % U64)
    else
      s.(irqData := Expire(s.irqData, false), deadline := 0, phys := 0)
  }

  predicate Armed(s: Sub) {
    && s.offset < U64 && s.deadline < U64 && s.irqData < U64 && s.delta < U64
    && s.phys == (s.deadline - s.offset) % U64
  }

  ghost predicate QueueOk(q: seq<Sub>) {
    && Sorted(q) && Distinct(q)
    && forall i | 0 <= i < |q| :: Armed(q[i])
  }

  predicate Quiet(q: seq<Sub>, now: nat) {
    q == [] || q[0].phys > now
  }

  /** One round of the worker's loop, on a queue that is not quiet. */
  function Round(q: seq<Sub>): seq<Sub>
    requires q != []
  {
    if q[0].periodic then Insert(q[1..], Fired(q[0])) else q[1..]
  }

  // ---- One period ------------------------------------------------------------------------

  lemma SameResidue(x: int, y: int, k: int)
    requires x == y + k * U64
    ensures x % U64 == y % U64
  {
    var m := y / U64;
    assert y == m * U64 + y % U64;
    assert x == (m + k) * U64 + y % U64;
  }

  lemma PhysAdds(deadline: nat, offset: nat, delta: nat)
    requires deadline < U64 && offset < U64
    ensures ((deadline + delta) % U64 - offset) % U64 == ((deadline - offset) % U64 + delta) % U64
  {
    var a := (deadline + delta) % U64;
    var i := (deadline + delta) / U64;
    var j := (deadline - offset) / U64;
    var b := (deadline - offset) % U64;
    assert deadline + delta == i * U64 + a;
    assert deadline - offset == j * U64 + b;
    SameResidue(a - offset, b + delta, j - i);
  }

  lemma ExpireFits(d: nat, periodic: bool)
    ensures Expire(d, periodic) < U64
  {
    var d' := (d + 256) % U64;
    if d' / 2 % 2 == 0 {
      assert d' != U64 - 1 && d' != U64 - 2;
    }
  }

  /** A period moves the deadline on by the period in device time, also where a clock wraps. */
  lemma FiredMovesOn(s: Sub)
    requires Armed(s) && s.periodic
    ensures Armed(Fired(s)) && Fired(s).phys == (s.phys + s.delta) % U64
    ensures Fired(s).id == s.id && Fired(s).delta == s.delta && Fired(s).periodic
  {
    PhysAdds(s.deadline, s.offset, s.delta);
    ExpireFits(s.irqData, true);
  }

  /**
    What an expiration does: one more in the count above bit 8, and the bit of its own kind, bit 0
    for a periodic one and bit 1 for an alarm, beside those that are there. A periodic
    subscriber gets its next deadline, an alarm none; nothing else of it changes.
  */
  lemma FiredCounts(s: Sub, count: nat, p: bool, a: bool)
    requires s.irqData == Pack(count, p, a) && count < COUNT_LIMIT
    ensures var f := Fired(s);
      && Overruns(f.irqData) == (count + 1) % COUNT_LIMIT
      && Cause(f.irqData) == (if p || s.periodic then 1 else 0) + (if a || !s.periodic then 2 else 0)
      && f.deadline == (if s.periodic then (s.deadline + s.delta) % U64 else 0)
      && (!s.periodic ==> f.phys == 0)
      && f == Sub(s.id, s.offset, f.deadline, f.phys, s.delta, s.periodic, f.irqData)
  {
    ExpirePacks(count, p, a, s.periodic);
    Unpack((count + 1) % COUNT_LIMIT, p || s.periodic, a || !s.periodic);
    hide Expire, Pack, Overruns, Cause;
  }

  /** A period over 2^63 ns counts as one backwards. */
  predicate FallsBack(s: Sub) {
    s.periodic && HALF < s.delta < U64
  }

  /** How far back. */
  function Fall(s: Sub): nat
    requires FallsBack(s)
  {
    U64 - s.delta
  }

  /** Where a subscriber that falls back stops before it wraps; others stay where they are. */
  function Floor(s: Sub): nat {
    if FallsBack(s) then s.phys % Fall(s) else s.phys
  }

  /** How often it falls back before it wraps. */
  function Falls(s: Sub): nat {
    if FallsBack(s) then s.phys / Fall(s) else 0
  }

  lemma DivStep(x: nat, d: nat)
    requires 0 < d <= x
    ensures (x - d) / d == x / d - 1 && (x - d) % d == x % d
  {
    var q, r := x / d, x % d;
    assert x == d * q + r;
    assert x - d == d * (q - 1) + r;
    ModUnique(x - d, d, q - 1, r);
  }

  /** Up to 2^63 ns an expired deadline moves forward, without wrapping. */
  lemma FiredGoesForward(s: Sub, now: nat)
    requires Armed(s) && s.periodic && s.delta <= HALF && s.phys <= now < HALF
    ensures Fired(s).phys == s.phys + s.delta
  {
    FiredMovesOn(s);
  }

  /** Beyond, it moves back, or wraps to a time still ahead. */
  lemma FiredFallsBack(s: Sub, now: nat)
    requires Armed(s) && FallsBack(s) && s.phys <= now < HALF
    ensures if s.phys < Fall(s) then Fired(s).phys > now
            else Fired(s).phys == s.phys - Fall(s)
                 && Falls(Fired(s)) == Falls(s) - 1 && Floor(Fired(s)) == Floor(s)
  {
    FiredMovesOn(s);
    hide Armed, Fired;
    if s.phys < Fall(s) {
      assert (s.phys + s.delta) % U64 == s.phys + s.delta;
    } else {
      SameResidue(s.phys + s.delta, s.phys - Fall(s), 1);
      assert (s.phys - Fall(s)) % U64 == s.phys - Fall(s);
      DivStep(s.phys, Fall(s));
    }
  }

  // ---- When the loop ends ----------------------------------------------------------------

  /** Periodic, with a period of 0. */
  predicate Stands(s: Sub) {
    s.periodic && s.delta == 0
  }

  /** `q[r]` has a period, and does not get below a subscriber that stands. */
  predicate Rises(q: seq<Sub>, r: int) {
    && 0 <= r < |q| && q[r].periodic && q[r].delta > 0
    && forall i | 0 <= i < |q| && Stands(q[i]) :: q[i].phys <= Floor(q[r])
  }

  predicate NobodyStands(q: seq<Sub>) {
    forall i | 0 <= i < |q| :: !Stands(q[i])
  }

  predicate Finishes(q: seq<Sub>, now: nat) {
    Quiet(q, now) || NobodyStands(q) || exists r | 0 <= r < |q| :: Rises(q, r)
  }

  /** The first position from `k` on that rises, if there is one. */
  function Riser(q: seq<Sub>, k: nat): (r: nat)
    requires k <= |q|
    ensures r <= |q|
    ensures r < |q| ==> Rises(q, r)
    ensures forall i | k <= i < r :: !Rises(q, i)
    decreases |q| - k
  {
    if k == |q| || Rises(q, k) then k else Riser(q, k + 1)
  }

  function TimeLeft(q: seq<Sub>, now: nat): nat {
    if Quiet(q, now) then 0 else now + 1 - q[0].phys
  }

  function TotalFalls(q: seq<Sub>): nat {
    if q == [] then 0 else Falls(q[0]) + TotalFalls(q[1..])
  }

  lemma {:induction false} FallsInsert(q: seq<Sub>, s: Sub)
    ensures TotalFalls(Insert(q, s)) == TotalFalls(q) + Falls(s)
  {
    if q == [] || q[0].phys < s.phys {
      assert ([s] + q)[1..] == q;
    } else {
      FallsInsert(q[1..], s);
      assert ([q[0]] + Insert(q[1..], s))[1..] == Insert(q[1..], s);
    }
  }

  /** Done; or fewer subscribers, fewer falls, a nearer riser, or less time left. */
  ghost predicate Closer(q': seq<Sub>, q: seq<Sub>, now: nat) {
    Quiet(q', now) || |q'| < |q| ||
    (|q'| == |q| &&
     (TotalFalls(q') < TotalFalls(q) ||
      (TotalFalls(q') == TotalFalls(q) &&
       (Riser(q', 0) < Riser(q, 0) ||
        (Riser(q', 0) == Riser(q, 0) && TimeLeft(q', now) < TimeLeft(q, now))))))
  }

  function Busy(q: seq<Sub>, now: nat): nat {
    if Quiet(q, now) then 0 else 1
  }

  lemma RoundKeepsQueue(q: seq<Sub>)
    requires QueueOk(q) && q != []
    ensures QueueOk(Round(q))
  {
    var h, t := q[0], q[1..];
    assert Sorted(t) && Distinct(t);
    if h.periodic {
      FiredMovesOn(h);
      var h' := Fired(h);
      assert !Has(t, h'.id);
      hide Fired, Armed;
      InsertDistinct(t, h');
      InsertKeepsOrder(t, h');
    }
  }

  lemma HighestRises(q: seq<Sub>)
    requires q != [] && q[0].periodic && 0 < q[0].delta <= HALF
    requires forall i | 0 <= i < |q| :: q[i].phys <= q[0].phys
    ensures Rises(q, 0)
  {
  }

  /** A subscriber at the head that moves forward stays there. */
  lemma ForwardStays(q: seq<Sub>, now: nat)
    requires QueueOk(q) && !Quiet(q, now) && now < HALF && q[0].periodic && 0 < q[0].delta <= HALF
    ensures Round(q) == [Fired(q[0])] + q[1..] && Rises(Round(q), 0) && Rises(q, 0)
    ensures Round(q)[0].phys == q[0].phys + q[0].delta
    ensures TotalFalls(Round(q)) == TotalFalls(q)
  {
    var h, t, h' := q[0], q[1..], Fired(q[0]);
    FiredMovesOn(h);
    FiredGoesForward(h, now);
    hide Fired, Armed, Floor;
    assert Round(q) == [h'] + t;
    hide Round, Insert;
    assert ([h'] + t)[1..] == t;
    HighestRises(q);
    HighestRises([h'] + t);
  }

  /** What moving the head to place `k`, as `h'`, does to positions. */
  function Moved(t: seq<Sub>, h': Sub, k: nat): seq<Sub>
    requires k <= |t|
  {
    t[..k] + [h'] + t[k..]
  }

  /** Period, floor, and deadline if it stands, are what decides who rises. */
  predicate Alike(h: Sub, h': Sub) {
    && h.periodic && h'.periodic && h.delta == h'.delta && Floor(h) == Floor(h')
    && (Stands(h) ==> h.phys == h'.phys)
  }

  lemma MovedRises(t: seq<Sub>, h: Sub, h': Sub, k: nat, r: nat)
    requires k <= |t| && r <= |t| && Alike(h, h')
    ensures Rises(Moved(t, h', k), r) <==> Rises([h] + t, if r < k then r + 1 else if r == k then 0 else r)
  {
    var q, q', j := [h] + t, Moved(t, h', k), if r < k then r + 1 else if r == k then 0 else r;
    assert q'[k] == h';
    assert forall i | 0 <= i < k :: q'[i] == q[i + 1];
    assert forall i | k < i <= |t| :: q'[i] == q[i];
    hide Floor, Moved;
    if Rises(q', r) {
      forall i | 0 <= i < |q| && Stands(q[i])
        ensures q[i].phys <= Floor(q[j])
      {
        assert if i == 0 then Stands(q'[k]) else q[i] == q'[if i - 1 < k then i - 1 else i];
      }
    }
    if Rises(q, j) {
      forall i | 0 <= i < |q'| && Stands(q'[i])
        ensures q'[i].phys <= Floor(q'[r])
      {
        assert if i == k then Stands(q[0]) else q'[i] == q[if i < k then i + 1 else i];
      }
    }
  }

  lemma MovedFinishes(t: seq<Sub>, h: Sub, h': Sub, k: nat, now: nat)
    requires k <= |t| && Alike(h, h') && h.phys <= now && !Quiet(Moved(t, h', k), now)
    ensures Finishes(Moved(t, h', k), now) <==> Finishes([h] + t, now)
  {
    var q, q' := [h] + t, Moved(t, h', k);
    assert q'[k] == h' && Stands(h) == Stands(h');
    assert forall i | 0 <= i < k :: q'[i] == q[i + 1];
    assert forall i | k < i <= |t| :: q'[i] == q[i];
    assert NobodyStands(q) <==> NobodyStands(q') by {
      hide Rises;
      if NobodyStands(q') {
        forall i | 0 <= i < |q|
          ensures !Stands(q[i])
        {
          assert !Stands(q'[if i == 0 then k else if i - 1 < k then i - 1 else i]);
        }
      }
    }
    hide Rises, NobodyStands, Moved, Stands, Alike;
    forall r | 0 <= r <= |t| && Rises(q', r)
      ensures exists j | 0 <= j < |q| :: Rises(q, j)
    {
      MovedRises(t, h, h', k, r);
    }
    forall j | 0 <= j <= |t| && Rises(q, j)
      ensures exists r | 0 <= r < |q'| :: Rises(q', r)
    {
      MovedRises(t, h, h', k, if j == 0 then k else if j - 1 < k then j - 1 else j);
    }
  }

  /** The round of a periodic head that does not move forward. */
  lemma RoundMoves(q: seq<Sub>, now: nat)
    requires QueueOk(q) && !Quiet(q, now) && now < HALF
    requires q[0].periodic && (q[0].delta == 0 || (FallsBack(q[0]) && q[0].phys >= Fall(q[0])))
    ensures var t, h' := q[1..], Fired(q[0]);
            && Alike(q[0], h') && h'.phys <= q[0].phys
            && Round(q) == Moved(t, h', Place(t, h'))
            && q == [q[0]] + t && !Quiet(Round(q), now)
            && TotalFalls(Round(q)) == TotalFalls(t) + Falls(h')
  {
    var h, t, h' := q[0], q[1..], Fired(q[0]);
    FiredMovesOn(h);
    if h.delta == 0 {
      FiredGoesForward(h, now);
    } else {
      FiredFallsBack(h, now);
    }
    hide Fired, Armed, Floor, Falls;
    InsertAtPlace(t, h');
    FallsInsert(t, h');
    hide Insert, Place;
    assert Round(q)[0] == if Place(t, h') == 0 then h' else t[0];
  }

  /** One that wraps ends the loop. */
  lemma WrapEnds(q: seq<Sub>, now: nat)
    requires QueueOk(q) && !Quiet(q, now) && now < HALF && FallsBack(q[0]) && q[0].phys < Fall(q[0])
    ensures Quiet(Round(q), now) && |Round(q)| == |q| && Rises(q, 0)
  {
    FiredFallsBack(q[0], now);
    ModUnique(q[0].phys, Fall(q[0]), 0, q[0].phys);
  }

  /** Each round keeps a finishing queue finishing, and comes closer to the end. */
  lemma RoundFinishes(q: seq<Sub>, now: nat)
    requires QueueOk(q) && !Quiet(q, now) && now < HALF && Finishes(q, now)
    ensures Finishes(Round(q), now) && Closer(Round(q), q, now)
  {
    var h, t := q[0], q[1..];
    if !h.periodic {
      AlarmFinishes(q, now);
    } else if 0 < h.delta <= HALF {
      ForwardStays(q, now);
      assert Riser(q, 0) == 0 == Riser(Round(q), 0);
    } else if h.delta > HALF && h.phys < Fall(h) {
      WrapEnds(q, now);
    } else {
      RoundMoves(q, now);
      var h' := Fired(h);
      MovedFinishes(t, h, h', Place(t, h'), now);
      if FallsBack(h) {
        FiredFallsBack(h, now);
        hide Fired, Falls, Floor, Finishes, Moved;
      } else {
        RotationNears(q, now);
      }
    }
  }

  lemma AlarmFinishes(q: seq<Sub>, now: nat)
    requires q != [] && !q[0].periodic && !Quiet(q, now) && Finishes(q, now)
    ensures Finishes(q[1..], now)
  {
    var t := q[1..];
    assert forall i | 0 <= i < |t| :: t[i] == q[i + 1];
    if NobodyStands(q) {
      assert NobodyStands(t);
    } else {
      var r :| 0 <= r < |q| && Rises(q, r);
      assert Rises(t, r - 1);
    }
  }

  /** One that stands goes behind those with the same deadline, so the next riser is nearer. */
  lemma RotationNears(q: seq<Sub>, now: nat)
    requires QueueOk(q) && !Quiet(q, now) && now < HALF && Finishes(q, now) && Stands(q[0])
    ensures Closer(Round(q), q, now)
  {
    var h, t, h' := q[0], q[1..], Fired(q[0]);
    RoundMoves(q, now);
    FiredGoesForward(h, now);
    var k, r := Place(t, h'), Riser(q, 0);
    assert !NobodyStands(q);
    assert Rises(q, r) && r > 0;
    hide Fired, Armed, Falls;
    FloorBelow(q[r]);
    assert forall i | 0 <= i < r - 1 :: t[i].phys >= q[r].phys;
    PlaceBounds(t, h');
    assert k >= r;
    hide Rises, Place, Insert;
    MovedRises(t, h, h', k, r - 1);
  }

  lemma FloorBelow(s: Sub)
    ensures Floor(s) <= s.phys
  {
    if FallsBack(s) && s.phys < Fall(s) {
      ModUnique(s.phys, Fall(s), 0, s.phys);
    }
  }

  /** Each round of a queue that does not finish leaves one that does not. */
  lemma RoundStays(q: seq<Sub>, now: nat)
    requires QueueOk(q) && now < HALF && !Finishes(q, now)
    ensures !Finishes(Round(q), now)
  {
    var h, t := q[0], q[1..];
    if !h.periodic {
      AlarmStays(q, now);
    } else if 0 < h.delta <= HALF {
      ForwardStays(q, now);
    } else if h.delta > HALF && h.phys < Fall(h) {
      WrapEnds(q, now);
    } else {
      RoundMoves(q, now);
      MovedFinishes(t, h, Fired(h), Place(t, Fired(h)), now);
    }
  }

  lemma AlarmStays(q: seq<Sub>, now: nat)
    requires Sorted(q) && q != [] && !q[0].periodic && !Finishes(q, now)
    ensures !Finishes(q[1..], now)
  {
    var t := q[1..];
    assert forall i | 0 <= i < |t| :: t[i] == q[i + 1];
    var z :| 0 <= z < |q| && Stands(q[z]);
    assert Stands(t[z - 1]);
    if exists r | 0 <= r < |t| :: Rises(t, r) {
      var r :| 0 <= r < |t| && Rises(t, r);
      assert Rises(q, r + 1);
    }
  }

  function Rounds(q: seq<Sub>, now: nat, n: nat): seq<Sub>
    decreases n
  {
    if n == 0 || Quiet(q, now) then q else Rounds(Round(q), now, n - 1)
  }

  ghost predicate EndsAfter(q: seq<Sub>, now: nat, n: nat) {
    Quiet(Rounds(q, now, n), now)
  }

  /**
    Exactly when the worker's loop ends: the first deadline is still ahead; or no periodic
    subscriber has a period of 0; or one that has a period never gets, falling back by it,
    below one that has not. (Arming an alarm and then asking for periodic mode leaves a
    period of 0.)
  */
  lemma LoopEndsIff(q: seq<Sub>, now: nat)
    requires QueueOk(q) && now < HALF
    ensures (exists n :: EndsAfter(q, now, n)) <==> Finishes(q, now)
  {
    if Finishes(q, now) {
      var n := EndsIn(q, now);
      assert EndsAfter(q, now, n);
    } else {
      forall n
        ensures !EndsAfter(q, now, n)
      {
        GoesOn(q, now, n);
      }
    }
  }

  lemma {:induction false} EndsIn(q: seq<Sub>, now: nat) returns (n: nat)
    requires QueueOk(q) && now < HALF && Finishes(q, now)
    ensures Quiet(Rounds(q, now, n), now)
    decreases Busy(q, now), |q|, TotalFalls(q), Riser(q, 0), TimeLeft(q, now)
  {
    n := 0;
    if !Quiet(q, now) {
      RoundKeepsQueue(q);
      RoundFinishes(q, now);
      hide Finishes, QueueOk, Round, TotalFalls, Riser, TimeLeft;
      n := EndsIn(Round(q), now);
      n := n + 1;
    }
  }

  lemma {:induction false} GoesOn(q: seq<Sub>, now: nat, n: nat)
    requires QueueOk(q) && now < HALF && !Finishes(q, now)
    ensures !Quiet(Rounds(q, now, n), now)
    decreases n
  {
    assert !Quiet(q, now);
    hide Finishes, QueueOk, Quiet, Round;
    if n > 0 {
      RoundKeepsQueue(q);
      RoundStays(q, now);
      GoesOn(Round(q), now, n - 1);
    }
  }
}
