/**
  The latency statistics of the stress client: a mean and a sum of squared deviations kept up
  to date one sample at a time, over reals.
*/
module LatencyStats {
  import opened MathOps

  const ULLONG_MAX := 0xFFFF_FFFF_FFFF_FFFF

  /** One iteration: the ioctl failed, or it took `latency` microseconds. */
  datatype Outcome = Failed | Done(latency: nat, correct: bool)

  /** How the loop ends: with its last iteration, or early at a failing clock, before or after an ioctl. */
  datatype End = AllRun | ClockFails | ClockFailsAfter(correct: bool)

  datatype Stats = Stats(success: nat, error: nat, total: nat, min: nat, max: nat,
                         mean: real, m2: real)

  function FirstStats(): Stats {
    Stats(0, 0, 0, ULLONG_MAX, 0, 0.0, 0.0)
  }

  /** The update with a sample, in iteration number `k` (from 1). */
  function Sampled(s: Stats, x: nat, k: nat): Stats
    requires k > 0
  {
    var delta1 := x as real - s.mean;
    var mean := s.mean + delta1 / k as real;
    var delta2 := x as real - mean;
    s.(total := s.total + x,
       min := if x < s.min then x else s.min,
       max := if x > s.max then x else s.max,
       mean := mean, m2 := s.m2 + delta1 * delta2)
  }

  function Counted(s: Stats, correct: bool): Stats {
    if correct then s.(success := s.success + 1) else s.(error := s.error + 1)
  }

  /** What iteration number `k` does. */
  function Iterate(s: Stats, o: Outcome, k: nat): Stats
    requires k > 0
  {
    match o
    case Failed => s
    case Done(x, correct) => Sampled(Counted(s, correct), x, k)
  }

  function After(os: seq<Outcome>): Stats {
    if os == [] then FirstStats() else Iterate(After(os[..|os| - 1]), os[|os| - 1], |os|)
  }

  /** The clock failing after an ioctl leaves the outcome counted and not sampled. */
  function Ended(s: Stats, end: End): Stats {
    if end.ClockFailsAfter? then Counted(s, end.correct) else s
  }

  class ThreadContext {
    const iterations: nat
    var successCount: nat
    var errorCount: nat
    var totalLatency: nat
    var minLatency: nat
    var maxLatency: nat
    var meanLatency: real
    var m2: real

    ghost function Value(): Stats
      reads this
    {
      Stats(successCount, errorCount, totalLatency, minLatency, maxLatency, meanLatency, m2)
    }

    constructor (iterations: nat)
      ensures this.iterations == iterations && Value() == FirstStats()
    {
      this.iterations := iterations;
      successCount, errorCount, totalLatency := 0, 0, 0;
      minLatency, maxLatency, meanLatency, m2 := ULLONG_MAX, 0, 0.0, 0.0;
    }

    method CalculateIterationStats(currentLatency: nat, currIteration: nat)
      requires currIteration > 0
      modifies this`totalLatency, this`minLatency, this`maxLatency, this`meanLatency, this`m2
      ensures Value() == Sampled(old(Value()), currentLatency, currIteration)
    {
      ghost var before := Value();
      totalLatency := totalLatency + currentLatency;
      minLatency := if currentLatency < minLatency then currentLatency else minLatency;
      maxLatency := if currentLatency > maxLatency then currentLatency else maxLatency;
      var delta1 := currentLatency as real - meanLatency;
      meanLatency := meanLatency + delta1 / currIteration as real;
      var delta2 := currentLatency as real - meanLatency;
      m2 := m2 + delta1 * delta2;
      assert meanLatency == Sampled(before, currentLatency, currIteration).mean;
    }

    /** The loop of a client thread, given what each ioctl does and whether the clock fails. */
    method RunIterations(outcomes: seq<Outcome>, end: End)
      requires if end.AllRun? then |outcomes| == iterations else |outcomes| < iterations
      requires Value() == FirstStats()
      modifies this
      ensures Value() == Ended(After(outcomes), end)
    {
      hide Sampled;
      for i := 0 to |outcomes|
        invariant Value() == After(outcomes[..i])
      {
        assert outcomes[..i + 1][..i] == outcomes[..i];
        if outcomes[i].Failed? {
          continue;
        }
        CountOutcome(outcomes[i].correct);
        CalculateIterationStats(outcomes[i].latency, i + 1);
      }
      assert outcomes[..|outcomes|] == outcomes;
      if end.ClockFailsAfter? {
        CountOutcome(end.correct);
      }
    }

    method CountOutcome(correct: bool)
      modifies this`successCount, this`errorCount
      ensures Value() == Counted(old(Value()), correct)
    {
      if correct {
        successCount := successCount + 1;
      } else {
        errorCount := errorCount + 1;
      }
    }
  }

  // ---- The two-pass definitions ----------------------------------------------------------

  function Sum(xs: seq<nat>): nat {
    if xs == [] then 0 else Sum(xs[..|xs| - 1]) + xs[|xs| - 1]
  }

  function Square(x: real, c: real): real {
    (x - c) * (x - c)
  }

  /** The sum of the squared distances from `c`. */
  function Squares(xs: seq<nat>, c: real): real {
    if xs == [] then 0.0 else Squares(xs[..|xs| - 1], c) + Square(xs[|xs| - 1] as real, c)
  }

  /** `m` is the mean of `n` samples with sum `t`. */
  predicate IsMean(t: real, n: real, m: real) {
    t == n * m
  }

  function Latencies(os: seq<Outcome>): seq<nat> {
    if os == [] then []
    else
      Latencies(os[..|os| - 1]) +
      if os[|os| - 1].Done? then [os[|os| - 1].latency] else []
  }

  // ---- The algebra of one update -----------------------------------------------------------

  /** The squares of `n` samples around `c`, from their sum `t` and the squares `q` around 0. */
  function Around(q: real, t: real, n: real, c: real): real {
    q - 2.0 * c * t + n * c * c
  }

  lemma AroundGrows(q: real, t: real, n: real, c: real, x: real)
    ensures Around(q, t, n, c) + Square(x, c) == Around(q + Square(x, 0.0), t + x, n + 1.0, c)
  {
    assert Square(x, c) == x * x - 2.0 * c * x + c * c;
    assert 2.0 * c * (t + x) == 2.0 * c * t + 2.0 * c * x;
    assert (n + 1.0) * c * c == n * c * c + c * c;
  }

  lemma {:induction false} SquaresAround(xs: seq<nat>, c: real)
    ensures Squares(xs, c) == Around(Squares(xs, 0.0), Sum(xs) as real, |xs| as real, c)
  {
    if xs == [] {
    } else {
      var front, x := xs[..|xs| - 1], xs[|xs| - 1];
      SquaresAround(front, c);
      AroundGrows(Squares(front, 0.0), Sum(front) as real, |front| as real, c, x as real);
      hide Around, Square;
    }
  }

  lemma Scale(a: real, b: real, c: real)
    requires a == b
    ensures a * c == b * c
  {
  }

  /** What an update adds to the squares, with the mean going from `m` to `m'`. */
  function Gain(x: real, m: real, m': real): real {
    (x - m) * (x - m')
  }

  lemma UpdateAlgebra(q: real, t: real, n: real, m: real, m': real, x: real)
    requires IsMean(t, n, m) && IsMean(t + x, n + 1.0, m')
    ensures Around(q, t, n, m') + Square(x, m') == Around(q, t, n, m) + Gain(x, m, m')
  {
    Scale(t + x, (n + 1.0) * m', m');
    Scale(t + x, (n + 1.0) * m', m);
    Scale(t, n * m, m');
    Scale(t, n * m, m);
    Products(q, t, n, m, m', x);
  }

  lemma Products(q: real, t: real, n: real, m: real, m': real, x: real)
    requires (t + x) * m' == (n + 1.0) * m' * m' && (t + x) * m == (n + 1.0) * m' * m
    requires t * m' == n * m * m' && t * m == n * m * m
    ensures Around(q, t, n, m') + Square(x, m') == Around(q, t, n, m) + Gain(x, m, m')
  {
    assert (t + x) * m' == t * m' + x * m';
    assert (t + x) * m == t * m + x * m;
    assert (n + 1.0) * m' * m' == n * m' * m' + m' * m';
    assert (n + 1.0) * m' * m == n * m * m' + m * m';
    assert Square(x, m') == x * x - 2.0 * m' * x + m' * m';
    assert Gain(x, m, m') == x * x - x * m' - x * m + m * m';
  }

  lemma SquaresGrow(xs: seq<nat>, x: nat, m: real, m': real)
    requires IsMean(Sum(xs) as real, |xs| as real, m)
    requires IsMean(Sum(xs) as real + x as real, |xs| as real + 1.0, m')
    ensures Squares(xs + [x], m') == Squares(xs, m) + Gain(x as real, m, m')
  {
    hide Around, Square, Gain, IsMean, Sum;
    assert (xs + [x])[..|xs|] == xs;
    SquaresAround(xs, m);
    SquaresAround(xs, m');
    UpdateAlgebra(Squares(xs, 0.0), Sum(xs) as real, |xs| as real, m, m', x as real);
  }

  function NextMean(m: real, x: real, k: real): real
    requires k > 0.0
  {
    m + (x - m) / k
  }

  lemma DistributesOver(n: real, m: real, d: real, e: real)
    ensures n * m + (m + d) == (n + 1.0) * (m + e) <==> (n + 1.0) * e == d
  {
    assert (n + 1.0) * (m + e) == (n + 1.0) * m + (n + 1.0) * e;
    assert (n + 1.0) * m == n * m + m;
  }

  lemma Cancels(e: real, k: real, l: real)
    ensures e * k == l * e <==> e == 0.0 || k == l
  {
    if e != 0.0 && e * k == l * e {
      assert k == e * k / e;
      assert l == l * e / e;
    }
  }

  lemma Quotient(d: real, k: real)
    requires k > 0.0
    ensures d / k * k == d
    ensures d / k == 0.0 <==> d == 0.0
  {
  }

  /** Dividing by `k` gives the mean of `n + 1` samples exactly if `k` is `n + 1`. */
  lemma MeanIff(t: real, n: real, m: real, x: real, k: real)
    requires k > 0.0 && IsMean(t, n, m)
    ensures IsMean(t + x, n + 1.0, NextMean(m, x, k)) <==> x == m || k == n + 1.0
  {
    var d := x - m;
    var e := d / k;
    MeanMoves(t, n, m, d, e);
    assert m + d == x && NextMean(m, x, k) == m + e;
    hide IsMean, NextMean;
    Quotient(d, k);
    Cancels(e, k, n + 1.0);
  }

  /** Adding a sample `d` off the mean and moving the mean by `e`. */
  lemma MeanMoves(t: real, n: real, m: real, d: real, e: real)
    requires IsMean(t, n, m)
    ensures IsMean(t + (m + d), n + 1.0, m + e) <==> (n + 1.0) * e == d
  {
    DistributesOver(n, m, d, e);
  }

  // ---- What the client reports ---------------------------------------------------------------

  /** The statistics are the two-pass ones of the samples `xs`. */
  ghost predicate Exact(s: Stats, xs: seq<nat>) {
    && s.total == Sum(xs)
    && IsMean(Sum(xs) as real, |xs| as real, s.mean)
    && s.m2 == Squares(xs, s.mean)
  }

  lemma SumGrows(xs: seq<nat>, x: nat)
    ensures Sum(xs + [x]) == Sum(xs) + x
  {
    assert (xs + [x])[..|xs|] == xs;
  }

  lemma UpdateIs(s: Stats, x: nat, correct: bool, k: nat)
    requires k > 0
    ensures var s' := Iterate(s, Done(x, correct), k);
            && s'.total == s.total + x
            && s'.mean == NextMean(s.mean, x as real, k as real)
            && s'.m2 == s.m2 + Gain(x as real, s.mean, s'.mean)
  {
  }

  /**
    From exact statistics, a sample keeps them exact if and only if the iteration number is
    the number of samples, or the sample happens to equal the mean. A failed ioctl makes the
    two numbers differ from then on.
  */
  lemma ExactIff(s: Stats, xs: seq<nat>, x: nat, correct: bool, k: nat)
    requires Exact(s, xs) && k > 0
    ensures Exact(Iterate(s, Done(x, correct), k), xs + [x]) <==>
            k == |xs| + 1 || x as real == s.mean
  {
    hide Iterate, Sum, Squares, Gain, IsMean, NextMean;
    var s' := Iterate(s, Done(x, correct), k);
    SumGrows(xs, x);
    MeanIff(Sum(xs) as real, |xs| as real, s.mean, x as real, k as real);
    UpdateIs(s, x, correct, k);
    if k == |xs| + 1 || x as real == s.mean {
      SquaresGrow(xs, x, s.mean, s'.mean);
    }
  }

  predicate AllDone(os: seq<Outcome>) {
    forall i | 0 <= i < |os| :: os[i].Done?
  }

  /**
    If no ioctl fails, the mean is the sum over the number, the squares are the ones around
    that mean, and the other figures are what their names say.
  */
  lemma {:induction false} OnlineIsTwoPass(os: seq<Outcome>)
    requires AllDone(os)
    ensures |Latencies(os)| == |os|
    ensures Exact(After(os), Latencies(os))
    ensures After(os).success + After(os).error == |os|
  {
    if os != [] {
      var front, o := os[..|os| - 1], os[|os| - 1];
      OnlineIsTwoPass(front);
      hide Exact, Sampled;
      ExactIff(After(front), Latencies(front), o.latency, o.correct, |os|);
    }
  }

  /** The loop has a sample for every iteration if and only if no ioctl has failed. */
  lemma {:induction false} OneSampleEach(os: seq<Outcome>)
    ensures |Latencies(os)| <= |os|
    ensures |Latencies(os)| == |os| <==> AllDone(os)
  {
    if os != [] {
      OneSampleEach(os[..|os| - 1]);
    }
  }

  ghost predicate ExactAfter(os: seq<Outcome>) {
    Exact(After(os), Latencies(os))
  }

  /** The outcome is a sample after a failed call, and off the mean so far. */
  ghost predicate Shifts(before: seq<Outcome>, o: Outcome) {
    o.Done? && !AllDone(before) && o.latency as real != After(before).mean
  }

  lemma LastExactIff(front: seq<Outcome>, o: Outcome)
    requires ExactAfter(front)
    ensures ExactAfter(front + [o]) <==> !Shifts(front, o)
  {
    var os := front + [o];
    assert os[..|os| - 1] == front;
    OneSampleEach(front);
    assert After(os) == Iterate(After(front), o, |os|);
    assert Latencies(os) == if o.Done? then Latencies(front) + [o.latency] else Latencies(front);
    hide Exact, Sampled, AllDone, After, Latencies;
    if o.Done? {
      ExactIff(After(front), Latencies(front), o.latency, o.correct, |os|);
    }
  }

  ghost predicate AlwaysExact(os: seq<Outcome>) {
    forall k: nat | k <= |os| :: ExactAfter(os[..k])
  }

  ghost predicate NeverShifts(os: seq<Outcome>) {
    forall k: nat | k < |os| :: !Shifts(os[..k], os[k])
  }

  lemma OneMore(front: seq<Outcome>, o: Outcome)
    ensures AlwaysExact(front + [o]) <==> AlwaysExact(front) && ExactAfter(front + [o])
    ensures NeverShifts(front + [o]) <==> NeverShifts(front) && !Shifts(front, o)
    ensures AlwaysExact(front) ==> ExactAfter(front)
  {
    hide ExactAfter, Shifts;
    var os := front + [o];
    assert forall k: nat | k <= |front| :: os[..k] == front[..k];
    assert os[..|os|] == os && front[..|front|] == front;
  }

  /**
    Over a whole run: the statistics are the two-pass ones after every iteration if and only
    if every sample taken after a failed call equals the mean at that moment.
  */
  lemma {:induction false} AlwaysExactIff(os: seq<Outcome>)
    ensures AlwaysExact(os) <==> NeverShifts(os)
  {
    if os == [] {
      assert os[..0] == [];
      assert ExactAfter([]);
    } else {
      hide ExactAfter, Shifts, AlwaysExact, NeverShifts;
      var front, o := os[..|os| - 1], os[|os| - 1];
      AlwaysExactIff(front);
      assert os == front + [o];
      OneMore(front, o);
      if AlwaysExact(front) {
        LastExactIff(front, o);
      }
    }
  }

  /** The reported mean and squares are those of the two-pass definitions. */
  lemma ReportIsTwoPass(os: seq<Outcome>)
    requires os != [] && AllDone(os)
    ensures After(os).mean == Sum(Latencies(os)) as real / |os| as real
    ensures After(os).m2 == Squares(Latencies(os), After(os).mean)
  {
    OnlineIsTwoPass(os);
    hide After, Latencies, Sum, Squares;
    MeanFromProduct(Sum(Latencies(os)) as real, |os| as real, After(os).mean);
  }

  /**
    The square of the standard deviation that a thread reports after its loop. With no failed
    call it is the sample variance; after failed calls, or a clock that ended the loop early, the
    divisor still counts every iteration asked for.
  */
  method ReportVariance(ctx: ThreadContext, ghost os: seq<Outcome>) returns (v: real)
    requires |os| <= ctx.iterations && ctx.m2 == After(os).m2
    ensures ctx.iterations < 2 ==> v == 0.0
    ensures ctx.iterations >= 2 ==> v * (ctx.iterations - 1) as real == After(os).m2
    ensures ctx.iterations >= 2 && |os| == ctx.iterations && AllDone(os) ==>
              v * (|os| - 1) as real == Squares(Latencies(os), After(os).mean)
  {
    hide After, Latencies, Squares, AllDone;
    if |os| == ctx.iterations && AllDone(os) && ctx.iterations >= 2 {
      ReportIsTwoPass(os);
    }
    if ctx.iterations < 2 {
      v := 0.0;
    } else {
      var n := (ctx.iterations - 1) as real;
      v := ctx.m2 / n;
      Quotient(ctx.m2, n);
    }
  }

  lemma MeanFromProduct(s: real, n: real, m: real)
    requires n > 0.0 && IsMean(s, n, m)
    ensures s / n == m
  {
  }

  lemma ExtremesUpdate(s: Stats, o: Outcome, k: nat)
    requires k > 0
    ensures var s' := Iterate(s, o, k);
            && s'.min == (if o.Done? && o.latency < s.min then o.latency else s.min)
            && s'.max == (if o.Done? && o.latency > s.max then o.latency else s.max)
  {
  }

  ghost predicate Bounds(min: nat, max: nat, xs: seq<nat>) {
    && (forall i | 0 <= i < |xs| :: min <= xs[i] <= max)
    && (min == ULLONG_MAX || min in xs)
    && (max == 0 || max in xs)
  }

  /** The extremes bound every sample, whatever fails, and are reached. */
  lemma {:induction false} ExtremesOfSamples(os: seq<Outcome>)
    ensures Bounds(After(os).min, After(os).max, Latencies(os))
  {
    if os != [] {
      var front, o := os[..|os| - 1], os[|os| - 1];
      ExtremesOfSamples(front);
      ExtremesUpdate(After(front), o, |os|);
      hide Iterate;
      assert Latencies(os) == Latencies(front) + if o.Done? then [o.latency] else [];
    }
  }

  /** How many of the iterations ended so. */
  function Number(os: seq<Outcome>, correct: bool): nat {
    if os == [] then 0
    else
      Number(os[..|os| - 1], correct) + if os[|os| - 1].Done? && os[|os| - 1].correct == correct then 1 else 0
  }

  /** The counters tell right results from wrong ones, and leave out failed calls. */
  lemma {:induction false} CountersAreExact(os: seq<Outcome>, end: End)
    ensures After(os).success == Number(os, true) && After(os).error == Number(os, false)
    ensures Number(os, true) + Number(os, false) == |Latencies(os)|
    ensures var s, after := Ended(After(os), end), end.ClockFailsAfter?;
      && s.success == Number(os, true) + (if after && end.correct then 1 else 0)
      && s.error == Number(os, false) + (if after && !end.correct then 1 else 0)
  {
    if os != [] {
      CountersAreExact(os[..|os| - 1], end);
      CountersUpdate(After(os[..|os| - 1]), os[|os| - 1], |os|);
      hide Iterate;
    }
  }

  lemma CountersUpdate(s: Stats, o: Outcome, k: nat)
    requires k > 0
    ensures var s' := Iterate(s, o, k);
      && s'.success == s.success + (if o.Done? && o.correct then 1 else 0)
      && s'.error == s.error + (if o.Done? && !o.correct then 1 else 0)
  {
  }

  /** A failure that shifts the mean: after a lost first iteration, 10 counts for 5. */
  lemma FailureShiftsMean()
    ensures var os := [Failed, Done(10, true)];
            Latencies(os) == [10] && After(os).mean == 5.0 && Sum([10]) == 10
  {
    var os := [Failed, Done(10, true)];
    assert os[..1] == [Failed] && [Failed][..0] == [];
    assert After([Failed]) == FirstStats();
    assert Latencies([Failed]) == [];
    assert [10][..0] == [] && Sum([10]) == 10;
  }

  // ---- Latency of one call ----------------------------------------------------------------

  /** Microseconds from the differences of the two halves of a `timespec`. */
  function LatencyUs(seconds: int, nanoSeconds: int): int {
    seconds * 1000000 + TruncDiv(nanoSeconds, 1000)
  }

  /**
    The result is the elapsed time rounded down, except that it is one microsecond more when
    the nanoseconds went back by an amount that is not a whole number of microseconds.
  */
  lemma LatencyRounds(seconds: int, nanoSeconds: int)
    ensures LatencyUs(seconds, nanoSeconds) ==
            (seconds * 1000000000 + nanoSeconds) / 1000 +
            if nanoSeconds < 0 && nanoSeconds % 1000 != 0 then 1 else 0
  {
    var q, r := nanoSeconds / 1000, nanoSeconds % 1000;
    assert nanoSeconds == q * 1000 + r;
    assert (seconds * 1000000000 + nanoSeconds) / 1000 == seconds * 1000000 + q;
  }
}
