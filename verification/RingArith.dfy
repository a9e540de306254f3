/**
  Arithmetic of the modular rings.  Every ring index kept by the driver and by the
  device is an unbounded counter taken modulo the ring size.  The modulus is written as
  repeated subtraction, and `SlotIsMod` and `NextIsMod` tie it to `%`.
*/
module RingArith {

  /** The slot that the i-th entry ever put in a ring of `n` slots occupies. */
  function Slot(i: nat, n: nat): (s: nat)
    requires n > 0
    ensures s < n
  {
    if i < n then i else Slot(i - n, n)
  }

  /** The slot after `i`. */
  function Next(i: nat, n: nat): (s: nat)
    requires i < n
    ensures s < n
  {
    if i + 1 == n then 0 else i + 1
  }

  /** Number of entries a consumer at `head` meets before it reaches `tail`. */
  function Gap(head: nat, tail: nat, n: nat): (g: nat)
    requires head < n && tail < n
    ensures g < n
    ensures g == 0 <==> head == tail
  {
    if head <= tail then tail - head else tail + n - head
  }

  lemma {:induction false} SlotIsMod(i: nat, n: nat)
    requires n > 0
    ensures Slot(i, n) == i % n
  {
    if i >= n {
      SlotIsMod(i - n, n);
      assert i == n * ((i - n) / n + 1) + (i - n) % n by {
        assert n * ((i - n) / n + 1) == n * ((i - n) / n) + n;
      }
      ModUnique(i, n, (i - n) / n + 1, (i - n) % n);
    } else {
      ModUnique(i, n, 0, i);
    }
  }

  lemma NextIsMod(i: nat, n: nat)
    requires i < n
    ensures Next(i, n) == (i + 1) % n
  {
    if i + 1 == n {
      ModUnique(i + 1, n, 1, 0);
    } else {
      ModUnique(i + 1, n, 0, i + 1);
    }
  }

  lemma {:induction false} SlotSucc(i: nat, n: nat)
    requires n > 0
    ensures Next(Slot(i, n), n) == Slot(i + 1, n)
  {
    if i >= n {
      SlotSucc(i - n, n);
    }
  }

  /** Walking `k` slots on from the i-th entry's slot reaches that of entry `i + k`. */
  lemma {:induction false} SlotAdd(i: nat, k: nat, n: nat)
    requires n > 0
    ensures Slot(Slot(i, n) + k, n) == Slot(i + k, n)
  {
    if i >= n {
      SlotAdd(i - n, k, n);
    }
  }

  /** Fewer than `n` apart, two counters share a slot only when they are equal. */
  lemma {:induction false} SlotInjective(i: nat, j: nat, n: nat)
    requires n > 0
    requires i <= j < i + n
    requires Slot(i, n) == Slot(j, n)
    ensures i == j
  {
    if i >= n {
      SlotInjective(i - n, j - n, n);
    }
  }

  /** The distance between two slots is the distance between their counters. */
  lemma {:induction false} GapOfCounters(h: nat, t: nat, n: nat)
    requires n > 0
    requires h <= t < h + n
    ensures Gap(Slot(h, n), Slot(t, n), n) == t - h
  {
    if h >= n {
      GapOfCounters(h - n, t - n, n);
    }
  }

  /** Stepping on from a slot below the tail brings the consumer one entry closer. */
  lemma GapNext(head: nat, tail: nat, n: nat)
    requires head < n && tail < n && head != tail
    ensures Gap(Next(head, n), tail, n) == Gap(head, tail, n) - 1
  {
  }

  lemma ModUnique(x: int, n: nat, q: int, r: nat)
    requires n > 0 && r < n && x == n * q + r
    ensures x % n == r && x / n == q
  {
    var q', r' := x / n, x % n;
    assert n * (q - q') == r' - r by {
      assert x == n * q' + r';
      assert n * q - n * q' == n * (q - q');
    }
    if q != q' {
      MulNonZero(n, q - q');
    }
  }

  lemma MulNonZero(n: nat, d: int)
    requires d != 0
    ensures n * d >= n || n * d + n <= 0
  {
    if d > 0 {
      MulMonotone(n, 1, d);
    } else {
      MulMonotone(n, d, -1);
    }
  }

  lemma MulMonotone(n: nat, a: int, b: int)
    requires a <= b
    ensures n * a <= n * b
  {
  }
}
