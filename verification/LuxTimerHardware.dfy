/**
  Function 1 of the Lux device: a 64-bit nanosecond counter that follows the clock of the
  host while it is enabled, with a comparator that raises an interrupt and can reload itself.
*/
module LuxTimerHardware {
  import opened LuxTimerPass
  import opened LuxTimerQueue
  import opened LuxTimerUsers
  import opened LuxTimerWork

  const HWIRQ_TIMER := 0
  const HWIRQ_COUNT := 3

  datatype Timer = Timer(irqStatus: set<nat>, irqMask: set<nat>, ctrl: Bits,
                         val: nat, cmp: nat, lastTick: nat, lastDelta: nat)

  /** Whether a tick at host time `now` raises the interrupt. */
  predicate Fires(t: Timer, now: nat) {
    t.ctrl.timer && t.ctrl.irq && (t.val + (now - t.lastTick) % U64) % U64 >= t.cmp
  }

  function Ticked(t: Timer, now: nat): Timer {
    if !t.ctrl.timer then t
    else
      var u := t.(val := (t.val + (now - t.lastTick) % U64) % U64, lastTick := now);
      if !Fires(t, now) then u
      else if t.ctrl.reload then
        u.(irqStatus := u.irqStatus + {HWIRQ_TIMER}, cmp := (t.cmp + t.lastDelta) % U64)
      else u.(irqStatus := u.irqStatus + {HWIRQ_TIMER}, ctrl := t.ctrl.(irq := false))
  }

  /** Writes to the registers of function 1. */
  datatype Write =
    | Mask(lines: set<nat>)
    | Ack(lines: set<nat>)
    | Ctrl(bits: Bits)
    | Cmp(cmp: nat)

  function Written(t: Timer, w: Write): Timer {
    match w
    case Mask(lines) => t.(irqMask := lines)
    case Ack(lines) => t.(irqStatus := t.irqStatus - lines)
    case Ctrl(bits) => t.(ctrl := bits)
    case Cmp(cmp) => t.(cmp := cmp, lastDelta := (cmp - t.val) % U64)
  }

  /** The lines pending and not masked, among the first `n`. */
  function RaisedBelow(t: Timer, n: nat): set<nat> {
    set i: nat | i < n && i in t.irqStatus && i !in t.irqMask
  }

  function Raised(t: Timer): set<nat> {
    RaisedBelow(t, HWIRQ_COUNT)
  }

  lemma RaisedNext(t: Timer, n: nat)
    ensures |RaisedBelow(t, n + 1)| == |RaisedBelow(t, n)| + if n in t.irqStatus - t.irqMask then 1 else 0
  {
    if n in t.irqStatus - t.irqMask {
      assert RaisedBelow(t, n + 1) == RaisedBelow(t, n) + {n};
    } else {
      assert RaisedBelow(t, n + 1) == RaisedBelow(t, n);
    }
  }

  class TimerDevice {
    var irqStatus: set<nat>
    var irqMask: set<nat>
    var ctrl: Bits
    var timerVal: nat
    var timerCmp: nat
    var lastTickNs: nat
    var lastDeltaNs: nat

    ghost function Value(): Timer
      reads this
    {
      Timer(irqStatus, irqMask, ctrl, timerVal, timerCmp, lastTickNs, lastDeltaNs)
    }

    constructor (now: nat)
      ensures Value() == Timer({}, {}, NO_BITS, 0, 0, now, 0)
    {
      irqStatus, irqMask, ctrl := {}, {}, NO_BITS;
      timerVal, timerCmp, lastTickNs, lastDeltaNs := 0, 0, now, 0;
    }

    method Tick(now: nat)
      modifies this
      ensures Value() == Ticked(old(Value()), now)
      ensures irqStatus == if Fires(old(Value()), now) then old(irqStatus) + {0} else old(irqStatus)
    {
      if !ctrl.timer {
        return;
      }
      var elapsed := (now - lastTickNs) % U64;
      lastTickNs := now;
      timerVal := (timerVal + elapsed) % U64;
      if ctrl.irq && timerVal >= timerCmp {
        irqStatus := irqStatus + {HWIRQ_TIMER};
        if ctrl.reload {
          timerCmp := (timerCmp + lastDeltaNs) % U64;
        } else {
          ctrl := ctrl.(irq := false);
        }
      }
    }

    /** `device_irq_tick`: one trigger of the parent's pin for each line pending and not masked. */
    method IrqTick() returns (triggers: nat)
      ensures triggers == |Raised(Value())|
    {
      triggers := 0;
      for i := 0 to HWIRQ_COUNT
        invariant triggers == |RaisedBelow(Value(), i)|
      {
        RaisedNext(Value(), i);
        if i in irqStatus - irqMask {
          triggers := triggers + 1;
        }
      }
    }

    method WriteRegister(w: Write)
      modifies this
      ensures Value() == Written(old(Value()), w)
    {
      match w
      case Mask(lines) => irqMask := lines;
      case Ack(lines) => irqStatus := irqStatus - lines;
      case Ctrl(bits) => ctrl := bits;
      case Cmp(cmp) =>
        timerCmp := cmp;
        lastDeltaNs := (cmp - timerVal) % U64;
    }
  }

  // ---- The counter follows the host --------------------------------------------------------

  datatype Event = Tick(now: nat) | Access(write: Write)

  function After(t: Timer, events: seq<Event>): Timer {
    if events == [] then t
    else
      var u := After(t, events[..|events| - 1]);
      match events[|events| - 1]
      case Tick(now) => Ticked(u, now)
      case Access(w) => Written(u, w)
  }

  /** The counter's distance from the host clock. */
  function Offset(t: Timer): nat {
    (t.val - t.lastTick) % U64
  }

  /**
    The distance never changes: disabling the timer does not stop the clock, it only puts
    off the reading, and nothing a driver writes can shift it.
  */
  lemma {:induction false} OffsetIsConstant(t: Timer, events: seq<Event>)
    ensures Offset(After(t, events)) == Offset(t)
  {
    if events != [] {
      var front := events[..|events| - 1];
      OffsetIsConstant(t, front);
      var u := After(t, front);
      match events[|events| - 1]
      case Tick(now) => OffsetKept(u.val, u.lastTick, now);
      case Access(_) =>
    }
  }

  lemma OffsetKept(val: nat, last: nat, now: nat)
    ensures ((val + (now - last) % U64) % U64 - now) % U64 == (val - last) % U64
  {
    var e := (now - last) % U64;
    var v := (val + e) % U64;
    assert now - last == (now - last) / U64 * U64 + e;
    assert val + e == (val + e) / U64 * U64 + v;
    SameResidue(v - now, val - last, -((now - last) / U64) - (val + e) / U64);
  }

  // ---- Lines, mask and control over whole runs ---------------------------------------------

  /** Event `k` is a tick that fires. */
  predicate FiresAt(t: Timer, events: seq<Event>, k: nat)
    requires k < |events|
  {
    events[k].Tick? && Fires(After(t, events[..k]), events[k].now)
  }

  /** Event `k` acknowledges line 0, the timer's. */
  predicate AcksAt(events: seq<Event>, k: nat)
    requires k < |events|
  {
    events[k].Access? && events[k].write.Ack? && 0 in events[k].write.lines
  }

  /** Nobody has acknowledged it from event `from` on. */
  ghost predicate NoAck(events: seq<Event>, from: nat) {
    forall j: nat | from <= j < |events| :: !AcksAt(events, j)
  }

  ghost predicate FiredSinceAck(t: Timer, events: seq<Event>) {
    exists k: nat :: k < |events| && FiresAt(t, events, k) && NoAck(events, k + 1)
  }

  /** A tick that fires adds the timer's line, an acknowledgement takes the lines it names, and nothing else changes them. */
  lemma LinesAfterEvent(t: Timer, e: Event, line: nat)
    ensures line in After(t, [e]).irqStatus <==>
            || (line in t.irqStatus && !(e.Access? && e.write.Ack? && line in e.write.lines))
            || (line == 0 && e.Tick? && Fires(t, e.now))
  {
    assert [e][..0] == [];
    assert After(t, []) == t;
  }

  lemma PendingAfterEvent(t: Timer, events: seq<Event>)
    requires events != []
    ensures var n := |events| - 1;
      0 in After(t, events).irqStatus <==>
      (0 in After(t, events[..n]).irqStatus && !AcksAt(events, n)) || FiresAt(t, events, n)
  {
  }

  lemma NoAckFront(events: seq<Event>, from: nat)
    requires from < |events|
    ensures var n := |events| - 1; NoAck(events, from) <==> NoAck(events[..n], from) && !AcksAt(events, n)
  {
    var front := events[..|events| - 1];
    assert forall j: nat | j < |front| :: AcksAt(events, j) <==> AcksAt(front, j);
  }

  lemma FiredFront(t: Timer, events: seq<Event>)
    requires events != []
    ensures var n := |events| - 1;
      FiredSinceAck(t, events) <==> FiresAt(t, events, n) || (FiredSinceAck(t, events[..n]) && !AcksAt(events, n))
  {
    var n, front := |events| - 1, events[..|events| - 1];
    forall k: nat | k < n
      ensures FiresAt(t, events, k) <==> FiresAt(t, front, k)
      ensures NoAck(events, k + 1) <==> NoAck(front, k + 1) && !AcksAt(events, n)
    {
      assert events[..k] == front[..k];
      NoAckFront(events, k + 1);
    }
    assert NoAck(events, n + 1);
    hide FiresAt, NoAck, AcksAt;
    if k: nat :| k < |front| && FiresAt(t, front, k) && NoAck(front, k + 1) {
      assert !AcksAt(events, n) ==> FiresAt(t, events, k) && NoAck(events, k + 1);
    }
  }

  /**
    The timer's line is pending if and only if it was at the start and nobody has acknowledged
    it, or a tick has fired since it was last acknowledged.
  */
  lemma {:induction false} PendingIff(t: Timer, events: seq<Event>)
    ensures 0 in After(t, events).irqStatus <==>
            (0 in t.irqStatus && NoAck(events, 0)) || FiredSinceAck(t, events)
    decreases |events|
  {
    if events != [] {
      PendingIff(t, events[..|events| - 1]);
      hide After, FiresAt, AcksAt, NoAck, FiredSinceAck;
      PendingAfterEvent(t, events);
      NoAckFront(events, 0);
      FiredFront(t, events);
    }
  }

  /** The registers have 64 bits. */
  predicate Fits64(t: Timer) {
    t.val < U64 && t.cmp < U64 && t.lastDelta < U64
  }

  /** They keep to that over any ticks and writes of 64-bit numbers. */
  lemma {:induction false} RegistersFit(t: Timer, events: seq<Event>)
    requires Fits64(t)
    requires forall k: nat | k < |events| :: events[k].Access? && events[k].write.Cmp? ==> events[k].write.cmp < U64
    ensures Fits64(After(t, events))
  {
    if events != [] {
      RegistersFit(t, events[..|events| - 1]);
    }
  }

  /** Event `k` is the last write to the mask. */
  ghost predicate LastMask(events: seq<Event>, k: nat) {
    && k < |events| && events[k].Access? && events[k].write.Mask?
    && forall j: nat | k < j < |events| :: !(events[j].Access? && events[j].write.Mask?)
  }

  /** The mask is what was last written to it, whatever is acknowledged or fires. */
  lemma {:induction false} MaskIsLast(t: Timer, events: seq<Event>, k: nat)
    requires LastMask(events, k)
    ensures After(t, events).irqMask == events[k].write.lines
    decreases |events|
  {
    var n := |events| - 1;
    if k < n {
      MaskIsLast(t, events[..n], k);
      assert !(events[n].Access? && events[n].write.Mask?);
    }
  }

  /** Event `k` is the last write to the control register. */
  ghost predicate LastCtrl(events: seq<Event>, k: nat) {
    && k < |events| && events[k].Access? && events[k].write.Ctrl?
    && forall j: nat | k < j < |events| :: !(events[j].Access? && events[j].write.Ctrl?)
  }

  ghost predicate FiredSince(t: Timer, events: seq<Event>, k: nat) {
    exists j: nat :: k < j < |events| && FiresAt(t, events, j)
  }

  /**
    The control register is what was last written to it, but for the interrupt bit, which a
    tick that fires without reload takes away.
  */
  lemma {:induction false} CtrlIsLast(t: Timer, events: seq<Event>, k: nat)
    requires LastCtrl(events, k)
    ensures var c, b := After(t, events).ctrl, events[k].write.bits;
      && c.timer == b.timer && c.reload == b.reload
      && (c.irq <==> b.irq && (b.reload || !FiredSince(t, events, k)))
    decreases |events|
  {
    var n, front := |events| - 1, events[..|events| - 1];
    if k < n {
      CtrlIsLast(t, front, k);
      assert !(events[n].Access? && events[n].write.Ctrl?);
      assert forall j: nat | j < n :: events[..j] == front[..j] && events[j] == front[j];
      assert forall j: nat | j < n :: FiresAt(t, events, j) <==> FiresAt(t, front, j);
      assert FiredSince(t, events, k) <==> FiredSince(t, front, k) || FiresAt(t, events, n);
    }
  }

  /**
    From a deadline to the parent's pin: a tick that fires raises it, unless the timer's line
    is masked; it stays raised until line 0 is acknowledged or masked.
  */
  lemma FiringRaises(t: Timer, now: nat)
    requires Fires(t, now)
    ensures 0 in Raised(Ticked(t, now)) <==> 0 !in t.irqMask
    ensures 0 !in Raised(Written(Ticked(t, now), Ack({0})))
    ensures 0 !in Raised(Written(Ticked(t, now), Mask({0})))
  {
  }

  // ---- Runs of ticks with nothing reprogrammed ---------------------------------------------

  function Ticks(t: Timer, nows: seq<nat>): Timer {
    if nows == [] then t else Ticked(Ticks(t, nows[..|nows| - 1]), nows[|nows| - 1])
  }

  /** The number of ticks that raised the interrupt. */
  function Interrupts(t: Timer, nows: seq<nat>): nat {
    if nows == [] then 0
    else
      var front := nows[..|nows| - 1];
      Interrupts(t, front) + if Fires(Ticks(t, front), nows[|nows| - 1]) then 1 else 0
  }

  /** Host times in order from `from` on, none after `end`. */
  predicate InOrder(from: nat, nows: seq<nat>, end: nat) {
    if nows == [] then from <= end
    else
      var front, now := nows[..|nows| - 1], nows[|nows| - 1];
      InOrder(from, front, end) && Last(from, front) <= now <= end
  }

  function Last(from: nat, nows: seq<nat>): nat {
    if nows == [] then from else nows[|nows| - 1]
  }

  /** Enabled, and too young for a register to wrap before host time `end`. */
  predicate Running(t: Timer, end: nat) {
    && t.ctrl.timer && t.lastTick <= end
    && t.val + (end - t.lastTick) + t.lastDelta < U64
  }

  lemma TickPlain(t: Timer, now: nat, end: nat)
    requires Running(t, end) && t.lastTick <= now <= end
    ensures var t' := Ticked(t, now);
            && Running(t', end) && t'.lastTick == now && t'.lastDelta == t.lastDelta
            && t'.val == t.val + (now - t.lastTick)
            && (Fires(t, now) <==> t.ctrl.irq && t'.val >= t.cmp)
            && t'.ctrl.reload == t.ctrl.reload
            && t'.cmp == (if Fires(t, now) && t.ctrl.reload then t.cmp + t.lastDelta else t.cmp)
            && t'.ctrl.irq == (t.ctrl.irq && (t.ctrl.reload || !Fires(t, now)))
  {
  }

  /** `cmp0 + k * delta`. */
  function Deadline(t: Timer, k: nat): nat {
    t.cmp + k * t.lastDelta
  }

  lemma NextDeadline(t: Timer, k: nat)
    ensures Deadline(t, 0) == t.cmp
    ensures Deadline(t, k + 1) == Deadline(t, k) + t.lastDelta
  {
    assert (k + 1) * t.lastDelta == k * t.lastDelta + t.lastDelta;
  }

  /**
    In reload mode the comparator stands at `cmp0 + k * delta` after `k` interrupts, without
    drift, and no interrupt comes early: the last one was due.
  */
  lemma {:induction false} ReloadDoesNotDrift(t: Timer, nows: seq<nat>, end: nat)
    requires Running(t, end) && t.ctrl.irq && t.ctrl.reload && InOrder(t.lastTick, nows, end)
    ensures var t', k := Ticks(t, nows), Interrupts(t, nows);
            && Running(t', end) && t'.ctrl == t.ctrl && t'.lastDelta == t.lastDelta
            && t'.lastTick == Last(t.lastTick, nows)
            && t'.val == t.val + (t'.lastTick - t.lastTick)
            && t'.cmp == Deadline(t, k)
            && (k > 0 ==> Deadline(t, k - 1) <= t'.val)
  {
    if nows != [] {
      var front, now := nows[..|nows| - 1], nows[|nows| - 1];
      ReloadDoesNotDrift(t, front, end);
      TickPlain(Ticks(t, front), now, end);
      hide Ticked, Fires, Deadline;
      NextDeadline(t, Interrupts(t, front));
    } else {
      NextDeadline(t, 0);
    }
  }

  /** Successive ticks are at most `d` apart. */
  predicate Dense(from: nat, nows: seq<nat>, d: nat) {
    nows == [] || (Dense(from, nows[..|nows| - 1], d)
                   && nows[|nows| - 1] <= Last(from, nows[..|nows| - 1]) + d)
  }

  /**
    When ticks are at most one period apart, no interrupt is ever overdue: after every tick
    their number is floor((val - cmp0) / delta) + 1, or 0 while cmp0 is still ahead.
  */
  lemma {:induction false} ReloadKeepsUp(t: Timer, nows: seq<nat>, end: nat)
    requires Running(t, end) && t.ctrl.irq && t.ctrl.reload && InOrder(t.lastTick, nows, end)
    requires t.lastDelta > 0 && t.val < t.cmp && Dense(t.lastTick, nows, t.lastDelta)
    ensures Ticks(t, nows).val < Ticks(t, nows).cmp
    ensures Interrupts(t, nows) == Behind(t.cmp, t.lastDelta, Ticks(t, nows).val)
  {
    ReloadDoesNotDrift(t, nows, end);
    var t', k := Ticks(t, nows), Interrupts(t, nows);
    if nows != [] {
      var front, now := nows[..|nows| - 1], nows[|nows| - 1];
      ReloadKeepsUp(t, front, end);
      ReloadDoesNotDrift(t, front, end);
      TickPlain(Ticks(t, front), now, end);
    }
    hide Ticks, Interrupts, Behind;
    BehindIs(t.cmp, t.lastDelta, t'.val, k);
  }

  /** `Behind` is the only count that puts the next deadline ahead and the last one behind. */
  lemma BehindIs(phys: nat, delta: nat, now: nat, k: nat)
    requires delta > 0 && now < phys + k * delta
    requires k > 0 ==> phys + (k - 1) * delta <= now
    ensures Behind(phys, delta, now) == k
    decreases k
  {
    if k > 0 {
      assert (k - 1) * delta >= 0;
      assert k * delta == (k - 1) * delta + delta;
      if k > 1 {
        assert (k - 1) * delta == (k - 2) * delta + delta;
      }
      BehindIs(phys + delta, delta, now, k - 1);
      BehindStep(phys, delta, now);
    }
  }

  /** The counter after the first `k` ticks. */
  function ValAt(t: Timer, nows: seq<nat>, k: nat): int
    requires k <= |nows|
  {
    t.val + (Last(t.lastTick, nows[..k]) - t.lastTick)
  }

  /** How many deadlines it has passed by then. */
  function DueAt(t: Timer, nows: seq<nat>, k: nat): nat
    requires k <= |nows| && t.lastDelta > 0
  {
    if ValAt(t, nows, k) < 0 then 0 else Behind(t.cmp, t.lastDelta, ValAt(t, nows, k))
  }

  /** More than `k` deadlines have passed exactly when the one after the k-th has. */
  lemma BehindAbove(phys: nat, delta: nat, now: nat, k: nat)
    requires delta > 0
    ensures Behind(phys, delta, now) > k <==> phys + k * delta <= now
    decreases k
  {
    if k > 0 && phys <= now {
      BehindStep(phys, delta, now);
      BehindAbove(phys + delta, delta, now, k - 1);
      assert k * delta == (k - 1) * delta + delta;
    } else if k > 0 {
      assert k * delta >= 0;
    }
  }

  lemma TickKeepsUpIff(t: Timer, nows: seq<nat>, end: nat)
    requires nows != []
    requires Running(t, end) && t.ctrl.irq && t.ctrl.reload && InOrder(t.lastTick, nows, end) && t.lastDelta > 0
    requires Interrupts(t, nows[..|nows| - 1]) == DueAt(t, nows, |nows| - 1)
    ensures Interrupts(t, nows) == DueAt(t, nows, |nows|) <==>
            DueAt(t, nows, |nows|) <= DueAt(t, nows, |nows| - 1) + 1
  {
    var front, now := nows[..|nows| - 1], nows[|nows| - 1];
    ReloadDoesNotDrift(t, front, end);
    ReloadDoesNotDrift(t, nows, end);
    TickPlain(Ticks(t, front), now, end);
    assert nows[..|nows|] == nows;
    var due := Interrupts(t, front);
    var val := Ticks(t, nows).val;
    hide Ticks, Running, InOrder, Behind, Fires;
    assert val == ValAt(t, nows, |nows|);
    BehindAbove(t.cmp, t.lastDelta, val, due);
    if due > 0 {
      BehindAbove(t.cmp, t.lastDelta, val, due - 1);
      BehindAbove(t.cmp, t.lastDelta, Ticks(t, front).val, due - 1);
    }
  }

  /**
    Without any assumption on the ticks: the interrupts match the deadlines passed after every
    tick if and only if no tick passes two deadlines at once.
  */
  lemma {:induction false} KeepsUpIff(t: Timer, nows: seq<nat>, end: nat)
    requires Running(t, end) && t.ctrl.irq && t.ctrl.reload && InOrder(t.lastTick, nows, end)
    requires t.lastDelta > 0 && t.val < t.cmp
    ensures (forall k | 0 <= k <= |nows| :: Interrupts(t, nows[..k]) == DueAt(t, nows, k)) <==>
            (forall k: nat | k < |nows| :: DueAt(t, nows, k + 1) <= DueAt(t, nows, k) + 1)
  {
    if nows == [] {
      assert nows[..0] == [];
    } else {
      var front := nows[..|nows| - 1];
      KeepsUpIff(t, front, end);
      assert forall k | 0 <= k < |nows| :: nows[..k] == front[..k];
      assert nows[..|nows|] == nows;
      assert forall k | 0 <= k < |nows| :: DueAt(t, nows, k) == DueAt(t, front, k);
      if Interrupts(t, front) == DueAt(t, nows, |nows| - 1) {
        TickKeepsUpIff(t, nows, end);
      }
      hide Interrupts, Behind, Running;
    }
  }

  /** Programmed by a comparator write ahead of the counter, the timer starts a full period early. */
  lemma CmpWriteStarts(t: Timer, cmp: nat)
    requires t.val < cmp < U64
    ensures var t' := Written(t, Cmp(cmp)); t'.val == t.val < t'.cmp == cmp && t'.lastDelta == cmp - t.val > 0
  {
  }

  /**
    Without reload, which is how the driver runs it, there is one interrupt at most: at the
    first tick that finds the comparator reached.
  */
  lemma {:induction false} OneShot(t: Timer, nows: seq<nat>, end: nat)
    requires Running(t, end) && t.ctrl.irq && !t.ctrl.reload && InOrder(t.lastTick, nows, end)
    ensures var t' := Ticks(t, nows);
            && Running(t', end) && t'.cmp == t.cmp && !t'.ctrl.reload
            && t'.lastTick == Last(t.lastTick, nows)
            && t'.val == t.val + (t'.lastTick - t.lastTick)
            && Interrupts(t, nows) == (if nows != [] && t'.val >= t.cmp then 1 else 0)
            && (t'.ctrl.irq <==> Interrupts(t, nows) == 0)
  {
    if nows != [] {
      var front, now := nows[..|nows| - 1], nows[|nows| - 1];
      OneShot(t, front, end);
      TickPlain(Ticks(t, front), now, end);
      hide Ticked, Fires;
    }
  }
}
