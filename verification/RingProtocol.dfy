/**
  The ring protocol over whole runs: any interleaving of submissions, doorbells (any of
  which may hit a DMA fault at any point), drains and error recoveries.  History fields
  record, since the last recovery, every command submitted and every completion written;
  the ring indices are proved to be counters into those histories.
*/
module RingProtocol {
  import opened RingArith
  import opened MathOps
  import opened MathHardware
  import opened MathRings

  /**
    `submitted` and `written` are the commands put in the submission ring and the
    completions put in the completion ring.  `read`, `rung`, `known` and `drained` count
    the commands the device has taken, the commands covered by a doorbell, the commands
    the driver knows were taken, and the completions the driver has taken.  Between the
    two halves of a drain `publishing` is set and `head` is the loop's final head.
  */
  datatype Sys = Sys(
    link: Link, dma: Dma,
    submitted: seq<SqEntry>, written: seq<CqEntry>,
    read: nat, rung: nat, known: nat, drained: nat,
    publishing: bool, head: nat)

  /** The size of both rings. */
  function Size(s: Sys): nat {
    s.link.drv.size
  }

  // ---- The invariant -----------------------------------------------------------------

  predicate Shape(s: Sys) {
    && 0 < Size(s) < 0x1_0000
    && |s.link.hw.sq| == |s.link.hw.cq| == Size(s) == s.link.hw.ring.size
    && DmaOk(s.dma)
    && JobRuns(s.link.hw.regs) && s.link.hw.regs.intEnabled
  }

  /** How far each party may be ahead of the others. */
  predicate Counters(s: Sys) {
    && s.drained <= |s.written| <= s.read <= s.rung <= |s.submitted|
    && s.drained <= s.known <= s.read <= |s.written| + 1
    && |s.submitted| < s.known + Size(s)
    && |s.written| < s.drained + Size(s)
  }

  /** Every index is its counter modulo the ring size. */
  predicate Indices(s: Sys)
    requires Shape(s)
  {
    var n := Size(s);
    && s.link.drv.sqTail == Slot(|s.submitted|, n)
    && s.link.drv.sqHead == Slot(s.known, n)
    && s.link.hw.ring.sqTail == Slot(s.rung, n)
    && s.link.hw.ring.sqHead == Slot(s.read, n)
    && s.link.hw.ring.cqTail == Slot(|s.written|, n)
    && (if s.publishing then s.head else s.link.drv.cqHead) == Slot(s.drained, n)
    && s.link.drv.cqHead < n
  }

  /** Outside ERROR the two heads the driver keeps move together, and so do the device's two ends. */
  predicate Aligned(s: Sys) {
    s.read == |s.written| && s.known == s.drained
  }

  /** The memory holds what was submitted and not yet taken, and what was written and not yet drained. */
  predicate Windows(s: Sys)
    requires Shape(s)
  {
    && (forall i: nat | s.read <= i < |s.submitted| :: s.link.hw.sq[Slot(i, Size(s))] == s.submitted[i])
    && (forall i: nat | s.drained <= i < |s.written| :: s.link.hw.cq[Slot(i, Size(s))] == s.written[i])
  }

  /** Completion i answers command i. */
  predicate Answers(s: Sys) {
    |s.written| <= |s.submitted|
    && forall i: nat | i < |s.written| :: s.written[i] == Execute(s.submitted[i])
  }

  predicate RingInv(s: Sys) {
    && Shape(s) && Counters(s) && Indices(s) && Windows(s) && Answers(s)
  }

  predicate Inv(s: Sys) {
    && RingInv(s)
    && match s.link.hw.regs.state
       case Ready => Aligned(s) && s.rung == s.read
       case Error => true
       case _ => false
  }

  // ---- Steps ---------------------------------------------------------------------------

  datatype Step = DoSubmit(c: SqEntry) | DoRing(fault: Fault) | DoDrain | DoPublish | DoRecover

  function SubmitStep(s: Sys, c: SqEntry): Sys
    requires Inv(s)
  {
    if Full(s.link.drv) then s
    else s.(link := Submit(s.link, c), submitted := s.submitted + [c])
  }

  /** The completions the device writes while it takes `k` commands. */
  function AnswersOf(h: Hw, k: nat): (a: seq<CqEntry>)
    requires Bounded(h)
    ensures |a| == k
  {
    if k == 0 then [] else AnswersOf(h, k - 1) + [Answer(ConsumeN(h, k - 1))]
  }

  /** How many commands a job answers, and how many it takes. */
  function AnsweredBy(h: Hw, fault: Fault): nat
    requires Bounded(h)
  {
    if !fault.NoFault? && fault.at < Waiting(h) then fault.at else Waiting(h)
  }

  function TakenBy(h: Hw, fault: Fault): nat
    requires Bounded(h)
  {
    if fault.WriteFault? && fault.at < Waiting(h) then fault.at + 1 else AnsweredBy(h, fault)
  }

  /** The device as the job that a doorbell starts finds it. */
  function JobStart(s: Sys): Hw
    requires Inv(s)
  {
    SetState(WithTail(s.link.hw, s.link.drv.sqTail), Busy)
  }

  lemma JobStartBounded(s: Sys)
    requires Inv(s)
    ensures Bounded(JobStart(s)) && Bounded(WithTail(s.link.hw, s.link.drv.sqTail))
    ensures JobStart(s).ring.sqTail == s.link.drv.sqTail
    ensures LinkOk(s.link) && s.link.hw.ring.cqTail < s.link.drv.size
  {
  }

  function RingStep(s: Sys, fault: Fault): Sys
    requires Inv(s)
  {
    JobStartBounded(s);
    var s' := s.(link := RingDoorbell(s.link, fault), rung := |s.submitted|);
    if s.link.hw.regs.state.Ready? then
      s'.(written := s.written + AnswersOf(JobStart(s), AnsweredBy(JobStart(s), fault)),
          read := s.read + TakenBy(JobStart(s), fault))
    else s'
  }

  /** The completions a drain takes now. */
  function TakenNow(s: Sys): seq<CqEntry>
    requires Inv(s)
  {
    JobStartBounded(s);
    DrainOf(s.link).taken
  }

  function DrainStep(s: Sys): Sys
    requires Inv(s)
  {
    JobStartBounded(s);
    s.(link := Drain(s.link), known := s.read,
       drained := s.drained + |TakenNow(s)|,
       publishing := !Spurious(s.link), head := DrainOf(s.link).head)
  }

  function PublishStep(s: Sys): Sys
    requires Inv(s) && s.publishing
  {
    s.(link := Publish(s.link, s.head), publishing := false)
  }

  function RecoverStep(s: Sys): Sys
    requires Inv(s)
  {
    Sys(Recover(s.link, s.dma), s.dma, [], [], 0, 0, 0, 0, false, 0)
  }

  /** Drains are the kernel thread's alone; recovery is its answer to ERROR, between drains. */
  predicate Enabled(s: Sys, step: Step) {
    match step
    case DoDrain => !s.publishing
    case DoPublish => s.publishing
    case DoRecover => !s.publishing && s.link.hw.regs.state.Error?
    case _ => true
  }

  function Do(s: Sys, step: Step): Sys
    requires Inv(s)
  {
    if !Enabled(s, step) then s else
    match step
    case DoSubmit(c) => SubmitStep(s, c)
    case DoRing(fault) => RingStep(s, fault)
    case DoDrain => DrainStep(s)
    case DoPublish => PublishStep(s)
    case DoRecover => RecoverStep(s)
  }

  // ---- A doorbell --------------------------------------------------------------------

  /** Undrained completions `d` up to `|written|` sit in the slots just below the tail. */
  predicate CqHolds(h: Hw, written: seq<CqEntry>, d: nat)
    requires Bounded(h)
  {
    && |h.cq| == h.ring.size
    && d <= |written|
    && h.ring.cqTail == Slot(|written|, h.ring.size)
    && forall i: nat | d <= i < |written| :: h.cq[Slot(i, h.ring.size)] == written[i]
  }

  /** Commands from the r-th on sit in the slots from the head on. */
  predicate SqHolds(h: Hw, submitted: seq<SqEntry>, r: nat)
    requires Bounded(h)
  {
    && |h.sq| == h.ring.size
    && r <= |submitted| < r + h.ring.size
    && h.ring.sqHead == Slot(r, h.ring.size)
    && h.ring.sqTail == Slot(|submitted|, h.ring.size)
    && forall i: nat | r <= i < |submitted| :: h.sq[Slot(i, h.ring.size)] == submitted[i]
  }

  lemma {:induction false} AnswersAre(h: Hw, k: nat, j: nat)
    requires Bounded(h) && j < k
    ensures AnswersOf(h, k)[j] == Execute(h.sq[SqSlot(h, j)])
  {
    if j == k - 1 {
      ConsumeRegisters(h, j);
    } else {
      AnswersAre(h, k - 1, j);
    }
  }

  /** The job finds every command not yet taken, and takes them in order. */
  lemma TakenInOrder(h: Hw, submitted: seq<SqEntry>, r: nat, j: nat)
    requires Bounded(h) && SqHolds(h, submitted, r)
    requires j < |submitted| - r
    ensures h.sq[SqSlot(h, j)] == submitted[r + j]
  {
    SlotAdd(r, j, h.ring.size);
  }

  lemma AllWaiting(h: Hw, submitted: seq<SqEntry>, r: nat)
    requires Bounded(h) && SqHolds(h, submitted, r)
    ensures Waiting(h) == |submitted| - r
  {
    GapOfCounters(r, |submitted|, h.ring.size);
  }

  /**
    The device never overwrites an undrained completion: while they are fewer than the
    ring holds, the slot its j-th answer goes to belongs to none of the completions the
    driver has yet to take, whether they were there before the job or are its own
    earlier answers.
  */
  lemma AnswerSlotIsFree(h: Hw, written: seq<CqEntry>, d: nat, j: nat, i: nat)
    requires Bounded(h) && CqHolds(h, written, d)
    requires |written| + j < d + h.ring.size
    requires d <= i < |written| + j
    ensures CqSlot(h, j) != Slot(i, h.ring.size)
  {
    SlotAdd(|written|, j, h.ring.size);
    if Slot(i, h.ring.size) == Slot(|written| + j, h.ring.size) {
      SlotInjective(i, |written| + j, h.ring.size);
    }
  }

  lemma OldCompletionStays(h: Hw, written: seq<CqEntry>, d: nat, k: nat, i: nat)
    requires Bounded(h) && CqHolds(h, written, d)
    requires k <= h.ring.size && |written| + k <= d + h.ring.size
    requires d <= i < |written|
    ensures ConsumeN(h, k).cq[Slot(i, h.ring.size)] == written[i]
  {
    ConsumeClosedForm(h, k);
    forall j: nat | j < k
      ensures Slot(i, h.ring.size) != CqSlot(h, j)
    {
      AnswerSlotIsFree(h, written, d, j, i);
    }
    assert Untouched(h, k, Slot(i, h.ring.size));
  }

  lemma NewCompletionLands(h: Hw, written: seq<CqEntry>, k: nat, j: nat)
    requires Bounded(h) && |h.cq| == h.ring.size && h.ring.cqTail == Slot(|written|, h.ring.size)
    requires k <= h.ring.size && j < k
    ensures ConsumeN(h, k).cq[Slot(|written| + j, h.ring.size)] == AnswersOf(h, k)[j]
  {
    assert Slot(|written| + j, h.ring.size) == CqSlot(h, j) by { SlotAdd(|written|, j, h.ring.size); }
    hide Slot, CqSlot, ConsumeN, Execute;
    ConsumeClosedForm(h, k);
    AnswersAre(h, k, j);
  }

  /** After `k` answers the undrained part of the completion ring is the history's. */
  lemma WindowAfterJob(h: Hw, written: seq<CqEntry>, d: nat, k: nat, i: nat)
    requires Bounded(h) && CqHolds(h, written, d)
    requires k <= h.ring.size && |written| + k <= d + h.ring.size
    requires d <= i < |written| + k
    ensures ConsumeN(h, k).cq[Slot(i, h.ring.size)] == (written + AnswersOf(h, k))[i]
  {
    hide Slot, ConsumeN, Execute;
    if i < |written| {
      OldCompletionStays(h, written, d, k, i);
    } else {
      NewCompletionLands(h, written, k, i - |written|);
    }
  }

  /** The completions written so far, with those of the job, answer the commands in order. */
  lemma AnswersAfterJob(h: Hw, submitted: seq<SqEntry>, written: seq<CqEntry>, k: nat, i: nat)
    requires Bounded(h) && SqHolds(h, submitted, |written|)
    requires k <= |submitted| - |written| && i < |written| + k
    requires forall j: nat | j < |written| :: written[j] == Execute(submitted[j])
    ensures (written + AnswersOf(h, k))[i] == Execute(submitted[i])
  {
    if i >= |written| {
      AnswersAre(h, k, i - |written|);
      TakenInOrder(h, submitted, |written|, i - |written|);
    }
  }

  lemma JobStops(h: Hw, fault: Fault)
    requires Bounded(h) && JobRuns(h.regs) && h.regs.intEnabled
    ensures var h', k := JobEffect(h, fault), AnsweredBy(h, fault);
      && h'.sq == h.sq && h'.cq == ConsumeN(h, k).cq
      && h'.ring == (if fault.WriteFault? && fault.at < Waiting(h) then ReadOne(ConsumeN(h, k)) else ConsumeN(h, k)).ring
      && JobRuns(h'.regs) && h'.regs.intEnabled
      && h'.regs.state == if !fault.NoFault? && fault.at < Waiting(h) then Error else Ready
  {
    hide ConsumeN, Execute, Slot;
  }

  /** Where a job leaves the ring registers and the memory. */
  lemma JobLeaves(h: Hw, fault: Fault)
    requires Bounded(h) && JobRuns(h.regs) && h.regs.intEnabled
    ensures var h', k := JobEffect(h, fault), AnsweredBy(h, fault);
      && h'.sq == h.sq && h'.cq == ConsumeN(h, k).cq && |h'.cq| == |h.cq|
      && h'.ring == h.ring.(sqHead := SqSlot(h, TakenBy(h, fault)), cqTail := CqSlot(h, k))
      && JobRuns(h'.regs) && h'.regs.intEnabled
      && h'.regs.state == if !fault.NoFault? && fault.at < Waiting(h) then Error else Ready
  {
    JobStops(h, fault);
    hide ConsumeN, Execute, Slot, JobEffect, JobRuns;
    var k := AnsweredBy(h, fault);
    ConsumeRegisters(h, k);
    SlotSucc(h.ring.sqHead + k, h.ring.size);
  }

  /** The job a doorbell starts finds the rings as the invariant describes them. */
  lemma JobFinds(s: Sys)
    requires Inv(s) && s.link.hw.regs.state.Ready?
    ensures Bounded(JobStart(s)) && JobStart(s).ring.size == Size(s)
    ensures SqHolds(JobStart(s), s.submitted, s.read)
    ensures CqHolds(JobStart(s), s.written, s.drained)
    ensures Waiting(JobStart(s)) == |s.submitted| - s.read
  {
    AllWaiting(JobStart(s), s.submitted, s.read);
  }

  lemma RingKeepsWindows(s: Sys, fault: Fault)
    requires Inv(s) && s.link.hw.regs.state.Ready?
    ensures Shape(RingStep(s, fault)) && Windows(RingStep(s, fault)) && Answers(RingStep(s, fault))
  {
    hide Slot, ConsumeN, Execute, Gap;
    JobFinds(s);
    var h, k, s' := JobStart(s), AnsweredBy(JobStart(s), fault), RingStep(s, fault);
    JobLeaves(h, fault);
    forall i: nat | s.drained <= i < |s'.written|
      ensures s'.link.hw.cq[Slot(i, Size(s))] == s'.written[i]
    {
      WindowAfterJob(h, s.written, s.drained, k, i);
    }
    forall i: nat | i < |s'.written|
      ensures s'.written[i] == Execute(s.submitted[i])
    {
      AnswersAfterJob(h, s.submitted, s.written, k, i);
    }
  }

  lemma JobCounts(h: Hw, fault: Fault)
    requires Bounded(h)
    ensures AnsweredBy(h, fault) <= TakenBy(h, fault) <= Waiting(h)
    ensures TakenBy(h, fault) <= AnsweredBy(h, fault) + 1
    ensures !(!fault.NoFault? && fault.at < Waiting(h)) ==> AnsweredBy(h, fault) == TakenBy(h, fault) == Waiting(h)
  {
  }

  lemma RingKeepsCounters(s: Sys, fault: Fault)
    requires Inv(s) && s.link.hw.regs.state.Ready?
    ensures Counters(RingStep(s, fault))
  {
    hide Slot, ConsumeN, Execute, Gap;
    JobFinds(s);
    JobCounts(JobStart(s), fault);
  }

  lemma RingLeaves(s: Sys, fault: Fault)
    requires Inv(s) && s.link.hw.regs.state.Ready?
    ensures Bounded(JobStart(s))
    ensures var h, s' := JobStart(s), RingStep(s, fault);
      && Shape(s') && s'.link.drv == s.link.drv
      && s'.link.hw.ring == h.ring.(sqHead := SqSlot(h, TakenBy(h, fault)), cqTail := CqSlot(h, AnsweredBy(h, fault)))
      && |s'.written| == |s.written| + AnsweredBy(h, fault) && s'.read == s.read + TakenBy(h, fault)
      && s'.submitted == s.submitted && s'.rung == |s.submitted| && s'.known == s.known
      && s'.drained == s.drained && s'.publishing == s.publishing && s'.head == s.head
  {
    hide Slot, ConsumeN, Execute, Gap, Windows, Answers, Indices, TakenBy, AnsweredBy;
    JobStartBounded(s);
    JobLeaves(JobStart(s), fault);
  }

  lemma RingKeepsIndices(s: Sys, fault: Fault)
    requires Inv(s) && s.link.hw.regs.state.Ready?
    ensures Shape(RingStep(s, fault)) && Indices(RingStep(s, fault))
  {
    hide Slot, ConsumeN, Execute, Gap, Windows, Answers, SqHolds, CqHolds, TakenBy, AnsweredBy, RingStep, Counters;
    var h := JobStart(s);
    RingLeaves(s, fault);
    JobFinds(s);
    SlotAdd(s.read, TakenBy(h, fault), Size(s));
    SlotAdd(|s.written|, AnsweredBy(h, fault), Size(s));
  }

  lemma ReadyRingKeepsInv(s: Sys, fault: Fault)
    requires Inv(s) && s.link.hw.regs.state.Ready?
    ensures Inv(RingStep(s, fault))
  {
    hide Slot, ConsumeN, Execute, Gap, Windows, Indices, Answers, SqHolds, CqHolds;
    RingKeepsWindows(s, fault);
    RingKeepsCounters(s, fault);
    RingKeepsIndices(s, fault);
    JobFinds(s);
    JobCounts(JobStart(s), fault);
    JobLeaves(JobStart(s), fault);
  }

  /** In ERROR a doorbell is refused; only the device's copy of the tail has changed. */
  lemma ErrorRingKeepsInv(s: Sys, fault: Fault)
    requires Inv(s) && s.link.hw.regs.state.Error?
    ensures Inv(RingStep(s, fault))
  {
  }

  lemma RingKeepsInv(s: Sys, fault: Fault)
    requires Inv(s)
    ensures Inv(RingStep(s, fault))
  {
    if s.link.hw.regs.state.Ready? {
      ReadyRingKeepsInv(s, fault);
    } else {
      ErrorRingKeepsInv(s, fault);
    }
  }

  // ---- Submission --------------------------------------------------------------------

  /** The full test answers exactly when as many commands as the ring can hold are not known to be taken. */
  lemma FullWhen(s: Sys)
    requires Inv(s)
    ensures Full(s.link.drv) <==> |s.submitted| - s.known == Size(s) - 1
  {
    SlotSucc(|s.submitted|, Size(s));
    if Full(s.link.drv) {
      if s.known + Size(s) > |s.submitted| + 1 {
        SlotInjective(s.known, |s.submitted| + 1, Size(s));
      }
    } else {
      assert Slot(s.known + Size(s), Size(s)) == Slot(s.known, Size(s));
    }
  }

  /** A submission never overwrites a command the device has not taken. */
  lemma SubmitSlotIsFree(s: Sys, i: nat)
    requires Inv(s) && s.read <= i < |s.submitted|
    ensures Slot(i, Size(s)) != s.link.drv.sqTail
  {
    if Slot(i, Size(s)) == Slot(|s.submitted|, Size(s)) {
      SlotInjective(i, |s.submitted|, Size(s));
    }
  }

  lemma SubmitKeepsInv(s: Sys, c: SqEntry)
    requires Inv(s)
    ensures Inv(SubmitStep(s, c))
  {
    hide Slot, Execute, Gap;
    if !Full(s.link.drv) {
      FullWhen(s);
      SlotSucc(|s.submitted|, Size(s));
      forall i: nat | s.read <= i < |s.submitted|
        ensures Slot(i, Size(s)) != s.link.drv.sqTail
      {
        SubmitSlotIsFree(s, i);
      }
    }
  }

  // ---- Draining ----------------------------------------------------------------------

  /**
    The drain loop stops at the tail and nowhere else: it takes the completions `d` up to
    `|written|`, in order, whatever stale entries the rest of the ring holds.
  */
  lemma {:induction false} DrainTakesAll(cq: seq<CqEntry>, written: seq<CqEntry>, d: nat, n: nat)
    requires 0 < n <= |cq|
    requires d <= |written| < d + n
    requires forall i: nat | d <= i < |written| :: cq[Slot(i, n)] == written[i] && written[i].valid
    ensures var r := DrainFrom(cq, Slot(d, n), Slot(|written|, n), n);
      && r.head == Slot(|written|, n)
      && r.taken == written[d..]
    decreases |written| - d
  {
    var head := Slot(d, n);
    if d < |written| {
      if head == Slot(|written|, n) {
        SlotInjective(d, |written|, n);
      }
      SlotSucc(d, n);
      var cq' := cq[head := cq[head].(valid := false)];
      forall i: nat | d + 1 <= i < |written|
        ensures cq'[Slot(i, n)] == written[i]
      {
        if Slot(i, n) == head {
          SlotInjective(d, i, n);
        }
      }
      DrainTakesAll(cq', written, d + 1, n);
      assert written[d..] == [written[d]] + written[d + 1..];
    }
  }

  /** Slot `p` holds one of the entries `d` up to `e`. */
  ghost predicate HoldsOne(p: nat, d: nat, e: nat, n: nat)
    requires n > 0
  {
    exists i: nat :: d <= i < e && Slot(i, n) == p
  }

  /** The loop takes the valid mark off the completions it takes and changes no other slot. */
  lemma {:induction false} DrainClears(cq: seq<CqEntry>, written: seq<CqEntry>, d: nat, n: nat, p: nat)
    requires 0 < n <= |cq| && p < |cq|
    requires d <= |written| < d + n
    requires forall i: nat | d <= i < |written| :: cq[Slot(i, n)] == written[i] && written[i].valid
    ensures var r := DrainFrom(cq, Slot(d, n), Slot(|written|, n), n);
      && |r.cq| == |cq|
      && r.cq[p] == if HoldsOne(p, d, |written|, n) then cq[p].(valid := false) else cq[p]
    decreases |written| - d
  {
    if d < |written| {
      var head := Slot(d, n);
      if head == Slot(|written|, n) {
        SlotInjective(d, |written|, n);
      }
      SlotSucc(d, n);
      var cq' := cq[head := cq[head].(valid := false)];
      forall i: nat | d + 1 <= i < |written|
        ensures cq'[Slot(i, n)] == written[i]
      {
        if Slot(i, n) == head {
          SlotInjective(d, i, n);
        }
      }
      DrainClears(cq', written, d + 1, n, p);
      hide Slot;
      assert HoldsOne(p, d, |written|, n) <==> p == head || HoldsOne(p, d + 1, |written|, n);
    }
  }

  /** In every state the protocol reaches, a drain takes exactly the undrained completions. */
  lemma DrainIsComplete(s: Sys)
    requires Inv(s) && !s.publishing
    ensures LinkOk(s.link) && s.link.hw.ring.cqTail < Size(s)
    ensures TakenNow(s) == s.written[s.drained..]
    ensures DrainOf(s.link).head == s.link.hw.ring.cqTail
  {
    DrainTakesAll(s.link.hw.cq, s.written, s.drained, Size(s));
  }

  lemma DrainKeepsInv(s: Sys)
    requires Inv(s) && !s.publishing
    ensures Inv(DrainStep(s))
    ensures DrainStep(s).drained == |s.written|
  {
    DrainIsComplete(s);
  }

  lemma PublishKeepsInv(s: Sys)
    requires Inv(s) && s.publishing
    ensures Inv(PublishStep(s))
  {
  }

  /** Recovery empties both windows, whatever the fault left behind. */
  lemma RecoverKeepsInv(s: Sys)
    requires Inv(s)
    ensures Inv(RecoverStep(s)) && RecoverStep(s).link.hw.regs.state.Ready?
    ensures TakenNow(RecoverStep(s)) == []
  {
    RecoverEffect(s.link, s.dma);
  }

  // ---- Runs ----------------------------------------------------------------------------

  lemma DoKeepsInv(s: Sys, step: Step)
    requires Inv(s)
    ensures Inv(Do(s, step))
  {
    if Enabled(s, step) {
      match step
      case DoSubmit(c) => SubmitKeepsInv(s, c);
      case DoRing(fault) => RingKeepsInv(s, fault);
      case DoDrain => DrainKeepsInv(s);
      case DoPublish => PublishKeepsInv(s);
      case DoRecover => RecoverKeepsInv(s);
    }
  }

  /**
    What a doorbell gets done in READY: everything waiting without a fault; with one at the
    k-th access, the k commands before it, and a write that fails leaves a command taken and
    not answered.
  */
  lemma RingOutcome(s: Sys, fault: Fault)
    requires Inv(s) && s.link.hw.regs.state.Ready?
    ensures var s', n := Do(s, DoRing(fault)), |s.submitted| - |s.written|;
      && s'.submitted == s.submitted && s'.rung == |s.submitted|
      && match fault
         case NoFault => |s'.written| == s'.read == |s.submitted| && s'.link.hw.regs.state.Ready?
         case ReadFault(k) =>
           if k < n then |s'.written| == s'.read == |s.written| + k && s'.link.hw.regs.state.Error?
           else |s'.written| == s'.read == |s.submitted| && s'.link.hw.regs.state.Ready?
         case WriteFault(k) =>
           if k < n then |s'.written| == |s.written| + k == s'.read - 1 && s'.link.hw.regs.state.Error?
           else |s'.written| == s'.read == |s.submitted| && s'.link.hw.regs.state.Ready?
  {
    hide Slot, ConsumeN, Execute, Gap, Windows, Answers, Indices, SqHolds, CqHolds;
    JobFinds(s);
    JobLeaves(JobStart(s), fault);
  }

  /** The other steps act: a submission is queued unless the ring is full, a recovery starts afresh. */
  lemma StepsAct(s: Sys, c: SqEntry)
    requires Inv(s)
    ensures Do(s, DoSubmit(c)).submitted
            == if |s.submitted| - s.known == Size(s) - 1 then s.submitted else s.submitted + [c]
    ensures s.link.hw.regs.state.Error? && !s.publishing ==>
              var s' := Do(s, DoRecover);
              s'.submitted == [] && s'.written == [] && s'.link.hw.regs.state.Ready? && s'.drained == 0
    ensures s.link.hw.regs.state.Error? ==> Do(s, DoRing(NoFault)).written == s.written
  {
    FullWhen(s);
    if s.link.hw.regs.state.Error? {
      RecoverKeepsInv(s);
      RecoverEffect(s.link, s.dma);
    }
    hide Slot, Execute, Windows, Answers, Indices;
  }

  /** What a run reaches; that every step is defined is the invariant. */
  function Run(s: Sys, steps: seq<Step>): (s': Sys)
    requires Inv(s)
    ensures Inv(s')
    decreases |steps|
  {
    if steps == [] then s
    else
      DoKeepsInv(Run(s, steps[..|steps| - 1]), steps[|steps| - 1]);
      Do(Run(s, steps[..|steps| - 1]), steps[|steps| - 1])
  }

  /** The driver and the device after a probe: INIT at power-on, then configuration. */
  function Probed(sq: seq<SqEntry>, cq: seq<CqEntry>, dma: Dma): Sys
    requires 0 < |sq| == |cq| < 0x1_0000
  {
    var on := Dispatch(Hw(POWER_ON, EMPTY_RING, sq, cq), EvtInit, NoFault);
    Sys(Configure(Link(Driver(0, 0, 0, 0, |sq|), on), dma), dma, [], [], 0, 0, 0, 0, false, 0)
  }

  /** A probe establishes the invariant, whatever the memory held before. */
  lemma ProbeEstablishesInv(sq: seq<SqEntry>, cq: seq<CqEntry>, dma: Dma)
    requires 0 < |sq| == |cq| < 0x1_0000 && DmaOk(dma)
    ensures Inv(Probed(sq, cq, dma)) && Probed(sq, cq, dma).link.hw.regs.state.Ready?
  {
    var on := Dispatch(Hw(POWER_ON, EMPTY_RING, sq, cq), EvtInit, NoFault);
    ConfigureEffect(Link(Driver(0, 0, 0, 0, |sq|), on), dma);
  }

  /** `Execute` on every command, in order. */
  function ExecuteAll(cmds: seq<SqEntry>): (r: seq<CqEntry>)
    ensures |r| == |cmds|
    ensures forall i: nat | i < |r| :: r[i] == Execute(cmds[i])
  {
    if cmds == [] then [] else [Execute(cmds[0])] + ExecuteAll(cmds[1..])
  }

  /**
    For every schedule of submissions, doorbells, faults, drains and recoveries: the
    completions written since the last recovery are the first commands submitted since
    then, executed in order.
  */
  lemma CompletionsFollowSubmissions(s: Sys, steps: seq<Step>)
    requires Inv(s)
    ensures var s' := Run(s, steps);
      && |s'.written| <= |s'.submitted|
      && s'.written == ExecuteAll(s'.submitted[..|s'.written|])
  {
    var s' := Run(s, steps);
    assert forall i: nat | i < |s'.written| :: s'.submitted[..|s'.written|][i] == s'.submitted[i];
  }

  /** Only a recovery rewrites history; every other step at most adds to it. */
  lemma HistoryOnlyGrows(s: Sys, step: Step)
    requires Inv(s)
    ensures var s' := Do(s, step);
      !(step.DoRecover? && Enabled(s, step)) ==>
        s.submitted <= s'.submitted && s.written <= s'.written && s.drained <= s'.drained
  {
    hide Slot, ConsumeN, Execute, Gap, JobEffect;
  }

  /**
    What a submission reports: refused exactly when the commands not known to be taken
    fill all but one slot; otherwise the command goes to the slot where, unless a fault
    has struck, its completion will be written.
  */
  lemma SubmitOutcome(s: Sys, c: SqEntry)
    requires Inv(s)
    ensures SubmitStep(s, c).submitted
            == if |s.submitted| - s.known == Size(s) - 1 then s.submitted else s.submitted + [c]
    ensures s.link.drv.sqTail == Slot(|s.submitted|, Size(s))
    ensures s.link.hw.regs.state.Ready? ==>
              s.link.hw.ring.cqTail == s.link.hw.ring.sqHead == Slot(|s.written|, Size(s))
  {
    FullWhen(s);
  }

  lemma StepExtends(s: Sys, step: Step)
    requires Inv(s) && !step.DoRecover?
    ensures var s' := Do(s, step); s.submitted <= s'.submitted && Size(s') == Size(s)
  {
    hide Slot, ConsumeN, Execute, Gap, JobEffect;
  }

  lemma {:induction false} RunExtends(s: Sys, steps: seq<Step>)
    requires Inv(s) && forall k: nat | k < |steps| :: !steps[k].DoRecover?
    ensures var s' := Run(s, steps); s.submitted <= s'.submitted && Size(s') == Size(s)
    decreases |steps|
  {
    if steps != [] {
      var before := steps[..|steps| - 1];
      RunExtends(s, before);
      hide Inv, Do, Size;
      StepExtends(Run(s, before), steps[|steps| - 1]);
    }
  }

  /**
    The slot a submission returns is the command's for good: in every run from there up to
    the next recovery, whatever is submitted, rung or drained around it and wherever a fault
    strikes, once the command is answered and until its completion is drained, that slot of
    the completion ring holds the result of executing it.
  */
  lemma CompletionSlot(s: Sys, c: SqEntry, later: seq<Step>)
    requires Inv(s) && !Full(s.link.drv) && Inv(SubmitStep(s, c))
    requires forall k: nat | k < |later| :: !later[k].DoRecover?
    ensures var s', i := Run(SubmitStep(s, c), later), |s.submitted|;
      && s.link.drv.sqTail < |s'.link.hw.cq|
      && i < |s'.submitted| && s'.submitted[i] == c
      && (s'.drained <= i < |s'.written| ==> s'.link.hw.cq[s.link.drv.sqTail] == Execute(c))
  {
    var s' := Run(SubmitStep(s, c), later);
    RunExtends(SubmitStep(s, c), later);
    hide Slot, Execute, Run;
    assert s.submitted + [c] <= s'.submitted;
    assert s.link.drv.sqTail == Slot(|s.submitted|, Size(s'));
  }

  lemma RunTwo(s: Sys, first: Step, second: Step)
    requires Inv(s)
    ensures Inv(Do(s, first)) && Run(s, [first, second]) == Do(Do(s, first), second)
  {
    hide Do, Inv;
    assert [first, second][..1] == [first] && [first][..0] == [];
    assert Run(s, []) == s;
    assert Run(s, [first]) == Do(s, first);
  }

  lemma DrainHistory(s: Sys)
    requires Inv(s) && !s.publishing
    ensures var s' := DrainStep(s);
      Inv(s') && s'.written == s.written && s'.known == s.read && s'.drained == |s.written|
  {
    DrainKeepsInv(s);
  }

  lemma PublishHistory(s: Sys)
    requires Inv(s) && s.publishing
    ensures var s' := PublishStep(s);
      && Inv(s') && !s'.publishing
      && s'.written == s.written && s'.known == s.known && s'.drained == s.drained
  {
    PublishKeepsInv(s);
  }

  /** A drain leaves nothing behind, and only then does the driver learn how far the device has got. */
  lemma DrainLeavesNothing(s: Sys)
    requires Inv(s) && !s.publishing
    ensures var s' := Run(s, [DoDrain, DoPublish]);
      && s'.drained == |s.written| && s'.known == s.read
      && TakenNow(s') == []
  {
    hide Run, Inv, TakenNow, DrainStep, PublishStep;
    RunTwo(s, DoDrain, DoPublish);
    DrainHistory(s);
    var s1 := DrainStep(s);
    if s1.publishing {
      PublishHistory(s1);
    }
    DrainIsComplete(Run(s, [DoDrain, DoPublish]));
  }
}
