/**
  The code of the mathaccel driver: submission, doorbell, the drain loop, (re)configuration
  and the phases of a compute call, each proved to do what `MathRings` and `MathPending`
  say.  A call blocks between its phases, so each phase is a method of its own.
*/
module MathDriver {
  import opened RingArith
  import opened MathOps
  import opened MathHardware
  import opened MathRings
  import opened MathPending
  import opened MathDevice

  const ERESTARTSYS := 512
  const ENODEV := 19
  const EFAULT := 14

  class Host {
    const dev: Device
    const dma: Dma
    var drv: Driver
    var counter: nat
    var pending: PendingMap
    var cached: set<IrqBit>
    var strays: nat

    ghost function LinkOf(): Link
      reads this, dev, dev.sqMem, dev.cqMem
    {
      Link(drv, dev.State())
    }

    constructor (device: Device, addresses: Dma, size: nat)
      ensures dev == device && dma == addresses
      ensures drv == Driver(0, 0, 0, 0, size) && counter == 0 && pending == map[] && cached == {} && strays == 0
    {
      dev, dma := device, addresses;
      drv := Driver(0, 0, 0, 0, size);
      counter, pending, cached, strays := 0, map[], {}, 0;
    }

    /** `mathaccel_submit_one_cmd`: the slot used, or busy. */
    method SubmitOneCmd(req: Req) returns (ret: int)
      requires LinkOk(LinkOf())
      modifies this`drv, dev.sqMem
      ensures LinkOf() == Submit(old(LinkOf()), CommandOf(req))
      ensures ret == if Full(old(drv)) then -16 else old(drv).sqTail
    {
      NextIsMod(drv.sqTail, drv.size);
      var nextTail := (drv.sqTail + 1) % drv.size;
      if nextTail == drv.sqHead {
        return -EBUSY;
      }
      ret := drv.sqTail;
      dev.sqMem[drv.sqTail] := SqEntry(req.opcode, req.cmdId, req.arg0, req.arg1);
      drv := drv.(sqTail := nextTail);
    }

    /** `mathaccel_start_dma_job`: the doorbell carries the current tail, whoever submitted last. */
    method StartDmaJob(fault: Fault)
      requires LinkOk(LinkOf()) && WriteOk(dev.State(), SqTail, drv.sqTail)
      modifies dev, dev.cqMem
      ensures LinkOf() == RingDoorbell(old(LinkOf()), fault)
    {
      var _ := dev.BarWrite(SqTail, drv.sqTail, fault);
    }

    /**
      `mathaccel_irq_consume_completion_queue` up to the release of the lock.  `head` is
      where the loop stopped; an empty queue is reported and nothing else is done.
    */
    method DrainLocked() returns (head: nat, spurious: bool)
      requires LinkOk(LinkOf()) && dev.ring.cqTail < drv.size
      modifies this, dev.cqMem
      ensures LinkOf() == Drain(old(LinkOf()))
      ensures head == DrainOf(old(LinkOf())).head
      ensures spurious == Spurious(old(LinkOf()))
      ensures pending == DeliverAll(old(pending), DrainOf(old(LinkOf())).taken)
      ensures strays == old(strays) + Strays(old(pending), DrainOf(old(LinkOf())).taken)
      ensures counter == old(counter) && cached == old(cached)
    {
      drv := drv.(sqHead := dev.ring.sqHead);
      drv := drv.(cqTail := dev.ring.cqTail);
      head := drv.cqHead;
      var tail := drv.cqTail;
      if head == tail {
        return head, true;
      }
      hide DrainFrom, DeliverAll, Strays, Deliver;
      spurious := false;
      var size := drv.size;
      ghost var refreshed, start := drv, DrainFrom(dev.cqMem[..], head, tail, size);
      ghost var taken: seq<CqEntry> := [];
      var entry := dev.cqMem[head];
      while entry.valid && head != tail
        invariant head < size && entry == dev.cqMem[head]
        invariant drv == refreshed && counter == old(counter) && cached == old(cached)
        invariant dev.regs == old(dev.regs) && dev.ring == old(dev.ring) && dev.sqMem[..] == old(dev.sqMem[..])
        invariant start == Continue(DrainFrom(dev.cqMem[..], head, tail, size), taken)
        invariant pending == DeliverAll(old(pending), taken)
        invariant strays == old(strays) + Strays(old(pending), taken)
        decreases Gap(head, tail, size)
      {
        DrainOnce(dev.cqMem[..], head, tail, size, taken);
        DeliverNext(old(pending), taken, entry);
        Signal(entry);
        taken := taken + [entry];
        dev.cqMem[head] := entry.(valid := false);
        GapNext(head, tail, size);
        NextIsMod(head, size);
        head := (head + 1) % size;
        entry := dev.cqMem[head];
      }
      assert taken + [] == taken;
    }

    /** The body of the drain loop: the caller waiting for this completion is woken. */
    method Signal(entry: CqEntry)
      modifies this`pending, this`strays
      ensures pending == Deliver(old(pending), entry)
      ensures strays == old(strays) + (if entry.cmdId in old(pending) then 0 else 1)
    {
      if entry.cmdId in pending {
        pending := pending[entry.cmdId := Wake(pending[entry.cmdId], entry)];
      } else {
        strays := strays + 1;
      }
    }

    /** The rest of it: the new head is stored and written to the device. */
    method PublishHead(head: nat)
      requires head < 0x1_0000
      modifies this`drv, dev, dev.cqMem
      ensures LinkOf() == Publish(old(LinkOf()), head)
    {
      drv := drv.(cqHead := head);
      var _ := dev.BarWrite(CqHead, drv.cqHead, NoFault);
    }

    /** `mathaccel_init_dma`; the ring memory is already allocated. */
    method InitDma()
      requires drv.size < 0x1_0000
      modifies this, dev, dev.cqMem
      ensures LinkOf() == MathRings.InitDma(old(LinkOf()), dma)
      ensures counter == 1 && pending == old(pending) && cached == old(cached) && strays == old(strays)
    {
      counter := 1;
      drv := drv.(sqHead := 0, sqTail := 0);
      drv := drv.(cqHead := 0, cqTail := 0);
      var _ := dev.BarWrite(SqBaseLower, dma.sqLo, NoFault);
      var _ := dev.BarWrite(SqBaseUpper, dma.sqHi, NoFault);
      var _ := dev.BarWrite(CqBaseLower, dma.cqLo, NoFault);
      var _ := dev.BarWrite(CqBaseUpper, dma.cqHi, NoFault);
      var _ := dev.BarWrite(RingSize, drv.size, NoFault);
    }

    /**
      `mathaccel_irq_handle_error`.  `cause` is what the error register held: the code
      stops the kernel if it is empty.  When neither the function nor the bus can be reset
      it carries on all the same.
    */
    method HandleError(resetWorks: bool) returns (cause: set<ErrBit>)
      requires drv.size < 0x1_0000
      modifies this, dev, dev.cqMem
      ensures cause == old(dev.regs.errorCause)
      ensures LinkOf() == if resetWorks then Recover(old(LinkOf()), dma) else ConfigureUnreset(old(LinkOf()), dma)
      ensures pending == FailAll(old(pending)) && counter == 1
      ensures pending.Keys == old(pending).Keys
      ensures forall id | id in pending ::
                pending[id].done && pending[id].cause == Failed && pending[id].req == old(pending)[id].req.(result := -1)
    {
      cause := dev.ReadErrorCause();
      if resetWorks {
        var _ := dev.OnDeviceReset();
      }
      InitDma();
      var _ := dev.BarWrite(Flags, EnableBoth(dev.regs), NoFault);
      pending := map id | id in pending :: Pending(pending[id].req.(result := -1), Failed, true);
    }

    /** First phase of `mathaccel_ioc_compute`: validation, id, pending record. */
    method IocBegin(user: Req) returns (ret: int, req: Req)
      modifies this
      ensures !IsKnownOp(user.opcode) ==>
                ret == -22 && counter == old(counter) && pending == old(pending)
      ensures IsKnownOp(user.opcode) ==>
                && ret == 0
                && counter == (old(counter) + 1) % 0x1_0000_0000
                && req == user.(cmdId := counter)
                && pending == old(pending)[counter := Pending(req, Unset, false)]
      ensures drv == old(drv) && cached == old(cached) && strays == old(strays)
    {
      req := user;
      if user.opcode >= MATH_OP_COUNT {
        return -EINVAL, req;
      }
      counter := (counter + 1) % 0x1_0000_0000;
      req := req.(cmdId := counter);
      pending := pending[req.cmdId := Pending(req, Unset, false)];
      ret := 0;
    }

    /**
      Last phase, once the record's completion is signalled or a signal interrupts the wait:
      the cause decides what the caller gets.
    */
    method IocFinish(id: nat, interrupted: bool, copyFails: bool) returns (ret: int, answer: Req)
      requires id in pending && (pending[id].done || interrupted)
      modifies this`pending
      ensures answer == old(pending)[id].req
      ensures ret == ReturnCode(old(pending)[id].cause, interrupted, copyFails)
      ensures pending == if ret == 0 || ret == -EFAULT then old(pending) - {id} else old(pending)
    {
      var record := pending[id];
      answer := record.req;
      if interrupted || record.cause.CmdDone? {
        return -ERESTARTSYS, answer;
      }
      match record.cause {
        case ShuttingDown => return -ENODEV, answer;
        case Failed => return -EIO, answer;
        case _ =>
      }
      pending := pending - {id};
      ret := if copyFails then -EFAULT else 0;
    }

    /** `mathaccel_irq_handler`: the cause register is moved, not merged, into the cache. */
    method TopHalf() returns (handled: bool)
      modifies this`cached, dev
      ensures cached == old(dev.regs.irqCause)
      ensures dev.State() == old(dev.State()).(regs := old(dev.regs).(irqCause := {}))
      ensures handled <==> old(dev.regs.state).Error? || old(dev.regs.state).Ready?
    {
      cached := dev.ReadIrqCause();
      handled := dev.regs.state.Error? || dev.regs.state.Ready?;
    }

    /** One pass of the kernel thread: the cached cause is taken and compared whole. */
    method KthreadTake() returns (work: Work)
      modifies this`cached
      ensures cached == {} && work == WorkFor(old(cached))
    {
      var cause := cached;
      cached := {};
      if cause == {IrqError} {
        work := HandleTheError;
      } else if cause == {IrqCmdDone} {
        work := ReadLegacyResult;
      } else if cause == {IrqJobDone} {
        work := DrainCompletions;
      } else {
        work := Nothing;
      }
    }
  }

  /** What the ioctl returns for each way its wait can end. */
  function ReturnCode(cause: Cause, interrupted: bool, copyFails: bool): int {
    if interrupted || cause.CmdDone? then -ERESTARTSYS
    else if cause.ShuttingDown? then -ENODEV
    else if cause.Failed? then -EIO
    else if copyFails then -EFAULT
    else 0
  }

  /** What the kernel thread does with a cause. */
  datatype Work = HandleTheError | ReadLegacyResult | DrainCompletions | Nothing

  /** Only a cause of a single bit is acted on. */
  function WorkFor(cause: set<IrqBit>): Work {
    if cause == {IrqError} then HandleTheError
    else if cause == {IrqCmdDone} then ReadLegacyResult
    else if cause == {IrqJobDone} then DrainCompletions
    else Nothing
  }

  /**
    Success is reported for a completion that was copied out, and for nothing else; each
    failure has its own number.
  */
  lemma SuccessIff(cause: Cause, interrupted: bool, copyFails: bool)
    requires cause != Unset || interrupted
    ensures var ret := ReturnCode(cause, interrupted, copyFails);
      && (ret == 0 <==> cause == JobDone && !interrupted && !copyFails)
      && (ret == -512 <==> interrupted || cause == CmdDone)
      && (ret == -19 <==> !interrupted && cause == ShuttingDown)
      && (ret == -5 <==> !interrupted && cause == Failed)
      && (ret == -14 <==> !interrupted && cause == JobDone && copyFails)
  {
  }

  /** A caller waiting when the device failed gets -EIO, whatever became of its command. */
  lemma FailedCallersGetError(p: PendingMap, id: nat, copyFails: bool)
    requires id in p
    ensures id in FailAll(p) && FailAll(p)[id].done
    ensures ReturnCode(FailAll(p)[id].cause, false, copyFails) == -5
  {
    FailAllTells(p, id);
    SuccessIff(FailAll(p)[id].cause, false, copyFails);
    hide FailAll, ReturnCode;
  }

  /** One whose completion a drain took gets success, and its completion's result and status. */
  lemma DeliveredCallersSucceed(p: PendingMap, es: seq<CqEntry>, j: nat)
    requires j < |es| && DistinctIds(es) && es[j].cmdId in p
    ensures es[j].cmdId in DeliverAll(p, es)
    ensures var q := DeliverAll(p, es)[es[j].cmdId];
      && q.done && ReturnCode(q.cause, false, false) == 0
      && q.req.result == es[j].result && q.req.status == es[j].status
  {
    DeliveredTells(p, es, j);
    SuccessIff(JobDone, false, false);
    hide DeliverAll, ReturnCode;
  }

  /** Each single bit has its own work, and any other cause has none. */
  lemma WorkByBit(cause: set<IrqBit>)
    ensures WorkFor(cause) == DrainCompletions <==> forall b :: b in cause <==> b == IrqJobDone
    ensures WorkFor(cause) == ReadLegacyResult <==> forall b :: b in cause <==> b == IrqCmdDone
    ensures WorkFor(cause) == HandleTheError <==> forall b :: b in cause <==> b == IrqError
  {
    assert (forall b :: b in cause <==> b == IrqJobDone) ==> cause == {IrqJobDone};
    assert (forall b :: b in cause <==> b == IrqCmdDone) ==> cause == {IrqCmdDone};
    assert (forall b :: b in cause <==> b == IrqError) ==> cause == {IrqError};
  }

  /**
    From the doorbell to the thread: with nothing unread in the cause register and interrupts
    enabled, a job raises one interrupt, and the cause the top half reads makes the thread
    drain if the job met no fault, and handle the error otherwise.
  */
  lemma DoorbellIsServed(h: Hw, val: U32, fault: Fault)
    requires h.regs.state.Ready? && WriteOk(h, SqTail, val)
    requires h.regs.irqCause == {} && h.regs.intEnabled
    ensures var r := Write(h, SqTail, val, fault).regs;
      && r.irqs == h.regs.irqs + 1
      && WorkFor(r.irqCause) == if r.state.Ready? then DrainCompletions else HandleTheError
    ensures JobRuns(h.regs) && fault == NoFault ==> Write(h, SqTail, val, fault).regs.state.Ready?
  {
    DoorbellOutcome(h, val, fault);
    WorkByBit(Write(h, SqTail, val, fault).regs.irqCause);
    hide Write, WorkFor, Gap;
  }

  /** The same for a legacy command: the thread reads its result, or handles the error. */
  lemma CommandIsServed(h: Hw, val: U32, fault: Fault)
    requires h.regs.state.Ready? && h.regs.irqCause == {} && h.regs.intEnabled
    ensures var r := Write(h, Cmd, val, fault).regs;
      && r.irqs == h.regs.irqs + 1
      && WorkFor(r.irqCause) == if r.state.Ready? then ReadLegacyResult else HandleTheError
  {
    CommandOutcome(h, val, fault);
    WorkByBit(Write(h, Cmd, val, fault).regs.irqCause);
    hide Write, WorkFor, IsAnswer;
  }

  /** A drain that had already taken `taken` when `r` was still ahead of it. */
  ghost function Continue(r: Drained, taken: seq<CqEntry>): Drained {
    r.(taken := taken + r.taken)
  }

  lemma DrainOnce(cq: seq<CqEntry>, head: nat, tail: nat, size: nat, taken: seq<CqEntry>)
    requires head < size && tail < size <= |cq|
    requires cq[head].valid && head != tail
    ensures Continue(DrainFrom(cq, head, tail, size), taken)
            == Continue(DrainFrom(cq[head := cq[head].(valid := false)], Next(head, size), tail, size),
                        taken + [cq[head]])
  {
    var r := DrainFrom(cq[head := cq[head].(valid := false)], Next(head, size), tail, size);
    assert taken + ([cq[head]] + r.taken) == taken + [cq[head]] + r.taken;
  }

  lemma DeliverNext(p: PendingMap, taken: seq<CqEntry>, e: CqEntry)
    ensures DeliverAll(p, taken + [e]) == Deliver(DeliverAll(p, taken), e)
    ensures Strays(p, taken + [e]) == Strays(p, taken) + (if e.cmdId in DeliverAll(p, taken) then 0 else 1)
  {
    DeliverKeepsCallers(p, taken);
    assert (taken + [e])[..|taken|] == taken;
  }
}
