/**
  The driver's half of the ring protocol as a value: its copies of the ring indices and
  what submission, the doorbell, draining and (re)configuration do to them and to the
  memory it shares with the device.  `MathDriver.dfy` holds the code.
*/
module MathRings {
  import opened RingArith
  import opened MathOps
  import opened MathHardware

  const EBUSY := 16

  /** The driver's copies of the ring indices. */
  datatype Driver = Driver(sqHead: nat, sqTail: nat, cqHead: nat, cqTail: nat, size: nat)

  /** Bus addresses of the two rings, in the halves they are programmed in. */
  datatype Dma = Dma(sqHi: U32, sqLo: U32, cqHi: U32, cqLo: U32)

  /** Driver and device, with the memory between them. */
  datatype Link = Link(drv: Driver, hw: Hw)

  /** The driver's indices fall inside the rings. */
  predicate LinkOk(l: Link) {
    && 0 < l.drv.size < 0x1_0000
    && l.drv.size <= |l.hw.sq| && l.drv.size <= |l.hw.cq|
    && l.drv.sqHead < l.drv.size && l.drv.sqTail < l.drv.size && l.drv.cqHead < l.drv.size
  }

  /** The full test: the slot after the tail is where consumption is known to have got to. */
  predicate Full(d: Driver)
    requires d.sqTail < d.size
  {
    Next(d.sqTail, d.size) == d.sqHead
  }

  /** `mathaccel_submit_one_cmd`. */
  function Submit(l: Link, c: SqEntry): Link
    requires LinkOk(l)
  {
    if Full(l.drv) then l
    else Link(l.drv.(sqTail := Next(l.drv.sqTail, l.drv.size)),
              l.hw.(sq := l.hw.sq[l.drv.sqTail := c]))
  }

  /** `mathaccel_start_dma_job`: the submission tail is written to the doorbell register. */
  function RingDoorbell(l: Link, fault: Fault): Link
    requires LinkOk(l) && WriteOk(l.hw, SqTail, l.drv.sqTail)
  {
    l.(hw := Write(l.hw, SqTail, l.drv.sqTail, fault))
  }

  /** Where a drain stops, the completion ring it leaves, and the completions it took. */
  datatype Drained = Drained(head: nat, cq: seq<CqEntry>, taken: seq<CqEntry>)

  /** The drain loop: on while the entry is valid and the tail is not reached. */
  function DrainFrom(cq: seq<CqEntry>, head: nat, tail: nat, size: nat): (r: Drained)
    requires head < size && tail < size <= |cq|
    ensures r.head < size && |r.cq| == |cq|
    decreases Gap(head, tail, size)
  {
    if !cq[head].valid || head == tail then Drained(head, cq, [])
    else
      var r := DrainFrom(cq[head := cq[head].(valid := false)], Next(head, size), tail, size);
      r.(taken := [cq[head]] + r.taken)
  }

  /** What a drain finds from its own head up to the tail the device reports. */
  function DrainOf(l: Link): Drained
    requires LinkOk(l) && l.hw.ring.cqTail < l.drv.size
  {
    DrainFrom(l.hw.cq, l.drv.cqHead, l.hw.ring.cqTail, l.drv.size)
  }

  /** A drain that finds the ring empty stops before the loop and publishes nothing. */
  predicate Spurious(l: Link) {
    l.drv.cqHead == l.hw.ring.cqTail
  }

  /**
    The part of `mathaccel_irq_consume_completion_queue` that runs under the lock: both
    device indices are read, then the loop runs.
  */
  function Drain(l: Link): Link
    requires LinkOk(l) && l.hw.ring.cqTail < l.drv.size
  {
    Link(l.drv.(sqHead := l.hw.ring.sqHead, cqTail := l.hw.ring.cqTail),
         l.hw.(cq := DrainOf(l).cq))
  }

  /** The part after the lock is released: the new head is stored and told to the device. */
  function Publish(l: Link, head: nat): Link
    requires head < 0x1_0000
  {
    Link(l.drv.(cqHead := head), Write(l.hw, CqHead, head, NoFault))
  }

  /** A drain refreshes both indices the device owns, and touches nothing of the device but valid marks. */
  lemma DrainRefreshes(l: Link)
    requires LinkOk(l) && l.hw.ring.cqTail < l.drv.size
    ensures var l' := Drain(l);
      && l'.drv == Driver(l.hw.ring.sqHead, l.drv.sqTail, l.drv.cqHead, l.hw.ring.cqTail, l.drv.size)
      && l'.hw == l.hw.(cq := l'.hw.cq)
      && forall i | 0 <= i < |l.hw.cq| :: l'.hw.cq[i].(valid := l.hw.cq[i].valid) == l.hw.cq[i]
  {
    MarksOnly(l.hw.cq, l.drv.cqHead, l.hw.ring.cqTail, l.drv.size);
  }

  lemma {:induction false} MarksOnly(cq: seq<CqEntry>, head: nat, tail: nat, size: nat)
    requires head < size && tail < size <= |cq|
    ensures var cq' := DrainFrom(cq, head, tail, size).cq;
      forall i | 0 <= i < |cq| :: cq'[i].(valid := cq[i].valid) == cq[i]
    decreases Gap(head, tail, size)
  {
    if cq[head].valid && head != tail {
      MarksOnly(cq[head := cq[head].(valid := false)], Next(head, size), tail, size);
    }
  }

  /** The register writes of `mathaccel_init_dma`, in order. */
  function Program(h: Hw, dma: Dma, size: nat): Hw
    requires size < 0x1_0000
  {
    var h1 := Write(h, SqBaseLower, dma.sqLo, NoFault);
    var h2 := Write(h1, SqBaseUpper, dma.sqHi, NoFault);
    var h3 := Write(h2, CqBaseLower, dma.cqLo, NoFault);
    var h4 := Write(h3, CqBaseUpper, dma.cqHi, NoFault);
    Write(h4, RingSize, size, NoFault)
  }

  /** `mathaccel_init_dma`: the driver's indices go to zero and the device is told about the rings. */
  function InitDma(l: Link, dma: Dma): Link
    requires l.drv.size < 0x1_0000
  {
    Link(Driver(0, 0, 0, 0, l.drv.size), Program(l.hw, dma, l.drv.size))
  }

  /** The value written back to the flags register once interrupts and DMA are switched on. */
  function EnableBoth(r: Regs): U32 {
    BitOr((if r.intEnabled then 1 else 0) + (if r.dmaEnabled then 2 else 0), 3)
  }

  /** The two steps a probe and an error recovery share: rings, then flags. */
  function Configure(l: Link, dma: Dma): Link
    requires l.drv.size < 0x1_0000
  {
    var l1 := InitDma(l, dma);
    l1.(hw := Write(l1.hw, Flags, EnableBoth(l1.hw.regs), NoFault))
  }

  /** The device side of `mathaccel_irq_handle_error`: read the cause, reset, configure again. */
  function Recover(l: Link, dma: Dma): Link
    requires l.drv.size < 0x1_0000
  {
    var h1 := l.hw.(regs := l.hw.regs.(errorCause := {}));
    Configure(l.(hw := ResetDevice(h1)), dma)
  }

  /** The same with a reset that fails: the device keeps its state and its indices. */
  function ConfigureUnreset(l: Link, dma: Dma): Link
    requires l.drv.size < 0x1_0000
  {
    Configure(l.(hw := l.hw.(regs := l.hw.regs.(errorCause := {}))), dma)
  }

  datatype RegWrite = RegWrite(reg: Reg, val: U32, fault: Fault)

  /** Register writes one after the other, to a device in ERROR. */
  function WriteAll(h: Hw, writes: seq<RegWrite>): (h': Hw)
    requires h.regs.state.Error?
    ensures h'.regs.state.Error?
    decreases |writes|
  {
    if writes == [] then h
    else
      var a := writes[0];
      WriteAll(Write(h, a.reg, a.val, a.fault), writes[1..])
  }

  /** No write leads out of ERROR, reaches the ring memory, takes a command or raises an interrupt. */
  lemma {:induction false} ErrorHolds(h: Hw, writes: seq<RegWrite>)
    requires h.regs.state.Error?
    ensures var h' := WriteAll(h, writes);
      && h'.sq == h.sq && h'.cq == h.cq
      && h'.ring.sqHead == h.ring.sqHead && h'.ring.cqTail == h.ring.cqTail
      && h'.regs.irqs == h.regs.irqs && h'.regs.irqCause == h.regs.irqCause
      && h'.regs.errorCause == h.regs.errorCause
    decreases |writes|
  {
    if writes != [] {
      var a := writes[0];
      ErrorHolds(Write(h, a.reg, a.val, a.fault), writes[1..]);
    }
  }

  /**
    After such a recovery the device is in ERROR with no cause left to read, and whatever is
    written to its registers, it stays there and takes nothing, until something resets it.
  */
  lemma UnresetStaysInError(l: Link, dma: Dma, writes: seq<RegWrite>)
    requires 0 < l.drv.size < 0x1_0000 && DmaOk(dma) && l.hw.regs.state.Error?
    ensures ConfigureUnreset(l, dma).hw.regs.state.Error?
    ensures var h' := WriteAll(ConfigureUnreset(l, dma).hw, writes);
      && h'.regs.state.Error? && h'.regs.errorCause == {}
      && h'.regs.irqs == l.hw.regs.irqs && h'.regs.irqCause == l.hw.regs.irqCause
      && h'.sq == l.hw.sq && h'.cq == l.hw.cq
      && h'.ring.sqHead == l.hw.ring.sqHead && h'.ring.cqTail == l.hw.ring.cqTail
  {
    ConfigureEffect(l.(hw := l.hw.(regs := l.hw.regs.(errorCause := {}))), dma);
    ErrorHolds(ConfigureUnreset(l, dma).hw, writes);
  }

  /** Both ring addresses are real. */
  predicate DmaOk(dma: Dma) {
    Addr(dma.sqHi, dma.sqLo) != NULL && Addr(dma.cqHi, dma.cqLo) != NULL
  }

  /** Configuration leaves the device with exactly the addresses and size the driver holds. */
  lemma ConfigureEffect(l: Link, dma: Dma)
    requires 0 < l.drv.size < 0x1_0000 && DmaOk(dma)
    ensures var l' := Configure(l, dma);
      && l'.drv == Driver(0, 0, 0, 0, l.drv.size)
      && l'.hw.regs == l.hw.regs.(sqBase := Addr(dma.sqHi, dma.sqLo), cqBase := Addr(dma.cqHi, dma.cqLo),
                                  intEnabled := true, dmaEnabled := true)
      && l'.hw.ring == l.hw.ring.(size := l.drv.size)
      && l'.hw.sq == l.hw.sq && l'.hw.cq == l.hw.cq
      && JobRuns(l'.hw.regs)
  {
    FlagsOf(l.hw.regs);
  }

  lemma FlagsOf(r: Regs)
    ensures EnableBoth(r) == 3
  {
  }

  /** From any ERROR or READY state, recovery ends with the device READY and both sides at zero. */
  lemma RecoverEffect(l: Link, dma: Dma)
    requires 0 < l.drv.size < 0x1_0000 && DmaOk(dma)
    requires l.hw.regs.state.Error? || l.hw.regs.state.Ready?
    ensures var l' := Recover(l, dma);
      && l'.drv == Driver(0, 0, 0, 0, l.drv.size)
      && l'.hw.regs.state.Ready? && JobRuns(l'.hw.regs) && l'.hw.regs.intEnabled
      && l'.hw.regs.errorCause == {} && l'.hw.regs.irqCause == l.hw.regs.irqCause
      && l'.hw.ring == Ring(0, 0, 0, 0, l.drv.size)
      && l'.hw.sq == l.hw.sq && l'.hw.cq == l.hw.cq
  {
    var h1 := l.hw.(regs := l.hw.regs.(errorCause := {}));
    ResetLeavesReady(h1);
    ConfigureEffect(l.(hw := ResetDevice(h1)), dma);
  }
}
