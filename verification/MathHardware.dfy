/**
  The mathaccel device as a value: its registers, the two rings in memory, and what a
  register access does to them.  `MathDevice.dfy` holds the code that is proved to do
  exactly this.
*/
module MathHardware {
  import opened RingArith
  import opened MathOps
  import opened Wrappers

  datatype DevState = Reset | Ready | Busy | Error

  datatype Event =
    | EvtInit | EvtSubmitJob | EvtSubmitCmd | EvtJobDone | EvtCmdDone | EvtError | EvtReset

  /** The bits of the interrupt cause register; the empty set is "no interrupt". */
  datatype IrqBit = IrqJobDone | IrqCmdDone | IrqError

  /** The bits of the error cause register; the empty set is "no error". */
  datatype ErrBit = DmaRead | DmaWrite | DmaBadQueue | DmaDisabled | CmdUnknown | CmdExec

  /** What goes wrong while one job runs: the k-th read or the k-th write of the rings fails. */
  datatype Fault = NoFault | ReadFault(at: nat) | WriteFault(at: nat)

  /** A 64-bit bus address in the two halves it is written in. */
  datatype Addr = Addr(hi: nat, lo: nat)

  type U32 = x: nat | x < 0x1_0000_0000

  const NULL := Addr(0, 0)

  /** The control registers of the device.  `irqs` counts the interrupts it has triggered. */
  datatype Regs = Regs(
    cmd: nat, arg0: int, arg1: int,
    state: DevState, intEnabled: bool, dmaEnabled: bool,
    irqCause: set<IrqBit>, errorCause: set<ErrBit>,
    sqBase: Addr, cqBase: Addr, irqs: nat)

  /** The ring registers: head and tail of the two rings, and their common size. */
  datatype Ring = Ring(sqHead: nat, sqTail: nat, cqHead: nat, cqTail: nat, size: nat)

  /** Registers together with the ring memory the device reads and writes by DMA. */
  datatype Hw = Hw(regs: Regs, ring: Ring, sq: seq<SqEntry>, cq: seq<CqEntry>)

  const POWER_ON :=
    Regs(0, 0, 0, Reset, false, false, {}, {}, NULL, NULL, 0)

  const EMPTY_RING := Ring(0, 0, 0, 0, 0)

  /** The transition table; `None` is an illegal transition. */
  function NextState(state: DevState, evt: Event): Option<DevState> {
    match (state, evt)
    case (Reset, EvtInit) => Some(Ready)
    case (Ready, EvtSubmitJob) => Some(Busy)
    case (Ready, EvtSubmitCmd) => Some(Busy)
    case (Ready, EvtReset) => Some(Reset)
    case (Ready, EvtError) => Some(Error)
    case (Busy, EvtJobDone) => Some(Ready)
    case (Busy, EvtCmdDone) => Some(Ready)
    case (Busy, EvtError) => Some(Error)
    case (Error, EvtReset) => Some(Reset)
    case _ => None
  }

  /** The ring registers index the memory they are meant to index. */
  predicate Bounded(h: Hw) {
    && 0 < h.ring.size <= |h.sq|
    && h.ring.size <= |h.cq|
    && h.ring.sqHead < h.ring.size
    && h.ring.sqTail < h.ring.size
    && h.ring.cqTail < h.ring.size
  }

  /** Entries waiting in the submission ring. */
  function Waiting(h: Hw): nat
    requires Bounded(h)
  {
    Gap(h.ring.sqHead, h.ring.sqTail, h.ring.size)
  }

  /** The submission head moves past one entry. */
  function ReadOne(h: Hw): Hw
    requires Bounded(h)
  {
    h.(ring := h.ring.(sqHead := Next(h.ring.sqHead, h.ring.size)))
  }

  /** A completion goes to the slot at the completion tail, which moves past it. */
  function WriteOne(h: Hw, e: CqEntry): Hw
    requires Bounded(h)
  {
    h.(cq := h.cq[h.ring.cqTail := e],
       ring := h.ring.(cqTail := Next(h.ring.cqTail, h.ring.size)))
  }

  /** The completion due to the command at the submission head. */
  function Answer(h: Hw): CqEntry
    requires Bounded(h)
  {
    Execute(h.sq[h.ring.sqHead])
  }

  /** One command is taken, executed and answered. */
  function ConsumeOne(h: Hw): (h': Hw)
    requires Bounded(h)
    ensures Bounded(h') && h'.ring.size == h.ring.size
    ensures h'.regs == h.regs && h'.sq == h.sq && |h'.cq| == |h.cq|
  {
    WriteOne(ReadOne(h), Answer(h))
  }

  /** The next `k` commands are taken, executed and answered, in ring order. */
  function ConsumeN(h: Hw, k: nat): (h': Hw)
    requires Bounded(h)
    ensures Bounded(h') && h'.ring.size == h.ring.size
    ensures h'.regs == h.regs && h'.sq == h.sq && |h'.cq| == |h.cq|
  {
    if k == 0 then h else ConsumeOne(ConsumeN(h, k - 1))
  }

  function TriggerIrq(r: Regs): Regs {
    if r.intEnabled then r.(irqs := r.irqs + 1) else r
  }

  /** The entry action of the ERROR state. */
  function RaiseError(r: Regs): Regs {
    TriggerIrq(r.(irqCause := r.irqCause + {IrqError}))
  }

  function EnterError(r: Regs, why: ErrBit): Regs {
    RaiseError(r.(errorCause := r.errorCause + {why}, state := Error))
  }

  function Complete(r: Regs, what: IrqBit): Regs {
    TriggerIrq(r.(irqCause := r.irqCause + {what}, state := Ready))
  }

  /** How a DMA job ends: the commands it answers, and the state it leaves the device in. */
  function JobResult(h: Hw, fault: Fault): Hw
    requires Bounded(h)
  {
    var n := Waiting(h);
    if fault.ReadFault? && fault.at < n then
      var h' := ConsumeN(h, fault.at);
      h'.(regs := EnterError(h'.regs, DmaRead))
    else if fault.WriteFault? && fault.at < n then
      var h' := ReadOne(ConsumeN(h, fault.at));
      h'.(regs := EnterError(h'.regs, DmaWrite))
    else
      var h' := ConsumeN(h, n);
      h'.(regs := Complete(h'.regs, IrqJobDone))
  }

  /** A doorbell reaches the rings only when DMA is on and both queues are configured. */
  predicate JobRuns(r: Regs) {
    r.dmaEnabled && r.sqBase != NULL && r.cqBase != NULL
  }

  /** The effect of SUBMIT_JOB, from the moment the device has become BUSY. */
  function JobEffect(h: Hw, fault: Fault): Hw
    requires JobRuns(h.regs) ==> Bounded(h)
  {
    if !h.regs.dmaEnabled then h.(regs := EnterError(h.regs, DmaDisabled))
    else if h.regs.sqBase == NULL || h.regs.cqBase == NULL then h.(regs := EnterError(h.regs, DmaBadQueue))
    else JobResult(h, fault)
  }

  /** The effect of SUBMIT_CMD, from the moment the device has become BUSY. */
  function CmdEffect(r: Regs): Regs {
    if r.cmd == MATH_OP_COUNT then EnterError(r, CmdUnknown)
    else
      var res := Execute(SqEntry(r.cmd, 0xFFFF_FFFF, r.arg0, r.arg1));
      if res.status == COMPLETION_SUCCESS
      then Complete(r.(arg0 := res.result, cmd := MATH_OP_COUNT), IrqCmdDone)
      else EnterError(r, CmdExec)
  }

  function ClearRing(r: Ring): Ring {
    r.(sqHead := 0, sqTail := 0, cqHead := 0, cqTail := 0)
  }

  function ClearControl(r: Regs): Regs {
    r.(intEnabled := false, dmaEnabled := false, arg0 := 0, arg1 := 0,
                   cmd := MATH_OP_COUNT, sqBase := NULL, cqBase := NULL)
  }

  function SetState(h: Hw, state: DevState): Hw {
    h.(regs := h.regs.(state := state))
  }

  /** What an event does once everything it sets off has run. */
  function Dispatch(h: Hw, evt: Event, fault: Fault): Hw
    requires evt.EvtSubmitJob? && h.regs.state.Ready? && JobRuns(h.regs) ==> Bounded(h)
  {
    match NextState(h.regs.state, evt)
    case None => h
    case Some(next) =>
      var h1 := SetState(h, next);
      match evt
      case EvtInit => h1.(ring := ClearRing(h1.ring))
      case EvtReset => h1.(regs := ClearControl(h1.regs), ring := ClearRing(h1.ring))
      case EvtSubmitJob => JobEffect(h1, fault)
      case EvtSubmitCmd => h1.(regs := CmdEffect(h1.regs))
      case EvtJobDone | EvtCmdDone => h1.(regs := TriggerIrq(h1.regs))
      case EvtError => h1.(regs := RaiseError(h1.regs))
  }

  lemma ErrorFromBusy(h: Hw, why: ErrBit, fault: Fault)
    requires h.regs.state.Busy?
    ensures Dispatch(h.(regs := h.regs.(errorCause := h.regs.errorCause + {why})), EvtError, fault)
            == h.(regs := EnterError(h.regs, why))
  {
  }

  lemma DoneFromBusy(h: Hw, what: IrqBit, evt: Event, fault: Fault)
    requires h.regs.state.Busy? && (evt.EvtJobDone? || evt.EvtCmdDone?)
    ensures Dispatch(h.(regs := h.regs.(irqCause := h.regs.irqCause + {what})), evt, fault)
            == h.(regs := Complete(h.regs, what))
  {
  }

  /** The writable registers of BAR0. */
  datatype Reg =
    | Arg1 | Arg2 | Cmd | Flags
    | SqBaseLower | SqBaseUpper | CqBaseLower | CqBaseUpper
    | SqTail | CqHead | RingSize | Other

  /** Bit 0 enables interrupts and bit 1 enables DMA. */
  function SetFlags(r: Regs, val: U32): Regs {
    r.(intEnabled := val % 2 == 1, dmaEnabled := val / 2 % 2 == 1)
  }

  /** Writing the lower half clears the upper one. */
  function SetLower(val: U32): Addr {
    Addr(0, val)
  }

  /** Writing the upper half adds its bits to those already there. */
  function SetUpper(base: Addr, val: U32): Addr {
    base.(hi := BitOr(base.hi, val))
  }

  /** The bitwise "or" of two numbers. */
  function BitOr(a: nat, b: nat): (r: nat)
    ensures a == 0 ==> r == b
  {
    if a == 0 then b
    else 2 * BitOr(a / 2, b / 2) + (if a % 2 == 1 || b % 2 == 1 then 1 else 0)
  }

  function ToS32(val: U32): int {
    WrapS32(val)
  }

  /** A 32-bit value as a 16-bit register keeps it. */
  function ToU16(val: U32): nat {
    val % 0x1_0000
  }

  /** The device just before a doorbell value is acted on. */
  function WithTail(h: Hw, val: U32): Hw {
    h.(ring := h.ring.(sqTail := ToU16(val)))
  }

  /** A doorbell that would run a job names a slot of the ring. */
  predicate WriteOk(h: Hw, reg: Reg, val: U32) {
    reg.SqTail? && h.regs.state.Ready? && JobRuns(h.regs) ==> Bounded(WithTail(h, val))
  }

  /** A 32-bit write to BAR0. */
  function Write(h: Hw, reg: Reg, val: U32, fault: Fault): Hw
    requires WriteOk(h, reg, val)
  {
    var r := h.regs;
    match reg
    case Arg1 => h.(regs := r.(arg0 := ToS32(val)))
    case Arg2 => h.(regs := r.(arg1 := ToS32(val)))
    case Cmd => Dispatch(h.(regs := r.(cmd := val)), EvtSubmitCmd, fault)
    case Flags => h.(regs := SetFlags(r, val))
    case SqBaseLower => h.(regs := r.(sqBase := SetLower(val)))
    case SqBaseUpper => h.(regs := r.(sqBase := SetUpper(r.sqBase, val)))
    case CqBaseLower => h.(regs := r.(cqBase := SetLower(val)))
    case CqBaseUpper => h.(regs := r.(cqBase := SetUpper(r.cqBase, val)))
    case SqTail => Dispatch(WithTail(h, val), EvtSubmitJob, fault)
    case CqHead => h.(ring := h.ring.(cqHead := ToU16(val)))
    case RingSize => h.(ring := h.ring.(size := ToU16(val)))
    case Other => h
  }

  /** A device-level reset: RESET, then INIT. */
  function ResetDevice(h: Hw): Hw {
    var h1 := Dispatch(h, EvtReset, NoFault);
    if NextState(h.regs.state, EvtReset).None? then h1
    else Dispatch(h1, EvtInit, NoFault)
  }

  // ---- What the functions above mean -------------------------------------------------

  /** Between accesses the device is never BUSY. */
  predicate Settled(h: Hw) {
    !h.regs.state.Busy?
  }

  /** An ERROR that nobody has looked at yet says what went wrong and asks for an interrupt. */
  predicate ErrorExplained(r: Regs) {
    r.errorCause != {} && IrqError in r.irqCause
  }

  /** Causes are only added, and an ERROR interrupt is asked for only by entering ERROR. */
  predicate CausesKept(r: Regs, r': Regs) {
    && r.errorCause <= r'.errorCause && r.irqCause <= r'.irqCause
    && (IrqError in r'.irqCause && IrqError !in r.irqCause ==> r'.state.Error?)
  }

  /** What an access may do to the state of a device whose registers were `r`. */
  predicate SettlesFrom(r: Regs, r': Regs) {
    && !r'.state.Busy?
    && (r'.state.Error? && !r.state.Error? ==> ErrorExplained(r'))
    && (r.state.Error? ==> r'.state.Error? && r'.errorCause == r.errorCause && r'.irqCause == r.irqCause)
    && (r'.state.Reset? <==> r.state.Reset?)
    && CausesKept(r, r')
  }

  lemma ErrorSettles(r: Regs, why: ErrBit)
    ensures EnterError(r, why).state.Error? && ErrorExplained(EnterError(r, why))
    ensures CausesKept(r, EnterError(r, why))
  {
    assert why in EnterError(r, why).errorCause;
  }

  /** A job ends in READY, or in ERROR with its reason. */
  lemma JobSettles(h: Hw, fault: Fault)
    requires JobRuns(h.regs) ==> Bounded(h)
    ensures var r := JobEffect(h, fault).regs;
      (r.state.Ready? || (r.state.Error? && ErrorExplained(r))) && CausesKept(h.regs, r)
  {
    hide ConsumeN, Execute, Gap;
    ErrorSettles(h.regs, DmaDisabled);
    ErrorSettles(h.regs, DmaBadQueue);
    ErrorSettles(h.regs, DmaRead);
    ErrorSettles(h.regs, DmaWrite);
  }

  lemma CmdSettles(r: Regs)
    ensures CmdEffect(r).state.Ready? || (CmdEffect(r).state.Error? && ErrorExplained(CmdEffect(r)))
    ensures CausesKept(r, CmdEffect(r))
  {
    ErrorSettles(r, CmdUnknown);
    ErrorSettles(r, CmdExec);
  }

  /**
    Run to completion: whatever is written, every event set off has been handled when the
    write returns; the device is in RESET, READY or ERROR, and it got to ERROR only with
    a cause and an interrupt request.
  */
  lemma WriteSettles(h: Hw, reg: Reg, val: U32, fault: Fault)
    requires WriteOk(h, reg, val) && Settled(h)
    ensures SettlesFrom(h.regs, Write(h, reg, val, fault).regs)
  {
    hide JobEffect, CmdEffect, BitOr;
    if reg.SqTail? && h.regs.state.Ready? {
      JobSettles(SetState(WithTail(h, val), Busy), fault);
    } else if reg.Cmd? && h.regs.state.Ready? {
      CmdSettles(h.regs.(cmd := val, state := Busy));
    }
  }

  /** An access raises an interrupt only by entering ERROR or with a completion as its cause. */
  predicate RaisesFor(r: Regs, r': Regs) {
    && r.irqs <= r'.irqs
    && (r.irqs != r'.irqs ==>
          || (r'.state.Error? && !r.state.Error?)
          || IrqJobDone in r'.irqCause || IrqCmdDone in r'.irqCause)
  }

  lemma WriteRaises(h: Hw, reg: Reg, val: U32, fault: Fault)
    requires WriteOk(h, reg, val) && Settled(h)
    ensures RaisesFor(h.regs, Write(h, reg, val, fault).regs)
  {
    hide ConsumeN, Execute, Gap, BitOr;
  }

  // ---- How an access ends, by the bits it leaves -------------------------------------------

  /** One more interrupt if they are enabled. */
  predicate Signalled(r: Regs, r': Regs) {
    r'.irqs == if r.intEnabled then r.irqs + 1 else r.irqs
  }

  /** From `r` into ERROR, with exactly this cause added and the ERROR interrupt asked for. */
  predicate EndsInError(r: Regs, r': Regs, why: ErrBit) {
    && r'.state == Error && Signalled(r, r')
    && (forall b :: b in r'.errorCause <==> b in r.errorCause || b == why)
    && (forall b :: b in r'.irqCause <==> b in r.irqCause || b == IrqError)
  }

  /** From `r` back to READY, with exactly this interrupt asked for. */
  predicate EndsReady(r: Regs, r': Regs, what: IrqBit) {
    && r'.state == Ready && Signalled(r, r') && r'.errorCause == r.errorCause
    && (forall b :: b in r'.irqCause <==> b in r.irqCause || b == what)
  }

  /** Enabling, addresses and arguments, which a doorbell leaves alone. */
  predicate SameSetup(r: Regs, r': Regs) {
    && r'.intEnabled == r.intEnabled && r'.dmaEnabled == r.dmaEnabled
    && r'.sqBase == r.sqBase && r'.cqBase == r.cqBase
    && r'.cmd == r.cmd && r'.arg0 == r.arg0 && r'.arg1 == r.arg1
  }

  /** Each way a doorbell can end has a cause of its own; a job that meets no fault ends with JobDone. */
  lemma DoorbellOutcome(h: Hw, val: U32, fault: Fault)
    requires h.regs.state.Ready? && WriteOk(h, SqTail, val)
    ensures var r, r' := h.regs, Write(h, SqTail, val, fault).regs;
      && SameSetup(r, r')
      && if !r.dmaEnabled then EndsInError(r, r', DmaDisabled)
         else if r.sqBase == Addr(0, 0) || r.cqBase == Addr(0, 0) then EndsInError(r, r', DmaBadQueue)
         else
           var n := Waiting(WithTail(h, val));
           if fault.ReadFault? && fault.at < n then EndsInError(r, r', DmaRead)
           else if fault.WriteFault? && fault.at < n then EndsInError(r, r', DmaWrite)
           else EndsReady(r, r', IrqJobDone)
  {
    hide ConsumeN, Execute, Gap;
  }

  /**
    A command written to the legacy register: 4 is none, an opcode beyond or a division by
    zero fails to execute, and any other leaves its result in the first argument register.
  */
  lemma CommandOutcome(h: Hw, val: U32, fault: Fault)
    requires h.regs.state.Ready?
    ensures var r, h' := h.regs, Write(h, Cmd, val, fault); var r' := h'.regs;
      && h' == h.(regs := r') && r'.arg1 == r.arg1
      && r'.intEnabled == r.intEnabled && r'.dmaEnabled == r.dmaEnabled
      && r'.sqBase == r.sqBase && r'.cqBase == r.cqBase
      && if val == 4 then EndsInError(r, r', CmdUnknown) && r'.arg0 == r.arg0
         else if val > 4 || (val == 3 && r.arg1 == 0) then EndsInError(r, r', CmdExec) && r'.arg0 == r.arg0
         else EndsReady(r, r', IrqCmdDone) && r'.cmd == 4 && IsAnswer(val, r.arg0, r.arg1, 1, r'.arg0)
  {
    ExecuteAnswers(SqEntry(val, 0xFFFF_FFFF, h.regs.arg0, h.regs.arg1));
    hide Execute, IsQuotient, IsLow32, WrapS32;
  }

  /** In any other state both are refused, and only the register written keeps a trace. */
  lemma RefusedOutcome(h: Hw, val: U32, fault: Fault)
    requires !h.regs.state.Ready?
    ensures Write(h, SqTail, val, fault) == h.(ring := h.ring.(sqTail := val % 0x1_0000))
    ensures Write(h, Cmd, val, fault) == h.(regs := h.regs.(cmd := val))
  {
  }

  /** Two arguments and a command, written one after the other: the first argument register has the answer. */
  lemma LegacyCall(h: Hw, x: U32, y: U32, op: U32, fault: Fault)
    requires h.regs.state.Ready? && op < 4 && !(op == 3 && WrapS32(y) == 0)
    ensures var h' := Write(Write(Write(h, Arg1, x, fault), Arg2, y, fault), Cmd, op, fault);
      && h'.regs.state.Ready? && IrqCmdDone in h'.regs.irqCause
      && IsAnswer(op, WrapS32(x), WrapS32(y), 1, h'.regs.arg0) && h'.regs.arg1 == WrapS32(y)
  {
    var h2 := Write(Write(h, Arg1, x, fault), Arg2, y, fault);
    assert h2.regs.arg0 == WrapS32(x) && h2.regs.arg1 == WrapS32(y) && h2.regs.state.Ready?;
    hide WrapS32, IsAnswer, Write;
    CommandOutcome(h2, op, fault);
  }

  predicate BitAt(x: nat, k: nat) {
    if k == 0 then x % 2 == 1 else BitAt(x / 2, k - 1)
  }

  lemma {:induction false} BitOrIs(a: nat, b: nat, k: nat)
    ensures BitAt(BitOr(a, b), k) <==> BitAt(a, k) || BitAt(b, k)
    decreases k
  {
    if a == 0 {
      ZeroHasNoBits(k);
    } else if k > 0 {
      BitOrIs(a / 2, b / 2, k - 1);
      assert BitOr(a, b) / 2 == BitOr(a / 2, b / 2);
    }
  }

  lemma {:induction false} ZeroHasNoBits(k: nat)
    ensures !BitAt(0, k)
  {
    if k > 0 {
      ZeroHasNoBits(k - 1);
    }
  }

  /**
    The upper half of a ring address gains the bits written to it, and writing the lower half
    clears it; each ring has its own.
  */
  lemma AddressWrites(h: Hw, val: U32, fault: Fault, k: nat)
    ensures var r := Write(h, SqBaseUpper, val, fault).regs;
      r == h.regs.(sqBase := Addr(r.sqBase.hi, h.regs.sqBase.lo))
      && (BitAt(r.sqBase.hi, k) <==> BitAt(h.regs.sqBase.hi, k) || BitAt(val, k))
    ensures var r := Write(h, CqBaseUpper, val, fault).regs;
      r == h.regs.(cqBase := Addr(r.cqBase.hi, h.regs.cqBase.lo))
      && (BitAt(r.cqBase.hi, k) <==> BitAt(h.regs.cqBase.hi, k) || BitAt(val, k))
    ensures Write(h, SqBaseLower, val, fault).regs == h.regs.(sqBase := Addr(0, val))
    ensures Write(h, CqBaseLower, val, fault).regs == h.regs.(cqBase := Addr(0, val))
  {
    hide BitOr, BitAt;
    BitOrIs(h.regs.sqBase.hi, val, k);
    BitOrIs(h.regs.cqBase.hi, val, k);
  }

  /** The other plain registers take what is written, in 16 bits where they have no more. */
  lemma PlainWrites(h: Hw, val: U32, fault: Fault)
    ensures Write(h, Flags, val, fault).regs == h.regs.(intEnabled := BitAt(val, 0), dmaEnabled := BitAt(val, 1))
    ensures Write(h, CqHead, val, fault) == h.(ring := h.ring.(cqHead := val % 0x1_0000))
    ensures Write(h, RingSize, val, fault) == h.(ring := h.ring.(size := val % 0x1_0000))
    ensures Write(h, Other, val, fault) == h
  {
    assert BitAt(val, 1) == BitAt(val / 2, 0);
  }

  /** The state machine by the states it reaches, and by nothing else. */
  lemma StatesReached(s: DevState, e: Event)
    ensures NextState(s, e) == Some(Ready) <==>
            (s == Reset && e == EvtInit) || (s == Busy && (e == EvtJobDone || e == EvtCmdDone))
    ensures NextState(s, e) == Some(Busy) <==> s == Ready && (e == EvtSubmitJob || e == EvtSubmitCmd)
    ensures NextState(s, e) == Some(Error) <==> (s == Ready || s == Busy) && e == EvtError
    ensures NextState(s, e) == Some(Reset) <==> (s == Ready || s == Error) && e == EvtReset
  {
  }

  /** The submission head after the consume loop has gone round `k` times. */
  function HeadAfter(head: nat, k: nat, n: nat): nat
    requires head < n
  {
    Slot(head + k, n)
  }

  /** The consume loop can reach its exit test exactly when the tail names a slot of the ring. */
  lemma ConsumeLoopExits(head: nat, tail: nat, n: nat)
    requires head < n
    ensures (exists k: nat :: HeadAfter(head, k, n) == tail) <==> tail < n
  {
    if tail < n {
      var k := Gap(head, tail, n);
      assert Slot(tail, n) == tail;
      assert head > tail ==> Slot(head + k, n) == Slot(tail, n);
      assert HeadAfter(head, k, n) == tail;
    }
  }

  /** Reset takes a device out of ERROR or READY and leaves it READY, unconfigured, with empty rings. */
  lemma ResetLeavesReady(h: Hw)
    requires h.regs.state.Error? || h.regs.state.Ready?
    ensures var r := ResetDevice(h).regs;
      && r.state == Ready
      && !r.intEnabled && !r.dmaEnabled && !JobRuns(r)
      && r.arg0 == r.arg1 == 0 && r.cmd == 4 && r.sqBase == r.cqBase == Addr(0, 0)
      && r.irqCause == h.regs.irqCause && r.errorCause == h.regs.errorCause && r.irqs == h.regs.irqs
    ensures ResetDevice(h).ring == Ring(0, 0, 0, 0, h.ring.size)
    ensures ResetDevice(h).sq == h.sq && ResetDevice(h).cq == h.cq
  {
  }

  /** The submission slot `j` entries past the head, and the completion slot `j` past the tail. */
  function SqSlot(h: Hw, j: nat): nat
    requires Bounded(h)
  {
    Slot(h.ring.sqHead + j, h.ring.size)
  }

  function CqSlot(h: Hw, j: nat): nat
    requires Bounded(h)
  {
    Slot(h.ring.cqTail + j, h.ring.size)
  }

  /** Completion slot `i` is none of the `k` slots that follow the completion tail. */
  ghost predicate Untouched(h: Hw, k: nat, i: nat)
    requires Bounded(h)
  {
    forall j: nat | j < k :: i != CqSlot(h, j)
  }

  lemma {:induction false} ConsumeRegisters(h: Hw, k: nat)
    requires Bounded(h)
    ensures ConsumeN(h, k).ring == h.ring.(sqHead := SqSlot(h, k), cqTail := CqSlot(h, k))
  {
    if k > 0 {
      var p, n := ConsumeN(h, k - 1), h.ring.size;
      ConsumeRegisters(h, k - 1);
      StepRegisters(p);
      hide ConsumeOne;
      assert Next(p.ring.sqHead, n) == SqSlot(h, k) by { SlotSucc(h.ring.sqHead + k - 1, n); }
      assert Next(p.ring.cqTail, n) == CqSlot(h, k) by { SlotSucc(h.ring.cqTail + k - 1, n); }
    }
  }

  lemma ConsumeOneAdvances(h: Hw)
    requires Bounded(h) && Waiting(h) > 0
    ensures Waiting(ConsumeOne(h)) == Waiting(h) - 1
  {
    StepRegisters(h);
    GapNext(h.ring.sqHead, h.ring.sqTail, h.ring.size);
  }

  lemma StepRegisters(h: Hw)
    requires Bounded(h)
    ensures ConsumeOne(h).ring == h.ring.(sqHead := Next(h.ring.sqHead, h.ring.size),
                                          cqTail := Next(h.ring.cqTail, h.ring.size))
  {
  }

  lemma ConsumeLast(h: Hw, k: nat)
    requires Bounded(h) && k > 0
    ensures ConsumeN(h, k).cq
            == ConsumeN(h, k - 1).cq[CqSlot(h, k - 1) := Execute(h.sq[SqSlot(h, k - 1)])]
  {
    ConsumeRegisters(h, k - 1);
  }

  lemma CqSlotsDiffer(h: Hw, j: nat, k: nat)
    requires Bounded(h) && j < k < h.ring.size
    ensures CqSlot(h, j) != CqSlot(h, k)
  {
    if CqSlot(h, j) == CqSlot(h, k) {
      SlotInjective(h.ring.cqTail + j, h.ring.cqTail + k, h.ring.size);
    }
  }

  /**
    The closed form of a job: after `k` commands the head and the completion tail have
    moved `k` slots, the completion slot `j` past the tail answers the command in the
    submission slot `j` past the head, and nothing else has changed.
  */
  lemma {:induction false} ConsumeClosedForm(h: Hw, k: nat)
    requires Bounded(h) && k <= h.ring.size
    ensures ConsumeN(h, k).ring == h.ring.(sqHead := SqSlot(h, k), cqTail := CqSlot(h, k))
    ensures forall j: nat | j < k :: ConsumeN(h, k).cq[CqSlot(h, j)] == Execute(h.sq[SqSlot(h, j)])
    ensures forall i: nat | i < |h.cq| && Untouched(h, k, i) :: ConsumeN(h, k).cq[i] == h.cq[i]
  {
    ConsumeRegisters(h, k);
    if k > 0 {
      ConsumeClosedForm(h, k - 1);
      ConsumeLast(h, k);
      forall j: nat | j < k - 1
        ensures ConsumeN(h, k).cq[CqSlot(h, j)] == Execute(h.sq[SqSlot(h, j)])
      {
        CqSlotsDiffer(h, j, k - 1);
      }
      forall i: nat | i < |h.cq| && Untouched(h, k, i)
        ensures ConsumeN(h, k).cq[i] == h.cq[i]
      {
        assert i != CqSlot(h, k - 1);
        assert Untouched(h, k - 1, i);
      }
    }
  }
}
