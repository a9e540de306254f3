/**
  How an ERROR indication travels from the device to the kernel thread: the interrupt cause
  register, the top half's read and store, the cached cause, and the thread's exchange.
  Register writes of any kind may come between any two of these steps.
*/
module ErrorPath {
  import opened MathOps
  import opened MathHardware
  import opened MathRings
  import opened MathDriver
  import opened Wrappers

  /** The kernel thread: idle, holding a cause it took, past the error read, or past the reset. */
  datatype Thread = Idle | Got(cause: set<IrqBit>) | Resetting | Reconfiguring

  /**
    `served` counts the interrupts that the top half has answered, of those the device has
    raised; `top` is a cause it has read and not yet stored; `bug` is the thread's assertion
    failing.
  */
  datatype Path = Path(
    hw: Hw, served: nat, top: Option<set<IrqBit>>, cached: set<IrqBit>, thread: Thread, bug: bool)

  datatype Step =
    | Access(reg: Reg, val: U32, fault: Fault)
    | TopRead | TopStore
    | ThreadTake | ThreadAct | ThreadReset | ThreadResetFails | ThreadConfigure(dma: Dma, size: nat)
    | OutsideReset

  /** The top half runs for an interrupt that has been raised, and for nothing else. */
  predicate Announced(p: Path) {
    p.served < p.hw.regs.irqs
  }

  /** The device after the thread has set up the rings and switched both flags on. */
  function Configured(h: Hw, dma: Dma, size: nat): Hw
    requires size < 0x1_0000
  {
    Configure(Link(Driver(0, 0, 0, 0, size), h), dma).hw
  }

  lemma ConfiguredKeeps(h: Hw, dma: Dma, size: nat)
    requires 0 < size < 0x1_0000 && DmaOk(dma)
    ensures var r := Configured(h, dma, size).regs;
      && r.state == h.regs.state && r.irqs == h.regs.irqs
      && r.irqCause == h.regs.irqCause && r.errorCause == h.regs.errorCause
  {
    ConfigureEffect(Link(Driver(0, 0, 0, 0, size), h), dma);
  }

  function Do(p: Path, step: Step): Path {
    match step
    case Access(reg, val, fault) =>
      if WriteOk(p.hw, reg, val) then p.(hw := Write(p.hw, reg, val, fault)) else p
    case TopRead =>
      if p.top.None? && Announced(p)
      then p.(served := p.served + 1, top := Some(p.hw.regs.irqCause), hw := p.hw.(regs := p.hw.regs.(irqCause := {})))
      else p
    case TopStore =>
      if p.top.Some? then p.(cached := p.top.value, top := None) else p
    case ThreadTake =>
      if p.thread.Idle? && p.cached != {} then p.(thread := Got(p.cached), cached := {}) else p
    case ThreadAct =>
      if !p.thread.Got? then p
      else if !WorkFor(p.thread.cause).HandleTheError? then p.(thread := Idle)
      else p.(bug := p.bug || p.hw.regs.errorCause == {},
              hw := p.hw.(regs := p.hw.regs.(errorCause := {})), thread := Resetting)
    case ThreadReset =>
      if p.thread.Resetting? then p.(hw := ResetDevice(p.hw), thread := Reconfiguring) else p
    case ThreadResetFails =>
      if p.thread.Resetting? then p.(thread := Reconfiguring) else p
    case ThreadConfigure(dma, size) =>
      if p.thread.Reconfiguring? && DmaOk(dma) && 0 < size < 0x1_0000
      then p.(hw := Configured(p.hw, dma, size), thread := Idle) else p
    case OutsideReset =>
      p.(hw := ResetDevice(p.hw))
  }

  function Run(p: Path, steps: seq<Step>): Path
    decreases |steps|
  {
    if steps == [] then p else Do(Run(p, steps[..|steps| - 1]), steps[|steps| - 1])
  }

  // ---- Indications that will be acted on -------------------------------------------------

  /** Only a cause of the one bit is acted on; a combined one is dropped by the thread. */
  function Live(cause: set<IrqBit>): nat {
    if cause == {IrqError} then 1 else 0
  }

  /** One in the register counts only while an interrupt brings the top half to read it. */
  function LiveInRegister(p: Path): nat {
    if Announced(p) then Live(p.hw.regs.irqCause) else 0
  }

  /** ERROR indications on their way to the thread's error handling. */
  function LiveOut(p: Path): nat {
    LiveInRegister(p)
    + (if p.top.Some? then Live(p.top.value) else 0)
    + Live(p.cached)
    + (if p.thread.Got? then Live(p.thread.cause) else 0)
  }

  /**
    At most one such indication is under way; while one is, or while the thread is about to
    reset the device, the device is in ERROR; and while one is, the reason is still there
    to be read.
  */
  predicate PathInv(p: Path) {
    && Settled(p.hw) && !p.bug && p.served <= p.hw.regs.irqs
    && LiveOut(p) <= 1
    && (LiveOut(p) == 1 ==> p.hw.regs.state.Error? && p.hw.regs.errorCause != {})
    && (p.thread.Resetting? ==> p.hw.regs.state.Error? && LiveOut(p) == 0)
  }

  /** A reset from outside is harmless while no indication is under way and none is being handled. */
  predicate Harmless(p: Path, step: Step) {
    step.OutsideReset? ==> LiveOut(p) == 0 && !p.thread.Resetting?
  }

  predicate HarmlessRun(p: Path, steps: seq<Step>)
    decreases |steps|
  {
    steps == [] ||
    (var before := steps[..|steps| - 1];
     HarmlessRun(p, before) && Harmless(Run(p, before), steps[|steps| - 1]))
  }

  /** Runs in which nothing but the driver resets the device. */
  predicate DriverOnly(steps: seq<Step>) {
    forall i | 0 <= i < |steps| :: !steps[i].OutsideReset?
  }

  lemma ResetEffect(h: Hw)
    requires Settled(h)
    ensures var r := ResetDevice(h).regs;
      && Settled(ResetDevice(h)) && !r.state.Error?
      && r.irqs == h.regs.irqs
      && r.irqCause == h.regs.irqCause && r.errorCause == h.regs.errorCause
  {
    if !h.regs.state.Reset? {
      ResetLeavesReady(h);
    }
  }

  lemma StepKeepsPath(p: Path, step: Step)
    requires PathInv(p) && Harmless(p, step)
    ensures PathInv(Do(p, step))
  {
    hide Write, ResetDevice, Configured;
    match step {
      case Access(reg, val, fault) =>
        if WriteOk(p.hw, reg, val) {
          WriteSettles(p.hw, reg, val, fault);
          WriteRaises(p.hw, reg, val, fault);
        }
      case ThreadReset =>
        ResetEffect(p.hw);
      case ThreadConfigure(dma, size) =>
        if DmaOk(dma) && 0 < size < 0x1_0000 {
          ConfiguredKeeps(p.hw, dma, size);
        }
      case OutsideReset =>
        ResetEffect(p.hw);
      case _ =>
    }
  }

  /**
    The driver's assertion that an error has a cause does not fail in runs whose outside
    resets all come at a harmless moment.
  */
  lemma {:induction false} AssertionHolds(p: Path, steps: seq<Step>)
    requires PathInv(p) && HarmlessRun(p, steps)
    ensures PathInv(Run(p, steps)) && !Run(p, steps).bug
    decreases |steps|
  {
    if steps != [] {
      AssertionHolds(p, steps[..|steps| - 1]);
      StepKeepsPath(Run(p, steps[..|steps| - 1]), steps[|steps| - 1]);
    }
  }

  /** Nor does it fail in runs in which nothing but the driver resets the device. */
  lemma {:induction false} DriverRunsAreHarmless(p: Path, steps: seq<Step>)
    requires DriverOnly(steps)
    ensures HarmlessRun(p, steps)
    decreases |steps|
  {
    if steps != [] {
      DriverRunsAreHarmless(p, steps[..|steps| - 1]);
    }
  }

  // ---- What a reset at any other moment leads to -------------------------------------------

  /** Some run without further outside resets makes the assertion fail. */
  ghost predicate CanFail(p: Path) {
    exists steps :: DriverOnly(steps) && Run(p, steps).bug
  }

  lemma {:induction false} RunFrom(p: Path, step: Step, steps: seq<Step>)
    ensures Run(p, [step] + steps) == Run(Do(p, step), steps)
    decreases |steps|
  {
    if steps == [] {
      assert [step] + steps == [step] && [step][..0] == [];
    } else {
      var front := steps[..|steps| - 1];
      assert ([step] + steps)[..|steps|] == [step] + front;
      RunFrom(p, step, front);
    }
  }

  lemma FailsAfter(p: Path, step: Step)
    requires !step.OutsideReset? && CanFail(Do(p, step))
    ensures CanFail(p)
  {
    var steps :| DriverOnly(steps) && Run(Do(p, step), steps).bug;
    RunFrom(p, step, steps);
    assert DriverOnly([step] + steps);
  }

  lemma FailsNow(p: Path)
    requires p.bug
    ensures CanFail(p)
  {
    assert Run(p, []) == p && DriverOnly([]);
  }

  const INTERRUPTS_ON := Access(Flags, 1, NoFault)
  const LEGACY_ADD := Access(Cmd, MATH_OP_ADD, NoFault)
  const DOORBELL := Access(SqTail, 0, NoFault)
  const CONFIGURE := ThreadConfigure(Dma(0, 0x1000, 0, 0x2000), 16)

  /** READY, with interrupts on and DMA off: the next doorbell is an error. */
  predicate Unready(r: Regs) {
    r.state.Ready? && r.intEnabled && !r.dmaEnabled
  }

  /** Driver and thread, which no access to the device touches. */
  predicate SameDriver(p: Path, p': Path) {
    && p'.served == p.served && p'.top == p.top && p'.cached == p.cached
    && p'.thread == p.thread && p'.bug == p.bug
  }

  lemma InterruptsOnEffect(p: Path)
    requires p.hw.regs.state.Ready?
    ensures var p' := Do(p, INTERRUPTS_ON);
      SameDriver(p, p') && Unready(p'.hw.regs) && p'.hw.regs.irqs == p.hw.regs.irqs
  {
  }

  /** A legacy addition raises an interrupt. */
  lemma LegacyAddEffect(p: Path)
    requires Unready(p.hw.regs)
    ensures var p' := Do(p, LEGACY_ADD);
      SameDriver(p, p') && Unready(p'.hw.regs) && p'.hw.regs.irqs == p.hw.regs.irqs + 1
  {
  }

  lemma DoorbellFails(p: Path)
    requires Unready(p.hw.regs)
    ensures var p' := Do(p, DOORBELL);
      && SameDriver(p, p') && p'.hw.regs.state.Error? && p'.hw.regs.irqs == p.hw.regs.irqs + 1
      && p'.hw.regs.errorCause == p.hw.regs.errorCause + {DmaDisabled}
      && p'.hw.regs.irqCause == p.hw.regs.irqCause + {IrqError}
  {
  }

  lemma ResetFromError(h: Hw)
    requires h.regs.state.Error?
    ensures var r := ResetDevice(h).regs;
      && r.state.Ready? && r.irqs == h.regs.irqs
      && r.irqCause == h.regs.irqCause && r.errorCause == h.regs.errorCause
  {
  }

  lemma ConfigureKeeps(p: Path)
    requires p.thread.Reconfiguring?
    ensures var p' := Do(p, CONFIGURE);
      && p'.served == p.served && p'.top == p.top && p'.cached == p.cached
      && p'.thread == Idle && p'.bug == p.bug
      && p'.hw.regs.state == p.hw.regs.state && p'.hw.regs.irqs == p.hw.regs.irqs
      && p'.hw.regs.irqCause == p.hw.regs.irqCause && p'.hw.regs.errorCause == p.hw.regs.errorCause
  {
    ConfiguredKeeps(p.hw, CONFIGURE.dma, CONFIGURE.size);
  }

  /** The thread takes an indication and finds the error cause empty. */
  lemma EmptyCauseFails(p: Path)
    requires p.thread.Idle? && p.cached == {IrqError} && p.hw.regs.errorCause == {}
    ensures CanFail(p)
  {
    var p1 := Do(p, ThreadTake);
    FailsNow(Do(p1, ThreadAct));
    FailsAfter(p1, ThreadAct);
    FailsAfter(p, ThreadTake);
  }

  /** The top half brings the indication from the register to the cache. */
  lemma BroughtFails(p: Path)
    requires p.thread.Idle? && p.top.None? && Announced(p)
    requires p.hw.regs.irqCause == {IrqError} && p.hw.regs.errorCause == {}
    ensures CanFail(p)
  {
    var p1 := Do(p, TopRead);
    EmptyCauseFails(Do(p1, TopStore));
    FailsAfter(p1, TopStore);
    FailsAfter(p, TopRead);
  }

  /** Two indications of errors, and the thread about to read the cause of both. */
  lemma TwiceFails(p: Path)
    requires p.thread == Got({IrqError}) && p.top.None? && Announced(p)
    requires p.hw.regs.irqCause == {IrqError} && p.hw.regs.state.Error?
    ensures CanFail(p)
  {
    hide ResetDevice, Write, Configured;
    var p1 := Do(p, ThreadAct);
    var p2 := Do(p1, ThreadReset);
    ResetFromError(p1.hw);
    ConfigureKeeps(p2);
    BroughtFails(Do(p2, CONFIGURE));
    FailsAfter(p2, CONFIGURE);
    FailsAfter(p1, ThreadReset);
    FailsAfter(p, ThreadAct);
  }

  /**
    From READY, without the thread: a completion whose interrupt empties the register, then an
    error. What was cached is overwritten.
  */
  function FreshError(p: Path): Path {
    var p1 := Do(Do(Do(p, TopStore), INTERRUPTS_ON), LEGACY_ADD);
    Do(Do(Do(p1, TopRead), TopStore), DOORBELL)
  }

  lemma FreshErrorEffect(p: Path)
    requires p.hw.regs.state.Ready? && p.served <= p.hw.regs.irqs
    ensures var p' := FreshError(p);
      && p'.thread == p.thread && p'.bug == p.bug && p'.top.None? && Announced(p')
      && p'.served <= p'.hw.regs.irqs
      && p'.hw.regs.state.Error? && p'.hw.regs.irqCause == {IrqError}
  {
    hide Write;
    var p1 := Do(p, TopStore);
    var p2 := Do(p1, INTERRUPTS_ON);
    InterruptsOnEffect(p1);
    LegacyAddEffect(p2);
    var p3 := Do(p2, LEGACY_ADD);
    DoorbellFails(Do(Do(p3, TopRead), TopStore));
  }

  lemma FailsAfterFreshError(p: Path)
    requires CanFail(FreshError(p))
    ensures CanFail(p)
  {
    hide Do, CanFail;
    var p1 := Do(p, TopStore);
    var p2 := Do(p1, INTERRUPTS_ON);
    var p3 := Do(p2, LEGACY_ADD);
    var p4 := Do(p3, TopRead);
    var p5 := Do(p4, TopStore);
    FailsAfter(p5, DOORBELL);
    FailsAfter(p4, TopStore);
    FailsAfter(p3, TopRead);
    FailsAfter(p2, LEGACY_ADD);
    FailsAfter(p1, INTERRUPTS_ON);
    FailsAfter(p, TopStore);
  }

  /** The thread has taken an indication of an error that a reset has already ended. */
  lemma GotFails(p: Path)
    requires p.thread == Got({IrqError}) && p.hw.regs.state.Ready? && p.served <= p.hw.regs.irqs
    ensures CanFail(p)
  {
    hide Do, FreshError, CanFail;
    FreshErrorEffect(p);
    TwiceFails(FreshError(p));
    FailsAfterFreshError(p);
  }

  /** The indication is cached, and the thread is not about to reset the device. */
  lemma CachedFails(p: Path)
    requires p.cached == {IrqError} && p.hw.regs.state.Ready? && p.served <= p.hw.regs.irqs
    requires !p.thread.Resetting?
    ensures CanFail(p)
  {
    hide ResetDevice, Write, Configured;
    if p.thread.Idle? {
      GotFails(Do(p, ThreadTake));
      FailsAfter(p, ThreadTake);
    } else if p.thread == Got({IrqError}) {
      GotFails(p);
    } else if p.thread.Got? {
      var p1 := Do(p, ThreadAct);
      GotFails(Do(p1, ThreadTake));
      FailsAfter(p1, ThreadTake);
      FailsAfter(p, ThreadAct);
    } else {
      var p1 := Do(p, CONFIGURE);
      ConfigureKeeps(p);
      GotFails(Do(p1, ThreadTake));
      FailsAfter(p1, ThreadTake);
      FailsAfter(p, CONFIGURE);
    }
  }

  /** An indication anywhere, of an error that a reset has already ended. */
  lemma StaleFails(p: Path)
    requires LiveOut(p) > 0 && p.hw.regs.state.Ready? && p.served <= p.hw.regs.irqs
    requires !p.thread.Resetting?
    ensures CanFail(p)
  {
    hide ResetDevice, Write, Configured;
    if p.thread == Got({IrqError}) {
      GotFails(p);
    } else if p.cached == {IrqError} {
      CachedFails(p);
    } else if p.top == Some({IrqError}) {
      CachedFails(Do(p, TopStore));
      FailsAfter(p, TopStore);
    } else {
      var p1 := Do(p, TopStore);
      var p2 := Do(p1, TopRead);
      CachedFails(Do(p2, TopStore));
      FailsAfter(p2, TopStore);
      FailsAfter(p1, TopRead);
      FailsAfter(p, TopStore);
    }
  }

  /** A reset while the thread is about to reset: the second one ends an error nobody has handled. */
  lemma ResettingFails(p: Path)
    requires p.thread.Resetting? && p.hw.regs.state.Ready? && p.served <= p.hw.regs.irqs
    ensures CanFail(p)
  {
    hide ResetDevice, Write, Configured, FreshError, CanFail;
    FreshErrorEffect(p);
    var p1 := FreshError(p);
    var p2 := Do(p1, ThreadReset);
    ResetFromError(p1.hw);
    StaleFails(p2);
    FailsAfter(p1, ThreadReset);
    FailsAfterFreshError(p);
  }

  /**
    Exactly when a reset from outside can make the assertion fail, in some run without any
    further one: while an indication that will be acted on is under way, or the thread is
    about to reset the device itself.
  */
  lemma ResetIsHarmlessIff(p: Path)
    requires PathInv(p)
    ensures CanFail(Do(p, OutsideReset)) <==> !Harmless(p, OutsideReset)
  {
    hide ResetDevice, Write, Configured;
    var p' := Do(p, OutsideReset);
    if Harmless(p, OutsideReset) {
      StepKeepsPath(p, OutsideReset);
      forall steps | DriverOnly(steps)
        ensures !Run(p', steps).bug
      {
        DriverRunsAreHarmless(p', steps);
        AssertionHolds(p', steps);
      }
    } else {
      ResetFromError(p.hw);
      if p.thread.Resetting? {
        ResettingFails(p');
      } else {
        StaleFails(p');
      }
    }
  }

  /**
    The same over whole runs: the assertion cannot fail, neither in the run nor in any
    continuation without outside resets of any part of it, if and only if each of its
    outside resets was harmless.
  */
  lemma {:induction false} SafeIff(p: Path, steps: seq<Step>)
    requires PathInv(p)
    ensures HarmlessRun(p, steps) <==> forall k | 0 <= k <= |steps| :: !CanFail(Run(p, steps[..k]))
    decreases |steps|
  {
    if steps == [] {
      NoneFails(p, []);
      assert steps[..0] == [];
    } else {
      var before := steps[..|steps| - 1];
      SafeIff(p, before);
      assert forall k | 0 <= k < |steps| :: steps[..k] == before[..k];
      assert steps[..|steps|] == steps;
      if HarmlessRun(p, before) {
        AssertionHolds(p, before);
        if HarmlessRun(p, steps) {
          NoneFails(p, steps);
        } else {
          ResetIsHarmlessIff(Run(p, before));
          assert CanFail(Run(p, steps[..|steps|]));
        }
      } else {
        var k :| 0 <= k <= |before| && CanFail(Run(p, before[..k]));
        assert CanFail(Run(p, steps[..k]));
      }
    }
  }

  lemma NoneFails(p: Path, steps: seq<Step>)
    requires PathInv(p) && HarmlessRun(p, steps)
    ensures !CanFail(Run(p, steps))
  {
    AssertionHolds(p, steps);
    forall more | DriverOnly(more)
      ensures !Run(Run(p, steps), more).bug
    {
      DriverRunsAreHarmless(Run(p, steps), more);
      AssertionHolds(Run(p, steps), more);
    }
  }

  // ---- Errors the thread never handles -------------------------------------------------------

  /** Some run without outside resets leads out of ERROR. */
  ghost predicate CanRecover(p: Path) {
    exists steps :: DriverOnly(steps) && !Run(p, steps).hw.regs.state.Error?
  }

  /** In ERROR, with no indication on its way to the thread and no reset due. */
  predicate Unheard(p: Path) {
    p.hw.regs.state.Error? && LiveOut(p) == 0 && !p.thread.Resetting?
  }

  lemma StaysUnheard(p: Path, step: Step)
    requires Unheard(p) && !step.OutsideReset?
    ensures Unheard(Do(p, step))
  {
    hide Write, ResetDevice, Configured;
    match step {
      case Access(reg, val, fault) =>
        ErrorIgnores(p.hw, reg, val, fault);
      case ThreadConfigure(dma, size) =>
        if DmaOk(dma) && 0 < size < 0x1_0000 {
          ConfiguredKeeps(p.hw, dma, size);
        }
      case _ =>
    }
  }

  lemma ErrorIgnores(h: Hw, reg: Reg, val: U32, fault: Fault)
    requires h.regs.state.Error?
    ensures var r := Write(h, reg, val, fault).regs;
      r.state.Error? && r.irqs == h.regs.irqs && r.irqCause == h.regs.irqCause
  {
  }

  lemma {:induction false} RunStaysUnheard(p: Path, steps: seq<Step>)
    requires Unheard(p) && DriverOnly(steps)
    ensures Unheard(Run(p, steps))
    decreases |steps|
  {
    if steps != [] {
      RunStaysUnheard(p, steps[..|steps| - 1]);
      StaysUnheard(Run(p, steps[..|steps| - 1]), steps[|steps| - 1]);
    }
  }

  lemma RecoversAfter(p: Path, step: Step)
    requires !step.OutsideReset? && CanRecover(Do(p, step))
    ensures CanRecover(p)
  {
    var steps :| DriverOnly(steps) && !Run(Do(p, step), steps).hw.regs.state.Error?;
    RunFrom(p, step, steps);
    assert DriverOnly([step] + steps);
  }

  lemma RecoversNow(p: Path)
    requires !p.hw.regs.state.Error?
    ensures CanRecover(p)
  {
    assert Run(p, []) == p && DriverOnly([]);
  }

  lemma ResettingRecovers(p: Path)
    requires p.thread.Resetting? && p.hw.regs.state.Error?
    ensures CanRecover(p)
  {
    hide ResetDevice, Run;
    ResetFromError(p.hw);
    RecoversNow(Do(p, ThreadReset));
    RecoversAfter(p, ThreadReset);
  }

  lemma GotRecovers(p: Path)
    requires p.thread == Got({IrqError}) && p.hw.regs.state.Error?
    ensures CanRecover(p)
  {
    ResettingRecovers(Do(p, ThreadAct));
    RecoversAfter(p, ThreadAct);
  }

  lemma CachedRecovers(p: Path)
    requires p.cached == {IrqError} && p.hw.regs.state.Error? && !p.thread.Resetting?
    ensures CanRecover(p)
  {
    hide ResetDevice, Write, Configured, CanRecover;
    if p.thread.Idle? {
      GotRecovers(Do(p, ThreadTake));
      RecoversAfter(p, ThreadTake);
    } else if p.thread == Got({IrqError}) {
      GotRecovers(p);
    } else {
      var step := if p.thread.Got? then ThreadAct else CONFIGURE;
      var p1 := Do(p, step);
      if p.thread.Reconfiguring? {
        ConfigureKeeps(p);
      }
      GotRecovers(Do(p1, ThreadTake));
      RecoversAfter(p1, ThreadTake);
      RecoversAfter(p, step);
    }
  }

  lemma HeardRecovers(p: Path)
    requires p.hw.regs.state.Error? && LiveOut(p) > 0 && !p.thread.Resetting?
    ensures CanRecover(p)
  {
    hide ResetDevice, Write, Configured, CanRecover;
    if p.thread == Got({IrqError}) {
      GotRecovers(p);
    } else if p.cached == {IrqError} {
      CachedRecovers(p);
    } else if p.top == Some({IrqError}) {
      CachedRecovers(Do(p, TopStore));
      RecoversAfter(p, TopStore);
    } else {
      var p1 := Do(p, TopStore);
      var p2 := Do(p1, TopRead);
      CachedRecovers(Do(p2, TopStore));
      RecoversAfter(p2, TopStore);
      RecoversAfter(p1, TopRead);
      RecoversAfter(p, TopStore);
    }
  }

  /**
    Exactly when the driver can still bring the device out of ERROR: while an indication of
    the one bit is on its way to the thread, or the thread is about to reset. An error that
    joins an unread completion in the cause register, or comes with interrupts off, stays.
  */
  lemma CanRecoverIff(p: Path)
    ensures CanRecover(p) <==> !Unheard(p)
  {
    hide Do, Run, LiveOut;
    if Unheard(p) {
      forall steps | DriverOnly(steps)
        ensures Run(p, steps).hw.regs.state.Error?
      {
        RunStaysUnheard(p, steps);
      }
    } else if !p.hw.regs.state.Error? {
      RecoversNow(p);
    } else if p.thread.Resetting? {
      ResettingRecovers(p);
    } else {
      HeardRecovers(p);
    }
  }

  /** A completion whose interrupt has not been answered is enough for the next error to go unheard. */
  lemma UnreadCompletionHidesError(p: Path)
    requires Unready(p.hw.regs) && LiveOut(p) == 0
    ensures var p' := Do(Do(p, LEGACY_ADD), DOORBELL);
      !p.thread.Resetting? ==> p'.hw.regs.state.Error? && !CanRecover(p')
  {
    var p1 := Do(p, LEGACY_ADD);
    LegacyAddEffect(p);
    LegacyAddCause(p);
    DoorbellFails(p1);
    CanRecoverIff(Do(p1, DOORBELL));
    hide Do, CanRecover;
    assert IrqCmdDone in Do(p1, DOORBELL).hw.regs.irqCause;
  }

  lemma LegacyAddCause(p: Path)
    requires Unready(p.hw.regs)
    ensures IrqCmdDone in Do(p, LEGACY_ADD).hw.regs.irqCause
  {
  }

  // ---- Concrete resets ---------------------------------------------------------------------

  /** A device that has just been switched on and initialised: interrupts and DMA are off. */
  const FRESH := Path(Hw(POWER_ON.(state := Ready), EMPTY_RING, [], []), 0, None, {}, Idle, false)

  /** One outside reset is enough: with interrupts on, while the indication of a first error is cached. */
  lemma OutsideResetCanBreakIt()
    ensures PathInv(FRESH)
    ensures CanFail(Run(FRESH, [INTERRUPTS_ON, DOORBELL, TopRead, TopStore, OutsideReset]))
  {
    hide Write, ResetDevice, Configured, Run;
    var s := [INTERRUPTS_ON, DOORBELL, TopRead, TopStore, OutsideReset];
    InterruptsOnEffect(FRESH);
    var p1 := Do(FRESH, INTERRUPTS_ON);
    DoorbellFails(p1);
    var p2 := Do(p1, DOORBELL);
    var p3 := Do(p2, TopRead);
    var p4 := Do(p3, TopStore);
    assert s == [INTERRUPTS_ON] + s[1..] && s[1..] == [DOORBELL] + s[2..] && s[2..] == [TopRead] + s[3..];
    assert s[3..] == [TopStore] + s[4..] && s[4..] == [OutsideReset] + [];
    RunFrom(FRESH, INTERRUPTS_ON, s[1..]);
    RunFrom(p1, DOORBELL, s[2..]);
    RunFrom(p2, TopRead, s[3..]);
    RunFrom(p3, TopStore, s[4..]);
    RunFrom(p4, OutsideReset, []);
    RunNone(Do(p4, OutsideReset));
    FirstErrorIs(p1);
    ResetIsHarmlessIff(p4);
  }

  lemma FirstErrorIs(p: Path)
    requires p == Do(FRESH, INTERRUPTS_ON)
    ensures PathInv(Do(Do(Do(p, DOORBELL), TopRead), TopStore))
    ensures LiveOut(Do(Do(Do(p, DOORBELL), TopRead), TopStore)) == 1
  {
    InterruptsOnEffect(FRESH);
    StepKeepsPath(FRESH, INTERRUPTS_ON);
    StepKeepsPath(p, DOORBELL);
    DoorbellFails(p);
    hide Write, ResetDevice, Configured;
    assert FRESH.hw.regs.irqCause == {} && p.hw.regs.irqCause == {};
    var p2 := Do(p, DOORBELL);
    StepKeepsPath(p2, TopRead);
    StepKeepsPath(Do(p2, TopRead), TopStore);
  }

  /** An error while interrupts are off reaches nobody, so that a reset from outside is harmless. */
  lemma SilentErrorIsHarmless()
    ensures var p := Do(FRESH, DOORBELL);
      p.hw.regs.state.Error? && PathInv(p) && !CanFail(Do(p, OutsideReset))
  {
    StepKeepsPath(FRESH, DOORBELL);
    var p := Do(FRESH, DOORBELL);
    assert p.hw.regs.state.Error? && p.hw.regs.irqs == 0 && LiveOut(p) == 0;
    hide Do, CanFail, PathInv;
    ResetIsHarmlessIff(p);
  }

  lemma RunNone(p: Path)
    ensures Run(p, []) == p
  {
  }
}
