/**
  The code of the mathaccel device: a class whose methods update its register record and
  the ring memory in place.  Each is proved to do what `MathHardware` says.
*/
module MathDevice {
  import opened RingArith
  import opened MathOps
  import opened MathHardware

  const EAGAIN := 11
  const EIO := 5

  /** How one round of the consume loop ends. */
  datatype Outcome = Answered | QueueEmpty | ReadFailed | WriteFailed

  class Device {
    var regs: Regs
    var ring: Ring
    const sqMem: array<SqEntry>
    const cqMem: array<CqEntry>

    ghost function State(): Hw
      reads this, sqMem, cqMem
    {
      Hw(regs, ring, sqMem[..], cqMem[..])
    }

    /** Power-on values; the ring memory belongs to the driver. */
    constructor (sq: array<SqEntry>, cq: array<CqEntry>)
      ensures sqMem == sq && cqMem == cq && regs == POWER_ON && ring == EMPTY_RING
    {
      regs, ring := POWER_ON, EMPTY_RING;
      sqMem, cqMem := sq, cq;
    }

    /** `dma_read_next`: takes the command at the submission head. */
    method DmaReadNext(faulty: bool) returns (entry: SqEntry, ret: int)
      requires ring.sqHead != ring.sqTail ==> Bounded(State())
      modifies this`ring
      ensures old(ring.sqHead == ring.sqTail) ==> ret == -EAGAIN && ring == old(ring)
      ensures old(ring.sqHead != ring.sqTail) && faulty ==> ret == -EIO && ring == old(ring)
      ensures old(ring.sqHead != ring.sqTail) && !faulty ==>
                ret == 0 && entry == sqMem[old(ring).sqHead] && State() == ReadOne(old(State()))
    {
      entry := SqEntry(0, 0, 0, 0);
      if ring.sqHead == ring.sqTail {
        return entry, -EAGAIN;
      }
      if faulty {
        return entry, -EIO;
      }
      entry := sqMem[ring.sqHead];
      NextIsMod(ring.sqHead, ring.size);
      ring := ring.(sqHead := (ring.sqHead + 1) % ring.size);
      ret := 0;
    }

    /** `dma_write_next`: stores a completion at the completion tail, with no full check. */
    method DmaWriteNext(res: CqEntry, faulty: bool) returns (ret: int)
      requires Bounded(State())
      modifies this`ring, cqMem
      ensures faulty ==> ret == -EIO && State() == old(State())
      ensures !faulty ==> ret == 0 && State() == WriteOne(old(State()), res)
    {
      if faulty {
        return -EIO;
      }
      cqMem[ring.cqTail] := res;
      NextIsMod(ring.cqTail, ring.size);
      ring := ring.(cqTail := (ring.cqTail + 1) % ring.size);
      ret := 0;
    }

    /** A job or command that cannot go on: its cause is recorded and ERROR is dispatched. */
    method Fail(why: ErrBit) returns (ret: int)
      requires regs.state.Busy?
      modifies this, cqMem
      ensures ret == 0
      ensures State() == old(State()).(regs := EnterError(old(regs), why))
      decreases 1, 0
    {
      ErrorFromBusy(State(), why, NoFault);
      regs := regs.(errorCause := regs.errorCause + {why});
      ret := FsmDispatch(EvtError, NoFault);
    }

    /** A job or command that is done: its interrupt cause is recorded and its event dispatched. */
    method Finish(what: IrqBit, evt: Event) returns (ret: int)
      requires regs.state.Busy? && (evt.EvtJobDone? || evt.EvtCmdDone?)
      modifies this, cqMem
      ensures ret == 0
      ensures State() == old(State()).(regs := Complete(old(regs), what))
      decreases 1, 0
    {
      DoneFromBusy(State(), what, evt, NoFault);
      regs := regs.(irqCause := regs.irqCause + {what});
      ret := FsmDispatch(evt, NoFault);
    }

    /** One round of the loop of `consume_submission_queue`. */
    method ConsumeNext(readFails: bool, writeFails: bool) returns (outcome: Outcome)
      requires Bounded(State())
      modifies this`ring, cqMem
      ensures outcome ==
              if Waiting(old(State())) == 0 then QueueEmpty
              else if readFails then ReadFailed
              else if writeFails then WriteFailed
              else Answered
      ensures State() ==
              match outcome
              case Answered => ConsumeOne(old(State()))
              case WriteFailed => ReadOne(old(State()))
              case _ => old(State())
    {
      var entry, r := DmaReadNext(readFails);
      if r < 0 && r != -EAGAIN {
        return ReadFailed;
      }
      if r == -EAGAIN {
        return QueueEmpty;
      }
      var res, _ := ExecuteOperation(entry);
      r := DmaWriteNext(res, writeFails);
      if r < 0 && r != -EAGAIN {
        return WriteFailed;
      }
      outcome := Answered;
    }

    /** `consume_submission_queue`: runs until the submission ring is empty or a ring access fails. */
    method ConsumeSubmissionQueue(fault: Fault) returns (ret: int)
      requires regs.state.Busy? && Bounded(State())
      modifies this, cqMem
      ensures ret == 0
      ensures State() == JobResult(old(State()), fault)
      ensures fault == NoFault ==> EndsReady(old(regs), regs, IrqJobDone)
      decreases 1, 1
    {
      ghost var start := State();
      var done := 0;
      while true
        invariant done <= Waiting(start)
        invariant State() == ConsumeN(start, done)
        invariant Waiting(State()) == Waiting(start) - done
        invariant !fault.NoFault? ==> fault.at >= done
        decreases Waiting(State())
      {
        ghost var before := State();
        var outcome := ConsumeNext(fault == ReadFault(done), fault == WriteFault(done));
        match outcome {
          case ReadFailed =>
            ret := Fail(DmaRead);
            return;
          case WriteFailed =>
            ret := Fail(DmaWrite);
            return;
          case QueueEmpty =>
            break;
          case Answered =>
            ConsumeOneAdvances(before);
            done := done + 1;
        }
      }
      ret := Finish(IrqJobDone, EvtJobDone);
    }

    method ActionInit()
      modifies this`ring
      ensures ring == ClearRing(old(ring))
    {
      ring := ring.(sqHead := 0, sqTail := 0);
      ring := ring.(cqHead := 0, cqTail := 0);
    }

    method ActionReset()
      modifies this
      ensures regs == ClearControl(old(regs)) && ring == ClearRing(old(ring))
    {
      regs := regs.(intEnabled := false, dmaEnabled := false);
      regs := regs.(arg0 := 0, arg1 := 0, cmd := MATH_OP_COUNT);
      regs := regs.(sqBase := NULL, cqBase := NULL);
      ring := ring.(sqHead := 0, sqTail := 0);
      ring := ring.(cqHead := 0, cqTail := 0);
    }

    method ActionComplete()
      modifies this`regs
      ensures regs == TriggerIrq(old(regs))
    {
      if regs.intEnabled {
        regs := regs.(irqs := regs.irqs + 1);
      }
    }

    method ActionError()
      modifies this`regs
      ensures regs == RaiseError(old(regs))
    {
      regs := regs.(irqCause := regs.irqCause + {IrqError});
      if regs.intEnabled {
        regs := regs.(irqs := regs.irqs + 1);
      }
    }

    method ActionStartDma(fault: Fault) returns (ret: int)
      requires regs.state.Busy?
      requires JobRuns(regs) ==> Bounded(State())
      modifies this, cqMem
      ensures ret == 0
      ensures State() == JobEffect(old(State()), fault)
      decreases 1, 2
    {
      if !regs.dmaEnabled {
        ret := Fail(DmaDisabled);
        return;
      }
      if regs.sqBase == NULL {
        ret := Fail(DmaBadQueue);
        return;
      }
      if regs.cqBase == NULL {
        ret := Fail(DmaBadQueue);
        return;
      }
      ret := ConsumeSubmissionQueue(fault);
    }

    method ActionDoLegacyJob() returns (ret: int)
      requires regs.state.Busy?
      modifies this, cqMem
      ensures ret == 0
      ensures State() == old(State()).(regs := CmdEffect(old(regs)))
      decreases 1, 2
    {
      if regs.cmd == MATH_OP_COUNT {
        ret := Fail(CmdUnknown);
        return;
      }
      var res, r := ExecuteOperation(SqEntry(regs.cmd, 0xFFFF_FFFF, regs.arg0, regs.arg1));
      if r < 0 {
        ret := Fail(CmdExec);
        return;
      }
      regs := regs.(arg0 := res.result, cmd := MATH_OP_COUNT);
      ret := Finish(IrqCmdDone, EvtCmdDone);
    }

    /**
      `fsm_dispatch`: takes one transition and runs its action.  The actions of the two
      submit events dispatch again; no action they reach does.
    */
    method FsmDispatch(evt: Event, fault: Fault) returns (ret: int)
      requires evt.EvtSubmitJob? && regs.state.Ready? && JobRuns(regs) ==> Bounded(State())
      modifies this, cqMem
      ensures State() == Dispatch(old(State()), evt, fault)
      ensures ret == if NextState(old(regs.state), evt).None? then -EINVAL else 0
      decreases if evt.EvtSubmitJob? || evt.EvtSubmitCmd? then 2 else 0, 0
    {
      var t := NextState(regs.state, evt);
      if t.None? {
        return -EINVAL;
      }
      regs := regs.(state := t.value);
      ret := 0;
      match evt {
        case EvtInit => ActionInit();
        case EvtReset => ActionReset();
        case EvtSubmitJob => ret := ActionStartDma(fault);
        case EvtSubmitCmd => ret := ActionDoLegacyJob();
        case EvtJobDone => ActionComplete();
        case EvtCmdDone => ActionComplete();
        case EvtError => ActionError();
      }
    }

    /** `f0_bar0_write`: the register switch, with the doorbell and the command register. */
    method BarWrite(reg: Reg, val: U32, fault: Fault) returns (ret: int)
      requires WriteOk(State(), reg, val)
      modifies this, cqMem
      ensures State() == Write(old(State()), reg, val, fault)
      ensures reg.SqTail? ==> (ret == 0 <==> NextState(old(regs.state), EvtSubmitJob).Some?)
      ensures reg.Cmd? ==> (ret == 0 <==> NextState(old(regs.state), EvtSubmitCmd).Some?)
      ensures !reg.SqTail? && !reg.Cmd? ==> (ret == 0 <==> !reg.Other?)
    {
      ret := 0;
      match reg {
        case Arg1 => regs := regs.(arg0 := ToS32(val));
        case Arg2 => regs := regs.(arg1 := ToS32(val));
        case Cmd =>
          regs := regs.(cmd := val);
          ret := FsmDispatch(EvtSubmitCmd, fault);
        case Flags => regs := SetFlags(regs, val);
        case SqBaseLower => regs := regs.(sqBase := SetLower(val));
        case SqBaseUpper => regs := regs.(sqBase := SetUpper(regs.sqBase, val));
        case CqBaseLower => regs := regs.(cqBase := SetLower(val));
        case CqBaseUpper => regs := regs.(cqBase := SetUpper(regs.cqBase, val));
        case SqTail =>
          ring := ring.(sqTail := ToU16(val));
          ret := FsmDispatch(EvtSubmitJob, fault);
        case CqHead => ring := ring.(cqHead := ToU16(val));
        case RingSize => ring := ring.(size := ToU16(val));
        case Other => ret := -1;
      }
    }

    /** Reading the interrupt cause register clears it. */
    method ReadIrqCause() returns (val: set<IrqBit>)
      modifies this`regs
      ensures val == old(regs.irqCause) && regs == old(regs).(irqCause := {})
    {
      val := regs.irqCause;
      regs := regs.(irqCause := {});
    }

    /** Reading the error cause register clears it. */
    method ReadErrorCause() returns (val: set<ErrBit>)
      modifies this`regs
      ensures val == old(regs.errorCause) && regs == old(regs).(errorCause := {})
    {
      val := regs.errorCause;
      regs := regs.(errorCause := {});
    }

    /** `on_device_reset`: RESET, and INIT only when RESET was legal. */
    method OnDeviceReset() returns (ret: int)
      modifies this, cqMem
      ensures State() == ResetDevice(old(State()))
      ensures ret == 0 <==> old(regs.state).Ready? || old(regs.state).Error?
    {
      ret := FsmDispatch(EvtReset, NoFault);
      if ret < 0 {
        return;
      }
      ret := FsmDispatch(EvtInit, NoFault);
    }
  }
}
