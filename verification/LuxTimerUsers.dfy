/**
  Who uses the Lux timer: every subscriber has an `enabled` and a `periodic` flag, the clock
  counts both, and the control register is switched off with the last user. Here a call is
  one step; `LuxTimerCalls` takes it apart.
*/
module LuxTimerUsers {

  /** The control register, and the bits an ioctl names. */
  datatype Bits = Bits(timer: bool, irq: bool, reload: bool)

  datatype Flags = Flags(enabled: bool, periodic: bool)

  datatype Users = Users(ctrl: Bits, enabledUsers: int, periodicUsers: int, subs: map<nat, Flags>)

  const NO_BITS := Bits(false, false, false)
  const ALL_BITS := Bits(true, true, true)
  const ALARM_BITS := Bits(true, true, false)

  function FirstUsers(): Users {
    Users(NO_BITS, 0, 0, map[])
  }

  function Enabled(u: Users): set<nat> {
    set id | id in u.subs && u.subs[id].enabled
  }

  function Periodic(u: Users): set<nat> {
    set id | id in u.subs && u.subs[id].periodic
  }

  /** The counters are the numbers of open subscribers with the flag. */
  ghost predicate CountsOk(u: Users) {
    u.enabledUsers == |Enabled(u)| && u.periodicUsers == |Periodic(u)|
  }

  // ---- The three parts of a call -----------------------------------------------------------

  function WithFlags(u: Users, id: nat, f: Flags): Users {
    u.(subs := u.subs[id := f])
  }

  /** Enabling: flags and counters. */
  function CountOn(u: Users, id: nat, bits: Bits): Users
    requires id in u.subs
  {
    var f := u.subs[id];
    var e := !f.enabled && (bits.timer || bits.irq);
    var p := !f.periodic && bits.reload;
    u.(enabledUsers := if e then u.enabledUsers + 1 else u.enabledUsers,
       periodicUsers := if p then u.periodicUsers + 1 else u.periodicUsers,
       subs := u.subs[id := Flags(f.enabled || e, f.periodic || p)])
  }

  /** Enabling: the register. Reload is emulated and never switched on. */
  function CtrlOn(seen: Bits, bits: Bits): Bits {
    seen.(timer := seen.timer || bits.timer, irq := seen.irq || bits.irq)
  }

  /** Disabling: flags and counters. */
  function CountOff(u: Users, id: nat, bits: Bits): Users
    requires id in u.subs
  {
    var f := u.subs[id];
    var e := f.enabled && (bits.timer || bits.irq);
    var p := f.periodic && bits.reload;
    u.(enabledUsers := if e then u.enabledUsers - 1 else u.enabledUsers,
       periodicUsers := if p then u.periodicUsers - 1 else u.periodicUsers,
       subs := u.subs[id := Flags(f.enabled && !e, f.periodic && !p)])
  }

  /** Disabling: the register, cleared by the last user only. */
  function CtrlOff(u: Users, id: nat, seen: Bits, bits: Bits): Bits
    requires id in u.subs
  {
    var f := u.subs[id];
    var lastUser := f.enabled && (bits.timer || bits.irq) && u.enabledUsers == 1;
    var lastPeriodic := f.periodic && bits.reload && u.periodicUsers == 1;
    Bits(seen.timer && !(lastUser && bits.timer),
         seen.irq && !(lastUser && bits.irq),
         seen.reload && !lastPeriodic)
  }

  // ---- The calls, each in one piece ---------------------------------------------------------

  function Enable(u: Users, id: nat, bits: Bits): Users
    requires id in u.subs
  {
    if bits == NO_BITS then u else CountOn(u, id, bits).(ctrl := CtrlOn(u.ctrl, bits))
  }

  function Disable(u: Users, id: nat, bits: Bits): Users
    requires id in u.subs
  {
    if bits == NO_BITS then u else CountOff(u, id, bits).(ctrl := CtrlOff(u, id, u.ctrl, bits))
  }

  class ClockUsers {
    var ctrl: Bits
    var enabledUsers: int
    var periodicUsers: int
    var subs: map<nat, Flags>

    ghost function Value(): Users
      reads this
    {
      Users(ctrl, enabledUsers, periodicUsers, subs)
    }

    constructor ()
      ensures Value() == FirstUsers()
    {
      ctrl, enabledUsers, periodicUsers, subs := NO_BITS, 0, 0, map[];
    }

    method Open(id: nat)
      requires id !in subs
      modifies this
      ensures Value() == WithFlags(old(Value()), id, Flags(false, false))
    {
      subs := subs[id := Flags(false, false)];
    }

    method EnableBits(id: nat, bits: Bits)
      requires id in subs
      modifies this
      ensures Value() == Enable(old(Value()), id, bits)
    {
      if bits == NO_BITS {
        return;
      }
      var c := ctrl;
      if !subs[id].enabled {
        if bits.timer || bits.irq {
          enabledUsers := enabledUsers + 1;
          subs := subs[id := subs[id].(enabled := true)];
        }
      }
      if !subs[id].periodic {
        if bits.reload {
          periodicUsers := periodicUsers + 1;
          subs := subs[id := subs[id].(periodic := true)];
        }
      }
      var hw := bits.(reload := false);
      c := Bits(c.timer || hw.timer, c.irq || hw.irq, c.reload || hw.reload);
      ctrl := c;
      assert subs == CountOn(old(Value()), id, bits).subs;
    }

    method DisableBits(id: nat, bits: Bits)
      requires id in subs
      modifies this
      ensures Value() == Disable(old(Value()), id, bits)
    {
      if bits == NO_BITS {
        return;
      }
      var c := ctrl;
      var initCtrl := c;
      if subs[id].enabled {
        if bits.timer || bits.irq {
          enabledUsers := enabledUsers - 1;
          if enabledUsers == 0 {
            if bits.timer {
              c := c.(timer := false);
            }
            if bits.irq {
              c := c.(irq := false);
            }
          }
          subs := subs[id := subs[id].(enabled := false)];
        }
      }
      if subs[id].periodic {
        if bits.reload {
          periodicUsers := periodicUsers - 1;
          if periodicUsers == 0 {
            c := c.(reload := false);
          }
          subs := subs[id := subs[id].(periodic := false)];
        }
      }
      if c != initCtrl {
        ctrl := c;
      }
      assert subs == CountOff(old(Value()), id, bits).subs;
    }

    method Release(id: nat)
      requires id in subs
      modifies this
      ensures var u := Disable(old(Value()), id, ALL_BITS);
              Value() == u.(subs := u.subs - {id})
    {
      DisableBits(id, ALL_BITS);
      subs := subs - {id};
    }
  }

  function BitsOf(reload: bool): Bits {
    if reload then ALL_BITS else ALARM_BITS
  }

  // ---- The counters ------------------------------------------------------------------------

  lemma CardWithout(s: set<nat>, x: nat)
    ensures |s - {x}| == |s| - if x in s then 1 else 0
  {
    if x in s {
      assert s == s - {x} + {x};
    } else {
      assert s - {x} == s;
    }
  }

  lemma ButOne(s: set<nat>, s': set<nat>, x: nat)
    requires s - {x} == s' - {x}
    ensures |s'| == |s| + (if x in s' then 1 else 0) - (if x in s then 1 else 0)
  {
    CardWithout(s, x);
    CardWithout(s', x);
  }

  lemma FlagsCount(u: Users, id: nat, f: Flags)
    requires id in u.subs
    ensures var u' := WithFlags(u, id, f);
            && |Enabled(u')| == |Enabled(u)| + (if f.enabled then 1 else 0) - (if u.subs[id].enabled then 1 else 0)
            && |Periodic(u')| == |Periodic(u)| + (if f.periodic then 1 else 0) - (if u.subs[id].periodic then 1 else 0)
  {
    var u' := WithFlags(u, id, f);
    assert id in Enabled(u') <==> f.enabled;
    assert id in Periodic(u') <==> f.periodic;
    assert id in Enabled(u) <==> u.subs[id].enabled;
    assert id in Periodic(u) <==> u.subs[id].periodic;
    assert Enabled(u) - {id} == Enabled(u') - {id};
    assert Periodic(u) - {id} == Periodic(u') - {id};
    hide Enabled, Periodic, WithFlags;
    ButOne(Enabled(u), Enabled(u'), id);
    ButOne(Periodic(u), Periodic(u'), id);
  }

  lemma CountsKept(u: Users, id: nat, bits: Bits)
    requires id in u.subs && CountsOk(u)
    ensures CountsOk(CountOn(u, id, bits)) && CountsOk(CountOff(u, id, bits))
  {
    var on, off := CountOn(u, id, bits), CountOff(u, id, bits);
    FlagsCount(u, id, on.subs[id]);
    FlagsCount(u, id, off.subs[id]);
    assert Enabled(on) == Enabled(WithFlags(u, id, on.subs[id]));
    assert Periodic(on) == Periodic(WithFlags(u, id, on.subs[id]));
    assert Enabled(off) == Enabled(WithFlags(u, id, off.subs[id]));
    assert Periodic(off) == Periodic(WithFlags(u, id, off.subs[id]));
  }

  /** A call that takes the timer bit away does so exactly when nobody else is enabled. */
  lemma ClearsTimerIff(u: Users, id: nat, seen: Bits, bits: Bits)
    requires CountsOk(u) && id in u.subs && seen.timer && bits.timer
    ensures !CtrlOff(u, id, seen, bits).timer <==> Enabled(u) == {id}
    ensures CtrlOff(u, id, seen, bits).irq <==> seen.irq && !(bits.irq && Enabled(u) == {id})
  {
    if u.subs[id].enabled {
      assert id in Enabled(u);
      assert |Enabled(u) - {id}| == |Enabled(u)| - 1;
      assert |Enabled(u) - {id}| == 0 <==> Enabled(u) - {id} == {};
    } else {
      assert id !in Enabled(u);
    }
  }

  /** Enabling adds the subscriber to the users, disabling takes it out; no other flag changes. */
  lemma SwitchIs(u: Users, id: nat, reload: bool)
    requires id in u.subs
    ensures var on, off := Enable(u, id, BitsOf(reload)), Disable(u, id, BitsOf(reload));
      && Enabled(on) == Enabled(u) + {id} && Enabled(off) == Enabled(u) - {id}
      && Periodic(on) == (if reload then Periodic(u) + {id} else Periodic(u))
      && Periodic(off) == (if reload then Periodic(u) - {id} else Periodic(u))
      && on.subs.Keys == off.subs.Keys == u.subs.Keys
  {
  }

  // ---- Calls one after the other ---------------------------------------------------------------

  datatype Op =
    | OpenOp(id: nat)
    | OnOp(id: nat, reload: bool)
    | OffOp(id: nat, reload: bool)
    | ReleaseOp(id: nat)

  function Perform(u: Users, op: Op): Users {
    match op
    case OpenOp(id) => if id in u.subs then u else WithFlags(u, id, Flags(false, false))
    case OnOp(id, reload) => if id in u.subs then Enable(u, id, BitsOf(reload)) else u
    case OffOp(id, reload) => if id in u.subs then Disable(u, id, BitsOf(reload)) else u
    case ReleaseOp(id) =>
      if id in u.subs then
        var u' := Disable(u, id, ALL_BITS);
        u'.(subs := u'.subs - {id})
      else u
  }

  function PerformAll(ops: seq<Op>): Users {
    if ops == [] then FirstUsers() else Perform(PerformAll(ops[..|ops| - 1]), ops[|ops| - 1])
  }

  /** Who is enabled and who is periodic after each call. */
  lemma PerformIs(u: Users, op: Op, id: nat)
    ensures var u' := Perform(u, op);
      var enabled, periodic := id in Enabled(u), id in Periodic(u);
      && (id in u'.subs <==> if op.id != id || !op.ReleaseOp? then id in u.subs || (op == OpenOp(id)) else false)
      && (id in Enabled(u') <==>
            if op.id != id || id !in u.subs then enabled
            else match op
              case OpenOp(_) => enabled
              case OnOp(_, _) => true
              case _ => false)
      && (id in Periodic(u') <==>
            if op.id != id || id !in u.subs then periodic
            else match op
              case OpenOp(_) => periodic
              case OnOp(_, reload) => periodic || reload
              case OffOp(_, reload) => periodic && !reload
              case ReleaseOp(_) => false)
  {
  }

  ghost predicate TimerRuns(u: Users) {
    && CountsOk(u) && !u.ctrl.reload
    && (u.ctrl.timer <==> Enabled(u) != {}) && (u.ctrl.irq <==> Enabled(u) != {})
  }

  lemma SwitchKeepsTimer(u: Users, id: nat, reload: bool)
    requires TimerRuns(u) && id in u.subs
    ensures TimerRuns(Enable(u, id, BitsOf(reload))) && TimerRuns(Disable(u, id, BitsOf(reload)))
  {
    var bits := BitsOf(reload);
    CountsKept(u, id, bits);
    var on, off := CountOn(u, id, bits), CountOff(u, id, bits);
    if u.ctrl.timer {
      ClearsTimerIff(u, id, u.ctrl, bits);
    }
    SwitchIs(u, id, reload);
    SameCounts(on, Enable(u, id, bits));
    SameCounts(off, Disable(u, id, bits));
  }

  lemma SameCounts(u: Users, u': Users)
    requires u' == u.(ctrl := u'.ctrl)
    ensures Enabled(u') == Enabled(u) && Periodic(u') == Periodic(u)
    ensures CountsOk(u') <==> CountsOk(u)
  {
  }

  lemma PerformKeepsTimer(u: Users, op: Op)
    requires TimerRuns(u)
    ensures TimerRuns(Perform(u, op))
  {
    var u' := Perform(u, op);
    if op.id in u.subs {
      if op.ReleaseOp? {
        SwitchKeepsTimer(u, op.id, true);
        var off := Disable(u, op.id, ALL_BITS);
        assert op.id !in Enabled(off) && op.id !in Periodic(off);
        assert Enabled(u') == Enabled(off) && Periodic(u') == Periodic(off);
      } else if !op.OpenOp? {
        SwitchKeepsTimer(u, op.id, op.reload);
      }
    } else if op.OpenOp? {
      assert Enabled(u') == Enabled(u) && Periodic(u') == Periodic(u);
    }
  }

  /**
    As long as no two calls overlap, the timer and its interrupt are on exactly while somebody
    has them enabled, and the hardware's reload mode is never on.
  */
  lemma {:induction false} TimerRunsWhileUsed(ops: seq<Op>)
    ensures TimerRuns(PerformAll(ops))
  {
    if ops == [] {
      assert Enabled(FirstUsers()) == {} && Periodic(FirstUsers()) == {};
    } else {
      TimerRunsWhileUsed(ops[..|ops| - 1]);
      PerformKeepsTimer(PerformAll(ops[..|ops| - 1]), ops[|ops| - 1]);
    }
  }
}
