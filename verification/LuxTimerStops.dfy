/**
  How the Lux timer can be left off under an enabled subscriber: `LuxTimerCalls` lets calls
  overlap anywhere, and a call that read the register early may write it back late.
*/
module LuxTimerStops {
  import opened LuxTimerUsers
  import opened LuxTimerCalls

  predicate OnlyGo(steps: seq<Step>) {
    forall i | 0 <= i < |steps| :: steps[i].Go?
  }

  /** All calls are over, the timer is off, and somebody is enabled. */
  predicate Stopped(m: Machine) {
    m.calls == map[] && !m.users.ctrl.timer && Holding(m.users, OfTimer) != {}
  }

  /** Some order of what is left of the calls leads there. */
  ghost predicate CanStop(m: Machine) {
    exists steps :: OnlyGo(steps) && Stopped(Run(m, steps))
  }

  predicate WillWrite(m: Machine, a: nat) {
    a in m.calls && Writes(m.calls[a])
  }

  /** About to write the register with the timer bit off. */
  predicate SwitchesOff(m: Machine, a: nat) {
    WillWrite(m, a) && !Written(m.calls[a]).timer
  }

  /** About to write it with the timer bit on. */
  predicate SwitchesOn(m: Machine, a: nat) {
    WillWrite(m, a) && Written(m.calls[a]).timer
  }

  // ---- Calls that meet on no subscriber ----------------------------------------------------

  predicate Below(b: Bits, c: Bits) {
    (b.timer ==> c.timer) && (b.irq ==> c.irq) && (b.reload ==> c.reload)
  }

  /** A call only clears bits of the register it read, and none before its first count. */
  predicate CtrlOk(c: Call) {
    && c.bits.timer && c.bits.irq
    && Below(c.ctrl, c.seen)
    && (c.on || c.pc == Test(OfTimer) || c.pc == Count(OfTimer) ==> c.ctrl == c.seen)
  }

  ghost predicate CtrlsOk(m: Machine) {
    forall a | a in m.calls :: CtrlOk(m.calls[a])
  }

  lemma AdvanceCtrlOk(m: Machine, a: nat)
    requires a in m.calls && m.calls[a].id in m.users.subs && CtrlOk(m.calls[a])
    ensures var m' := Advance(m, a);
      && (forall b | b in m'.calls :: b in m.calls && (b != a ==> m'.calls[b] == m.calls[b]))
      && (a in m'.calls ==> CtrlOk(m'.calls[a]))
  {
  }

  lemma DoCtrlsOk(m: Machine, s: Step)
    requires CtrlsOk(m)
    ensures CtrlsOk(Do(m, s))
  {
    if s.Go? && s.caller in m.calls && m.calls[s.caller].id in m.users.subs {
      AdvanceCtrlOk(m, s.caller);
      hide Advance, CtrlOk;
    }
  }

  lemma {:induction false} RunCtrlsOk(steps: seq<Step>)
    ensures CtrlsOk(Run(FIRST, steps))
  {
    if steps != [] {
      RunCtrlsOk(steps[..|steps| - 1]);
      DoCtrlsOk(Run(FIRST, steps[..|steps| - 1]), steps[|steps| - 1]);
    }
  }

  /** Of two calls on one subscriber, one has only its store left. */
  ghost predicate Apart(m: Machine) {
    forall a, b | a in m.calls && b in m.calls && a != b && m.calls[a].id == m.calls[b].id ::
      m.calls[a].pc.Store? || m.calls[b].pc.Store?
  }

  ghost predicate Fit(m: Machine) {
    Tidy(m) && CtrlsOk(m) && Apart(m)
  }

  lemma GoFit(m: Machine, a: nat)
    requires Fit(m) && a in m.calls
    ensures Fit(Do(m, Go(a)))
  {
    DoTidy(m, Go(a));
    DoCtrlsOk(m, Go(a));
    GoApart(m, a);
    hide Do, Tidy, CtrlsOk, Apart;
  }

  lemma GoApart(m: Machine, a: nat)
    requires Apart(m) && a in m.calls && m.calls[a].id in m.users.subs
    ensures Apart(Do(m, Go(a)))
  {
    var m' := Do(m, Go(a));
    assert forall b | b in m'.calls :: b in m.calls && m'.calls[b].id == m.calls[b].id
                                       && (m.calls[b].pc.Store? ==> m'.calls[b].pc.Store?);
    hide Do;
  }

  lemma CallFacts(m: Machine, a: nat)
    requires Fit(m) && a in m.calls
    ensures CtrlOk(m.calls[a]) && Tidy(m) && m.calls[a].id in m.users.subs
  {
  }

  // ---- What the calls in progress will do --------------------------------------------------

  predicate Ahead(pc: Pc, w: Which) {
    pc == Test(w) || (w.OfReload? && !pc.Store? && pc.which.OfTimer?)
  }

  /** Call `a` will pass the test of the flag, or has passed it, and has still to count. */
  predicate Due(m: Machine, a: nat, w: Which) {
    a in m.calls && var c := m.calls[a]; c.pc == Count(w) || (Ahead(c.pc, w) && Passes(m, c, w))
  }

  function Dues(m: Machine, w: Which, on: bool): set<nat> {
    set a | a in m.calls && Due(m, a, w) && m.calls[a].on == on
  }

  predicate Reaches0(n: int, ups: nat, downs: nat) {
    downs > 0 && n <= downs && 1 <= n + ups
  }

  /** In some order one of the calls to come counts the flag's counter down to 0. */
  predicate Empties(m: Machine, w: Which) {
    Reaches0(Counter(m.users, w), |Dues(m, w, true)|, |Dues(m, w, false)|)
  }

  predicate Counts(m: Machine, a: nat, w: Which) {
    a in m.calls && m.calls[a].pc == Count(w)
  }

  /** The register of call `a` after its next part. */
  function NextCtrl(m: Machine, a: nat): Bits
    requires a in m.calls
  {
    var c := m.calls[a];
    if c.pc.Count? && !c.on && Counter(m.users, c.pc.which) == 1 then Cleared(c.ctrl, c.bits, c.pc.which)
    else c.ctrl
  }

  lemma CallsAfter(m: Machine, a: nat)
    requires Tidy(m) && a in m.calls
    ensures var m', c := Do(m, Go(a)), m.calls[a];
      && (c.pc.Store? ==> m'.calls == m.calls - {a})
      && (!c.pc.Store? ==> m'.calls == m.calls[a := c.(pc := m'.calls[a].pc, ctrl := NextCtrl(m, a))])
      && m'.users.ctrl == (if c.pc.Store? && WillWrite(m, a) then Written(c) else m.users.ctrl)
      && forall w :: Counter(m'.users, w) ==
                     Counter(m.users, w) + if Counts(m, a, w) then (if c.on then 1 else -1) else 0
  {
  }

  lemma OwnDue(m: Machine, a: nat, w: Which)
    requires a in m.calls && m.calls[a].id in m.users.subs
    ensures Due(Do(m, Go(a)), a, w) <==> Due(m, a, w) && !Counts(m, a, w)
  {
  }

  /** A part of one call changes neither the other calls nor the flags one of them has still to test. */
  lemma OthersAfter(m: Machine, a: nat, b: nat)
    requires Fit(m) && a in m.calls && b != a
    ensures var m' := Do(m, Go(a));
      && (b in m'.calls <==> b in m.calls)
      && (b in m.calls ==> m'.calls[b] == m.calls[b])
      && (b in m.calls && !m.calls[b].pc.Store? ==>
            var id := m.calls[b].id; id in m.users.subs && id in m'.users.subs && forall w ::
              Holds(m'.users.subs[id], w) == Holds(m.users.subs[id], w))
  {
    hide CtrlsOk;
    assert ReleaseOk(m, a);
  }

  lemma DueAfter(m: Machine, a: nat, w: Which, b: nat)
    requires Fit(m) && a in m.calls
    ensures Due(Do(m, Go(a)), b, w) <==> Due(m, b, w) && !(b == a && Counts(m, a, w))
  {
    if b == a {
      OwnDue(m, a, w);
    } else {
      OthersAfter(m, a, b);
      hide Do, Fit;
    }
  }

  lemma DuesAfter(m: Machine, a: nat, w: Which, on: bool)
    requires Fit(m) && a in m.calls
    ensures var m', goes := Do(m, Go(a)), Counts(m, a, w) && m.calls[a].on == on;
      && Dues(m', w, on) == Dues(m, w, on) - (if goes then {a} else {})
      && |Dues(m', w, on)| == |Dues(m, w, on)| - (if goes then 1 else 0)
  {
    hide Do, Due, Fit;
    var m', goes := Do(m, Go(a)), Counts(m, a, w) && m.calls[a].on == on;
    forall b
      ensures b in Dues(m', w, on) <==> b in Dues(m, w, on) && !(goes && b == a)
    {
      DueAfter(m, a, w, b);
      SameSide(m, a, b);
    }
    if goes {
      assert a in Dues(m, w, on) by {
        CountingIsDue(m, a, w);
      }
      CardWithout(Dues(m, w, on), a);
      assert Dues(m', w, on) == Dues(m, w, on) - {a};
    } else {
      assert Dues(m', w, on) == Dues(m, w, on);
    }
  }

  lemma CountingIsDue(m: Machine, a: nat, w: Which)
    requires Counts(m, a, w)
    ensures Due(m, a, w)
  {
  }

  lemma SameSide(m: Machine, a: nat, b: nat)
    requires Fit(m) && a in m.calls
    ensures var m' := Do(m, Go(a)); b in m'.calls ==> b in m.calls && m'.calls[b].on == m.calls[b].on
    ensures forall w :: Due(m, b, w) ==> b in m.calls && (b in Do(m, Go(a)).calls || b == a)
    ensures forall w :: Due(Do(m, Go(a)), b, w) ==> b in Do(m, Go(a)).calls
  {
    if b != a {
      OthersAfter(m, a, b);
    }
  }

  /** How the numbers behind `Empties` change. */
  lemma EmptiesAfter(m: Machine, a: nat, w: Which)
    requires Fit(m) && a in m.calls
    ensures var m', c, n := Do(m, Go(a)), m.calls[a], Counter(m.users, w);
      var ups, downs := |Dues(m, w, true)|, |Dues(m, w, false)|;
      Empties(m', w) <==>
      if !Counts(m, a, w) then Reaches0(n, ups, downs)
      else if c.on then ups >= 1 && Reaches0(n + 1, ups - 1, downs)
      else downs >= 1 && Reaches0(n - 1, ups, downs - 1)
  {
    CallsAfter(m, a);
    DuesAfter(m, a, w, true);
    DuesAfter(m, a, w, false);
    hide Do, Dues, Counts, Fit, Reaches0;
  }

  /** Subscriber `id` will be enabled once every call has passed its test of `enabled`. */
  ghost predicate WillHold(m: Machine, id: nat) {
    || (exists a :: Early(m, a, id, true))
    || (id in Holding(m.users, OfTimer) && forall a :: !Early(m, a, id, false))
  }

  predicate Early(m: Machine, a: nat, id: nat, on: bool) {
    a in m.calls && var c := m.calls[a]; c.id == id && c.on == on && !c.pc.Store? && c.pc.which.OfTimer?
  }

  lemma WillHoldIs(m: Machine, a: nat)
    requires Fit(m) && a in m.calls && Early(m, a, m.calls[a].id, m.calls[a].on)
    ensures WillHold(m, m.calls[a].id) <==> m.calls[a].on
  {
    hide Tidy, CtrlsOk;
  }

  lemma OthersEarly(m: Machine, a: nat, id: nat)
    requires Fit(m) && a in m.calls
    ensures forall b, on | b != a :: Early(Do(m, Go(a)), b, id, on) <==> Early(m, b, id, on)
  {
    hide Do, Fit;
    forall b, on
      ensures b != a ==> (Early(Do(m, Go(a)), b, id, on) <==> Early(m, b, id, on))
    {
      if b != a {
        OthersAfter(m, a, b);
      }
    }
  }

  /** A call past its part for `enabled` has left the flag as it wanted it. */
  lemma OwnFlag(m: Machine, a: nat)
    requires Fit(m) && a in m.calls
    ensures var m', c := Do(m, Go(a)), m.calls[a];
      && (Early(m, a, c.id, c.on) && !Early(m', a, c.id, c.on) ==>
            (c.id in Holding(m'.users, OfTimer) <==> c.on))
      && (!Early(m, a, c.id, c.on) ==> Holding(m'.users, OfTimer) == Holding(m.users, OfTimer))
  {
    var m', c := Do(m, Go(a)), m.calls[a];
    assert ReleaseOk(m, a);
    assert CtrlOk(c);
  }

  lemma WillHoldAfter(m: Machine, a: nat, id: nat)
    requires Fit(m) && a in m.calls
    ensures WillHold(Do(m, Go(a)), id) <==> WillHold(m, id)
  {
    var m', c := Do(m, Go(a)), m.calls[a];
    CallFacts(m, a);
    CallsAfter(m, a);
    OthersEarly(m, a, id);
    OwnFlag(m, a);
    if Early(m, a, id, c.on) {
      WillHoldIs(m, a);
      GoFit(m, a);
      if Early(m', a, id, c.on) {
        WillHoldIs(m', a);
      } else {
        assert forall b, on :: Early(m, b, id, on) ==> b == a;
        hide Do, Fit, Tidy, Holding;
        assert forall b, on :: !Early(m', b, id, on);
      }
    } else {
      if c.id != id {
        FlagOfOthers(m, a, id);
      }
      hide Do, Fit, Tidy, Holding;
      assert forall on :: Early(m', a, id, on) <==> Early(m, a, id, on);
    }
  }

  lemma FlagOfOthers(m: Machine, a: nat, id: nat)
    requires Fit(m) && a in m.calls && m.calls[a].id != id
    ensures id in Holding(Do(m, Go(a)).users, OfTimer) <==> id in Holding(m.users, OfTimer)
  {
  }

  // ---- The two ways to end with the timer off ----------------------------------------------

  /** Clearing the bits of the flag would make the call write, with the timer off, or on. */
  predicate MakesOff(c: Call, w: Which) {
    var b := Cleared(c.ctrl, c.bits, w); b != c.seen && !b.timer
  }

  predicate MakesOn(c: Call, w: Which) {
    var b := Cleared(c.ctrl, c.bits, w); b != c.seen && b.timer
  }

  /** Call `a` can be the one that counts to 0, and then switches the timer off. */
  predicate MayEmpty(m: Machine, a: nat, w: Which) {
    a in Dues(m, w, false) && Empties(m, w) && MakesOff(m.calls[a], w)
  }

  ghost predicate CanSwitchOff(m: Machine) {
    (exists a :: SwitchesOff(m, a)) || exists a, w :: MayEmpty(m, a, w)
  }

  /** The call that keeps the last count from switching the timer on. */
  ghost predicate Spares(m: Machine, a: nat) {
    a in Dues(m, OfReload, false) && !MakesOn(m.calls[a], OfReload)
  }

  /** The timer is off, and no call needs to switch it on. */
  ghost predicate CanStayOff(m: Machine) {
    && !m.users.ctrl.timer
    && (forall a :: !SwitchesOn(m, a))
    && (Empties(m, OfReload) ==> exists a :: Spares(m, a))
  }

  ghost predicate CanEndOff(m: Machine) {
    (exists id :: WillHold(m, id)) && (CanSwitchOff(m) || CanStayOff(m))
  }

  // ---- Back: what a state after a step says about the one before --------------------------

  /** A call that clears the bits of a flag is one that may empty its counter. */
  lemma ClearingMayEmpty(m: Machine, a: nat)
    requires Fit(m) && a in m.calls && NextCtrl(m, a) != m.calls[a].ctrl
    ensures var c := m.calls[a];
      && c.pc.Count? && !c.on && Counter(m.users, c.pc.which) == 1
      && NextCtrl(m, a) == Cleared(c.ctrl, c.bits, c.pc.which) != c.seen
      && a in Dues(m, c.pc.which, false) && Empties(m, c.pc.which)
      && (c.pc.which.OfTimer? ==> !NextCtrl(m, a).timer)
  {
    var w := m.calls[a].pc.which;
    CallFacts(m, a);
    CountingIsDue(m, a, w);
    hide Fit, Tidy, Due;
    assert a in Dues(m, w, false);
    CardWithout(Dues(m, w, false), a);
  }

  lemma SwitchBack(m: Machine, a: nat, b: nat)
    requires Fit(m) && a in m.calls && SwitchesOff(Do(m, Go(a)), b)
    ensures CanSwitchOff(m)
  {
    CallFacts(m, a);
    CallsAfter(m, a);
    hide Do, Fit, Tidy, Dues, Empties, Counts;
    if b == a && NextCtrl(m, a) != m.calls[a].ctrl {
      ClearingMayEmpty(m, a);
      assert MayEmpty(m, a, m.calls[a].pc.which);
    } else {
      assert SwitchesOff(m, b);
    }
  }

  lemma EmptiesBack(m: Machine, a: nat, w: Which)
    requires Fit(m) && a in m.calls
    ensures Empties(Do(m, Go(a)), w) ==> Empties(m, w)
    ensures forall on :: Dues(Do(m, Go(a)), w, on) <= Dues(m, w, on)
    ensures Counts(m, a, w) ==> a !in Dues(Do(m, Go(a)), w, m.calls[a].on)
  {
    EmptiesAfter(m, a, w);
    DuesAfter(m, a, w, true);
    DuesAfter(m, a, w, false);
    hide Do, Fit, Dues, Counts, Counter;
  }

  lemma EmptyBack(m: Machine, a: nat, b: nat, w: Which)
    requires Fit(m) && a in m.calls && MayEmpty(Do(m, Go(a)), b, w)
    ensures CanSwitchOff(m)
  {
    CallFacts(m, a);
    CallsAfter(m, a);
    EmptiesBack(m, a, w);
    hide Do, Fit, Tidy, Dues, Empties, Counter;
    if b == a && NextCtrl(m, a) != m.calls[a].ctrl {
      ClearingMayEmpty(m, a);
      assert MayEmpty(m, a, OfTimer);
    } else {
      assert b in m.calls && Cleared(m.calls[b].ctrl, m.calls[b].bits, w) == Cleared(Do(m, Go(a)).calls[b].ctrl, m.calls[b].bits, w);
      assert MayEmpty(m, b, w);
    }
  }

  lemma SpareBack(m: Machine, a: nat)
    requires Fit(m) && a in m.calls && CanStayOff(Do(m, Go(a)))
    requires NextCtrl(m, a) == m.calls[a].ctrl || m.calls[a].pc.which.OfReload?
    requires Empties(m, OfReload) && (forall b :: !SwitchesOn(m, b))
    ensures exists b :: Spares(m, b)
  {
    var m', c := Do(m, Go(a)), m.calls[a];
    CallFacts(m, a);
    CallsAfter(m, a);
    EmptiesAfter(m, a, OfReload);
    EmptiesBack(m, a, OfReload);
    NobodyOn(m);
    hide Do, Fit, Tidy, Empties, Dues;
    if Counts(m, a, OfReload) && Counter(m.users, OfReload) == 1 {
      CountingDown(m, a);
      assert !SwitchesOn(m', a);
      assert Spares(m, a);
    } else {
      assert Empties(m', OfReload);
      var b :| Spares(m', b);
      assert Spares(m, b);
    }
  }

  lemma StayBack(m: Machine, a: nat)
    requires Fit(m) && a in m.calls && CanStayOff(Do(m, Go(a)))
    ensures CanSwitchOff(m) || CanStayOff(m)
  {
    var m', c := Do(m, Go(a)), m.calls[a];
    CallFacts(m, a);
    CallsAfter(m, a);
    hide Do, Fit, Tidy, Empties, Dues;
    if NextCtrl(m, a) != c.ctrl && c.pc.which.OfTimer? {
      ClearingMayEmpty(m, a);
      assert MayEmpty(m, a, OfTimer);
    } else if SwitchesOff(m, a) {
    } else {
      forall b
        ensures !SwitchesOn(m, b)
      {
        assert !SwitchesOn(m', b);
      }
      if Empties(m, OfReload) {
        SpareBack(m, a);
      }
    }
  }

  lemma NobodyOn(m: Machine)
    requires Fit(m) && forall b :: !SwitchesOn(m, b)
    ensures forall b | b in m.calls :: !m.calls[b].on
    ensures forall w :: Dues(m, w, true) == {}
  {
    forall b | b in m.calls
      ensures !m.calls[b].on
    {
      CallFacts(m, b);
      assert !SwitchesOn(m, b);
    }
  }

  lemma CountingDown(m: Machine, a: nat)
    requires Counts(m, a, OfReload) && !m.calls[a].on
    ensures a in Dues(m, OfReload, false)
  {
    CountingIsDue(m, a, OfReload);
  }

  // ---- Forth: a step that keeps an end with the timer off in reach ------------------------

  lemma SwitchForth(m: Machine, s: nat) returns (a: nat)
    requires Fit(m) && SwitchesOff(m, s)
    ensures a in m.calls && (CanSwitchOff(Do(m, Go(a))) || CanStayOff(Do(m, Go(a))))
  {
    hide Do, Fit, Tidy, Empties;
    if b :| b in m.calls && b != s {
      a := b;
      CallFacts(m, a);
      CallsAfter(m, a);
      assert SwitchesOff(Do(m, Go(a)), s);
    } else {
      a := s;
      CallFacts(m, a);
      CallsAfter(m, a);
      if m.calls[a].pc.Store? {
        assert m.calls - {a} == map[];
        NobodyLeft(Do(m, Go(a)));
      } else {
        assert SwitchesOff(Do(m, Go(a)), s);
      }
    }
  }

  lemma NobodyLeft(m: Machine)
    requires m.calls == map[]
    ensures CanStayOff(m) <==> !m.users.ctrl.timer
    ensures !CanSwitchOff(m)
  {
    assert Dues(m, OfReload, false) == {};
  }

  lemma OtherForth(m: Machine, s: nat, w: Which, a: nat)
    requires Fit(m) && MayEmpty(m, s, w) && a != s
    requires var n := Counter(m.users, w);
      (n <= 0 && a in Dues(m, w, true)) || (n > 1 && a in Dues(m, w, false))
    ensures MayEmpty(Do(m, Go(a)), s, w)
  {
    hide Do, Fit, Tidy, MakesOff;
    DueIsCall(m, a, w);
    CallFacts(m, a);
    CallsAfter(m, a);
    EmptiesAfter(m, a, w);
    DuesAfter(m, a, w, false);
    OthersAfter(m, a, s);
    hide Dues;
  }

  lemma DueIsCall(m: Machine, a: nat, w: Which)
    ensures forall on :: a in Dues(m, w, on) ==> a in m.calls && m.calls[a].on == on
  {
  }

  lemma OwnForth(m: Machine, s: nat, w: Which)
    requires Fit(m) && MayEmpty(m, s, w) && Counter(m.users, w) == 1
    ensures CanSwitchOff(Do(m, Go(s)))
  {
    hide Do, Fit, Tidy, Dues, Empties;
    DueIsCall(m, s, w);
    CallFacts(m, s);
    CallsAfter(m, s);
    NotAtStore(m, s, w);
    if Counts(m, s, w) {
      assert SwitchesOff(Do(m, Go(s)), s);
    } else if NextCtrl(m, s) != m.calls[s].ctrl {
      ClearingMayEmpty(m, s);
      assert SwitchesOff(Do(m, Go(s)), s);
    } else {
      StaysPossible(m, s, w);
      assert MayEmpty(Do(m, Go(s)), s, w);
    }
  }

  lemma StaysPossible(m: Machine, a: nat, w: Which)
    requires Fit(m) && a in m.calls && !Counts(m, a, w)
    ensures Empties(Do(m, Go(a)), w) <==> Empties(m, w)
    ensures forall on :: Dues(Do(m, Go(a)), w, on) == Dues(m, w, on)
  {
    EmptiesAfter(m, a, w);
    DuesAfter(m, a, w, true);
    DuesAfter(m, a, w, false);
    hide Do, Fit, Dues, Counts, Counter;
  }

  lemma NotAtStore(m: Machine, a: nat, w: Which)
    requires a in Dues(m, w, false)
    ensures !m.calls[a].pc.Store?
    ensures m.calls[a].pc.Count? && m.calls[a].pc.which != w ==> m.calls[a].pc.which.OfTimer?
  {
  }

  lemma EmptyForth(m: Machine, s: nat, w: Which) returns (a: nat)
    requires Fit(m) && MayEmpty(m, s, w)
    ensures a in m.calls && CanSwitchOff(Do(m, Go(a)))
  {
    var n := Counter(m.users, w);
    hide Do, Fit, MakesOff;
    DueIsCall(m, s, w);
    if n == 1 {
      a := s;
      OwnForth(m, s, w);
    } else {
      if n <= 0 {
        a :| a in Dues(m, w, true);
      } else {
        CardWithout(Dues(m, w, false), s);
        a :| a in Dues(m, w, false) - {s};
      }
      DueIsCall(m, a, w);
      OtherForth(m, s, w, a);
    }
  }

  /** A step that leaves the register of its call alone switches nothing on. */
  lemma QuietStep(m: Machine, a: nat)
    requires Fit(m) && a in m.calls && (forall b :: !SwitchesOn(m, b)) && !m.users.ctrl.timer
    requires NextCtrl(m, a) == m.calls[a].ctrl || !NextCtrl(m, a).timer || NextCtrl(m, a) == m.calls[a].seen
    ensures var m' := Do(m, Go(a)); !m'.users.ctrl.timer && forall b :: !SwitchesOn(m', b)
  {
    CallFacts(m, a);
    CallsAfter(m, a);
    hide Do, Fit, Tidy;
    assert !SwitchesOn(m, a);
    forall b
      ensures !SwitchesOn(Do(m, Go(a)), b)
    {
      assert !SwitchesOn(m, b);
    }
  }

  lemma SpareForth(m: Machine, b: nat) returns (a: nat)
    requires Fit(m) && CanStayOff(m) && Spares(m, b) && Empties(m, OfReload)
    ensures a in m.calls && (CanSwitchOff(Do(m, Go(a))) || CanStayOff(Do(m, Go(a))))
  {
    hide Do, Fit, MakesOn;
    NobodyOn(m);
    DueIsCall(m, b, OfReload);
    a := b;
    if Counter(m.users, OfReload) > 1 {
      CardWithout(Dues(m, OfReload, false), b);
      a :| a in Dues(m, OfReload, false) - {b};
      DueIsCall(m, a, OfReload);
    }
    SpareStep(m, b, a);
  }

  lemma SpareStep(m: Machine, b: nat, a: nat)
    requires Fit(m) && CanStayOff(m) && Spares(m, b) && Empties(m, OfReload)
    requires a in Dues(m, OfReload, false) && (a == b <==> Counter(m.users, OfReload) == 1)
    ensures CanSwitchOff(Do(m, Go(a))) || CanStayOff(Do(m, Go(a)))
  {
    var m' := Do(m, Go(a));
    hide Do, Fit, Tidy, Dues, Empties;
    DueIsCall(m, a, OfReload);
    NotAtStore(m, a, OfReload);
    CallFacts(m, a);
    CallsAfter(m, a);
    if NextCtrl(m, a) != m.calls[a].ctrl && m.calls[a].pc.which.OfTimer? {
      ClearingMayEmpty(m, a);
      assert SwitchesOff(m', a);
    } else {
      QuietStep(m, a);
      SpareStays(m, b, a);
    }
  }

  lemma SpareStays(m: Machine, b: nat, a: nat)
    requires Fit(m) && CanStayOff(m) && Spares(m, b) && Empties(m, OfReload)
    requires a in Dues(m, OfReload, false) && (a == b <==> Counter(m.users, OfReload) == 1)
    requires !(m.calls[a].pc == Count(OfTimer) && NextCtrl(m, a) != m.calls[a].ctrl)
    ensures Empties(Do(m, Go(a)), OfReload) ==> Spares(Do(m, Go(a)), b)
  {
    var m' := Do(m, Go(a));
    NobodyOn(m);
    DueIsCall(m, a, OfReload);
    NotAtStore(m, a, OfReload);
    CallFacts(m, a);
    CallsAfter(m, a);
    DuesAfter(m, a, OfReload, false);
    if a == b && Counts(m, a, OfReload) {
      EmptiesAfter(m, a, OfReload);
    }
    hide Do, Fit, Tidy, Dues, Empties, CanStayOff;
  }

  lemma StayForth(m: Machine) returns (a: nat)
    requires Fit(m) && CanStayOff(m) && m.calls != map[]
    ensures a in m.calls && (CanSwitchOff(Do(m, Go(a))) || CanStayOff(Do(m, Go(a))))
  {
    hide Do, Fit, Dues, MakesOn;
    if Empties(m, OfReload) {
      var b :| Spares(m, b);
      a := SpareForth(m, b);
    } else {
      a :| a in m.calls;
      FreeStep(m, a);
    }
  }

  /** If no order empties the counter, any step will do. */
  lemma FreeStep(m: Machine, a: nat)
    requires Fit(m) && CanStayOff(m) && a in m.calls && !Empties(m, OfReload)
    ensures CanSwitchOff(Do(m, Go(a))) || CanStayOff(Do(m, Go(a)))
  {
    var m' := Do(m, Go(a));
    CallFacts(m, a);
    CallsAfter(m, a);
    EmptiesBack(m, a, OfReload);
    hide Do, Fit, Tidy, Dues, Empties;
    if NextCtrl(m, a) != m.calls[a].ctrl {
      ClearingMayEmpty(m, a);
      assert SwitchesOff(m', a);
    } else {
      QuietStep(m, a);
    }
  }

  // ---- The condition -------------------------------------------------------------------------

  function Rank(pc: Pc): nat {
    match pc
    case Test(w) => if w.OfTimer? then 7 else 4
    case Count(w) => if w.OfTimer? then 6 else 3
    case Mark(w) => if w.OfTimer? then 5 else 2
    case Store => 1
  }

  /** What is left to do. */
  function Left(m: Machine): set<(nat, nat)> {
    set a: nat, r: nat | a in m.calls && r < Rank(m.calls[a].pc) :: (a, r)
  }

  lemma GoLeavesLess(m: Machine, a: nat)
    requires Tidy(m) && a in m.calls
    ensures Left(Do(m, Go(a))) < Left(m)
  {
    var m' := Do(m, Go(a));
    CallsAfter(m, a);
    assert (a, Rank(m.calls[a].pc) - 1) in Left(m);
    assert a in m'.calls ==> Rank(m'.calls[a].pc) < Rank(m.calls[a].pc);
    hide Do, Tidy, Rank;
    assert Left(m') <= Left(m);
    assert (a, Rank(m.calls[a].pc) - 1) !in Left(m');
  }

  lemma AllBack(m: Machine, a: nat)
    requires Fit(m) && a in m.calls && CanEndOff(Do(m, Go(a)))
    ensures CanEndOff(m)
  {
    var m' := Do(m, Go(a));
    hide Do, Fit, WillHold, CanStayOff, MayEmpty, SwitchesOff;
    var id :| WillHold(m', id);
    WillHoldAfter(m, a, id);
    if b :| SwitchesOff(m', b) {
      SwitchBack(m, a, b);
    } else if b, w :| MayEmpty(m', b, w) {
      EmptyBack(m, a, b, w);
    } else {
      StayBack(m, a);
    }
  }

  lemma {:induction false} RunBack(m: Machine, steps: seq<Step>)
    requires Fit(m) && OnlyGo(steps)
    ensures Fit(Run(m, steps)) && (CanEndOff(Run(m, steps)) ==> CanEndOff(m))
    decreases |steps|
  {
    if steps != [] {
      var m1, s := Run(m, steps[..|steps| - 1]), steps[|steps| - 1];
      RunBack(m, steps[..|steps| - 1]);
      hide Fit, CanEndOff;
      if s.caller in m1.calls {
        GoFit(m1, s.caller);
        if CanEndOff(Do(m1, s)) {
          AllBack(m1, s.caller);
        }
      }
    }
  }

  lemma AllForth(m: Machine) returns (a: nat)
    requires Fit(m) && CanEndOff(m) && m.calls != map[]
    ensures a in m.calls && CanEndOff(Do(m, Go(a)))
  {
    hide Do, Fit, WillHold, CanStayOff, MayEmpty, SwitchesOff;
    if b :| SwitchesOff(m, b) {
      a := SwitchForth(m, b);
    } else if b, w :| MayEmpty(m, b, w) {
      a := EmptyForth(m, b, w);
    } else {
      a := StayForth(m);
    }
    var id :| WillHold(m, id);
    WillHoldAfter(m, a, id);
  }

  lemma EndsOffIff(m: Machine)
    requires m.calls == map[]
    ensures CanEndOff(m) <==> Stopped(m)
  {
    NobodyLeft(m);
    assert forall id :: WillHold(m, id) <==> id in Holding(m.users, OfTimer);
  }

  lemma {:induction false} EndsOff(m: Machine)
    requires Fit(m) && CanEndOff(m)
    ensures CanStop(m)
    decreases Left(m)
  {
    hide Do, Fit, CanEndOff, CanStop, Stopped, Left;
    if m.calls == map[] {
      EndsOffIff(m);
      StoppedCanStop(m);
    } else {
      var a := AllForth(m);
      GoFit(m, a);
      CallFacts(m, a);
      GoLeavesLess(m, a);
      EndsOff(Do(m, Go(a)));
      StopsAfter(m, a);
    }
  }

  /**
    Wherever the calls in progress are, as long as no two of them have still to test or store
    a flag of one subscriber: some order of what is left of them stops the timer under an
    enabled subscriber if and only if somebody will be enabled at the end, and either a call
    will switch it off, or can be the one that counts a counter to 0 and then does, or the
    timer is off already and no call needs to switch it on.
  */
  lemma TimerCanStopIff(m: Machine)
    requires Tidy(m) && CtrlsOk(m) && Apart(m)
    ensures CanStop(m) <==> CanEndOff(m)
  {
    hide Tidy, CtrlsOk, Apart, CanEndOff, Stopped;
    if CanEndOff(m) {
      EndsOff(m);
    }
    forall steps | OnlyGo(steps) && Stopped(Run(m, steps))
      ensures CanEndOff(m)
    {
      RunBack(m, steps);
      StoppedIsEmpty(Run(m, steps));
      EndsOffIff(Run(m, steps));
    }
  }

  lemma StoppedIsEmpty(m: Machine)
    ensures Stopped(m) ==> m.calls == map[]
  {
  }

  lemma {:induction false} RunFrom(m: Machine, s: Step, steps: seq<Step>)
    ensures Run(m, [s] + steps) == Run(Do(m, s), steps)
    decreases |steps|
  {
    if steps == [] {
      assert [s] + steps == [s] && [s][..0] == [];
    } else {
      assert ([s] + steps)[..|steps|] == [s] + steps[..|steps| - 1];
      RunFrom(m, s, steps[..|steps| - 1]);
    }
  }

  lemma StopsAfter(m: Machine, a: nat)
    requires CanStop(Do(m, Go(a)))
    ensures CanStop(m)
  {
    var steps :| OnlyGo(steps) && Stopped(Run(Do(m, Go(a)), steps));
    RunFrom(m, Go(a), steps);
    assert OnlyGo([Go(a)] + steps);
  }

  lemma StoppedCanStop(m: Machine)
    requires Stopped(m)
    ensures CanStop(m)
  {
    assert Run(m, []) == m && OnlyGo([]);
  }

  /**
    A run that ends so: subscriber 1 switches off as the only user, and before it stores the
    register subscriber 2 switches on.
  */
  lemma RaceStopsTimer()
    ensures exists m :: Reachable(m) && Stopped(m)
  {
    var m0 := EnabledOne();
    Reaches(m0, Open(2));
    var m1 := Do(m0, Open(2));
    ReachesCalled(m1, 1, 1, false, false);
    UndisturbedCall(m1, 1, 1, false, false);
    var m2 := Called(m1, 1, 1, false, false);
    hide Called, Reachable;
    assert m2.calls == map[1 := m2.calls[1]] && m2.calls[1].pc.Store?;
    assert Writes(m2.calls[1]) && !Written(m2.calls[1]).timer && !m2.calls[1].closing;
    assert m2.users.subs.Keys == {1, 2} && !m2.users.subs[2].enabled;
    SwitchOnThenStore(m2);
  }

  lemma SwitchOnThenStore(m: Machine)
    requires Reachable(m) && m.calls.Keys == {1} && m.users.subs.Keys == {1, 2}
    requires var c := m.calls[1];
             c.id == 1 && c.pc.Store? && !c.closing && Writes(c) && !Written(c).timer
    ensures exists m' :: Reachable(m') && Stopped(m')
  {
    ReachesCalled(m, 2, 2, true, false);
    UndisturbedIsAtomic(m, 2, 2, true, false);
    var m3 := Called(m, 2, 2, true, false);
    Reaches(m3, Go(2));
    var m4 := Do(m3, Go(2));
    hide Called, Reachable;
    assert m4.calls == m.calls && m4.users.subs[2].enabled;
    Reaches(m4, Go(1));
    LastStore(m4);
  }

  lemma LastStore(m: Machine)
    requires m.calls.Keys == {1} && 1 in m.users.subs && 2 in m.users.subs && m.users.subs[2].enabled
    requires var c := m.calls[1];
             c.id == 1 && c.pc.Store? && !c.closing && Writes(c) && !Written(c).timer
    ensures Stopped(Do(m, Go(1)))
  {
    var m' := Do(m, Go(1));
    assert 2 in Holding(m'.users, OfTimer) && m'.calls == map[];
  }
}
