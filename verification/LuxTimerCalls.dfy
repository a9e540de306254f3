/**
  The calls that enable and disable the Lux timer, taken apart. Each reads the control
  register; tests the subscriber's flag, changes the counter and stores the flag, for
  `enabled` and then for `periodic`; and writes the register back. No lock is held, so calls
  interleave at each of these points, also calls of two threads on one descriptor.
*/
module LuxTimerCalls {
  import opened LuxTimerUsers

  /** The two flags of a subscriber, each with its counter. */
  datatype Which = OfTimer | OfReload

  /** Where a call is: about to test, to count, to mark (the flag), or to store the register. */
  datatype Pc = Test(which: Which) | Count(which: Which) | Mark(which: Which) | Store

  /** A call on subscriber `id`: the register as it read it, and as it will write it. */
  datatype Call = Call(id: nat, on: bool, bits: Bits, seen: Bits, ctrl: Bits, closing: bool, pc: Pc)

  /** `calls` holds the calls in progress, by caller. */
  datatype Machine = Machine(users: Users, calls: map<nat, Call>)

  /**
    `Load` begins LUX_PIE_ON or LUX_AIE_ON, or the like with OFF; `LoadRelease` begins the
    release of the last reference to a descriptor, when nobody else can be using it.
  */
  datatype Step =
    | Open(id: nat)
    | Load(caller: nat, id: nat, on: bool, reload: bool)
    | LoadRelease(caller: nat, id: nat)
    | Go(caller: nat)

  predicate Holds(f: Flags, w: Which) {
    if w.OfTimer? then f.enabled else f.periodic
  }

  function Marked(f: Flags, w: Which, on: bool): Flags {
    if w.OfTimer? then f.(enabled := on) else f.(periodic := on)
  }

  function Counter(u: Users, w: Which): int {
    if w.OfTimer? then u.enabledUsers else u.periodicUsers
  }

  function WithCounter(u: Users, w: Which, n: int): Users {
    if w.OfTimer? then u.(enabledUsers := n) else u.(periodicUsers := n)
  }

  /** Whether a call with these bits is about the flag. */
  predicate Names(bits: Bits, w: Which) {
    if w.OfTimer? then bits.timer || bits.irq else bits.reload
  }

  /** The register once the last holder of the flag has been counted out. */
  function Cleared(ctrl: Bits, bits: Bits, w: Which): Bits {
    if w.OfTimer? then ctrl.(timer := ctrl.timer && !bits.timer, irq := ctrl.irq && !bits.irq)
    else ctrl.(reload := false)
  }

  function Past(w: Which): Pc {
    if w.OfTimer? then Test(OfReload) else Store
  }

  function At(m: Machine, caller: nat, c: Call): Machine {
    m.(calls := m.calls[caller := c])
  }

  /** What a call writes, and whether it writes at all. */
  function Written(c: Call): Bits {
    if c.on then CtrlOn(c.ctrl, c.bits) else c.ctrl
  }

  predicate Writes(c: Call) {
    c.on || c.ctrl != c.seen
  }

  /** The next part of a call in progress. */
  function Advance(m: Machine, caller: nat): Machine
    requires caller in m.calls && m.calls[caller].id in m.users.subs
  {
    var u, c := m.users, m.calls[caller];
    match c.pc
    case Test(w) =>
      if Holds(u.subs[c.id], w) != c.on && Names(c.bits, w) then At(m, caller, c.(pc := Count(w)))
      else At(m, caller, c.(pc := Past(w)))
    case Count(w) =>
      var n := if c.on then Counter(u, w) + 1 else Counter(u, w) - 1;
      var ctrl := if !c.on && n == 0 then Cleared(c.ctrl, c.bits, w) else c.ctrl;
      At(m, caller, c.(pc := Mark(w), ctrl := ctrl)).(users := WithCounter(u, w, n))
    case Mark(w) =>
      At(m, caller, c.(pc := Past(w))).(users := WithFlags(u, c.id, Marked(u.subs[c.id], w, c.on)))
    case Store =>
      var u' := if Writes(c) then u.(ctrl := Written(c)) else u;
      Machine(if c.closing then u'.(subs := u'.subs - {c.id}) else u', m.calls - {caller})
  }

  function Do(m: Machine, s: Step): Machine {
    var u := m.users;
    match s
    case Open(id) =>
      if id in u.subs then m else m.(users := WithFlags(u, id, Flags(false, false)))
    case Load(caller, id, on, reload) =>
      if caller in m.calls || id !in u.subs || Closing(m, id) then m
      else At(m, caller, Call(id, on, BitsOf(reload), u.ctrl, u.ctrl, false, Test(OfTimer)))
    case LoadRelease(caller, id) =>
      if caller in m.calls || id !in u.subs || InUse(m, id) then m
      else At(m, caller, Call(id, false, ALL_BITS, u.ctrl, u.ctrl, true, Test(OfTimer)))
    case Go(caller) =>
      if caller in m.calls && m.calls[caller].id in u.subs then Advance(m, caller) else m
  }

  predicate InUse(m: Machine, id: nat) {
    exists a | a in m.calls :: m.calls[a].id == id
  }

  predicate Closing(m: Machine, id: nat) {
    exists a | a in m.calls :: m.calls[a].id == id && m.calls[a].closing
  }

  const FIRST := Machine(FirstUsers(), map[])

  function Run(m: Machine, steps: seq<Step>): Machine {
    if steps == [] then m else Do(Run(m, steps[..|steps| - 1]), steps[|steps| - 1])
  }

  // ---- What holds in every run ------------------------------------------------------------

  /** A release is alone on its subscriber, and leaves it without flags before it ends. */
  ghost predicate ReleaseOk(m: Machine, a: nat)
    requires a in m.calls && m.calls[a].id in m.users.subs
  {
    var c := m.calls[a];
    var f := m.users.subs[c.id];
    c.closing ==>
      && !c.on && c.bits == ALL_BITS
      && (forall b | b in m.calls && b != a :: m.calls[b].id != c.id)
      && (c.pc.Store? || c.pc.which.OfReload? ==> !f.enabled)
      && (c.pc.Store? ==> !f.periodic)
  }

  ghost predicate Tidy(m: Machine) {
    && (forall a | a in m.calls :: m.calls[a].id in m.users.subs)
    && (forall a | a in m.calls :: ReleaseOk(m, a))
  }

  lemma AdvanceTidy(m: Machine, a: nat)
    requires Tidy(m) && a in m.calls
    ensures Tidy(Advance(m, a))
  {
    var m', c := Advance(m, a), m.calls[a];
    assert ReleaseOk(m, a);
    forall b | b in m'.calls
      ensures m'.calls[b].id in m'.users.subs
    {
      assert ReleaseOk(m, b);
    }
    forall b | b in m'.calls
      ensures ReleaseOk(m', b)
    {
      assert ReleaseOk(m, b);
    }
  }

  lemma DoTidy(m: Machine, s: Step)
    requires Tidy(m)
    ensures Tidy(Do(m, s))
  {
    var m' := Do(m, s);
    match s
    case Go(a) =>
      if a in m.calls {
        AdvanceTidy(m, a);
      }
    case _ =>
      forall b | b in m'.calls
        ensures m'.calls[b].id in m'.users.subs && ReleaseOk(m', b)
      {
        if b in m.calls {
          assert ReleaseOk(m, b);
        }
      }
  }

  lemma {:induction false} RunTidy(steps: seq<Step>)
    ensures Tidy(Run(FIRST, steps))
  {
    if steps != [] {
      RunTidy(steps[..|steps| - 1]);
      DoTidy(Run(FIRST, steps[..|steps| - 1]), steps[|steps| - 1]);
    }
  }

  // ---- A call nobody interferes with --------------------------------------------------------

  /** The test of one flag by `caller` and, if it passes, count and mark, while other calls rest. */
  function Half(m: Machine, caller: nat, w: Which): Machine {
    var m1 := Do(m, Go(caller));
    if caller in m1.calls && m1.calls[caller].pc == Count(w) then Do(Do(m1, Go(caller)), Go(caller)) else m1
  }

  predicate Passes(m: Machine, c: Call, w: Which) {
    c.id in m.users.subs && Holds(m.users.subs[c.id], w) != c.on && Names(c.bits, w)
  }

  /** Counter and flag after a test that passes, and the register to be written. */
  function Changed(u: Users, c: Call, w: Which): Users
    requires c.id in u.subs
  {
    WithFlags(WithCounter(u, w, if c.on then Counter(u, w) + 1 else Counter(u, w) - 1),
              c.id, Marked(u.subs[c.id], w, c.on))
  }

  function ChangedCtrl(u: Users, c: Call, w: Which): Bits {
    if !c.on && Counter(u, w) == 1 then Cleared(c.ctrl, c.bits, w) else c.ctrl
  }

  lemma HalfIs(m: Machine, caller: nat, w: Which)
    requires caller in m.calls && m.calls[caller].id in m.users.subs && m.calls[caller].pc == Test(w)
    ensures var u, c := m.users, m.calls[caller];
            Half(m, caller, w) ==
            if Passes(m, c, w)
            then Machine(Changed(u, c, w),
                         m.calls[caller := c.(pc := Past(w), ctrl := ChangedCtrl(u, c, w))])
            else At(m, caller, c.(pc := Past(w)))
  {
    var c := m.calls[caller];
    if Passes(m, c, w) {
      var m1 := Do(m, Go(caller));
      var m2 := Do(m1, Go(caller));
      var n := if c.on then Counter(m.users, w) + 1 else Counter(m.users, w) - 1;
      assert m1 == At(m, caller, c.(pc := Count(w)));
      assert m2.calls == m.calls[caller := c.(pc := Mark(w), ctrl := ChangedCtrl(m.users, c, w))];
      assert m2.users == WithCounter(m.users, w, n);
      var m3 := Do(m2, Go(caller));
      assert m3.calls == m.calls[caller := c.(pc := Past(w), ctrl := ChangedCtrl(m.users, c, w))];
    }
  }

  /** The call of `caller` up to its store. */
  function Called(m: Machine, caller: nat, id: nat, on: bool, reload: bool): Machine {
    Half(Half(Do(m, Load(caller, id, on, reload)), caller, OfTimer), caller, OfReload)
  }

  /** What it does to flags and counters, and what it is about to write. */
  lemma UndisturbedCall(m: Machine, caller: nat, id: nat, on: bool, reload: bool)
    requires caller !in m.calls && id in m.users.subs && !Closing(m, id)
    ensures var u, bits, m2 := m.users, BitsOf(reload), Called(m, caller, id, on, reload);
            && m2.users == (if on then CountOn(u, id, bits) else CountOff(u, id, bits))
            && m2.calls == m.calls[caller := Call(id, on, bits, u.ctrl,
                 if on then u.ctrl else CtrlOff(u, id, u.ctrl, bits), false, Store)]
  {
    var u, bits := m.users, BitsOf(reload);
    var c := Call(id, on, bits, u.ctrl, u.ctrl, false, Test(OfTimer));
    var m1 := Do(m, Load(caller, id, on, reload));
    assert m1 == At(m, caller, c);
    hide Half, Do;
    BothHalves(m1, caller, c, on, reload);
  }

  lemma BothHalves(m: Machine, caller: nat, c: Call, on: bool, reload: bool)
    requires caller in m.calls && m.calls[caller] == c && c.id in m.users.subs
    requires c.on == on && c.bits == BitsOf(reload) && c.pc == Test(OfTimer) && c.ctrl == m.users.ctrl
    ensures var m2 := Half(m, caller, OfTimer); var m3 := Half(m2, caller, OfReload);
            && m3.users == (if on then CountOn(m.users, c.id, c.bits) else CountOff(m.users, c.id, c.bits))
            && m3.calls == m.calls[caller := c.(pc := Store,
                 ctrl := if on then c.ctrl else CtrlOff(m.users, c.id, c.ctrl, c.bits))]
  {
    hide Half, Do;
    HalfIs(m, caller, OfTimer);
    var m2 := Half(m, caller, OfTimer);
    HalfIs(m2, caller, OfReload);
    var m3 := Half(m2, caller, OfReload);
    if on {
      assert m3.users.subs == CountOn(m.users, c.id, c.bits).subs;
    } else {
      assert m3.users.subs == CountOff(m.users, c.id, c.bits).subs;
    }
  }

  /** Uninterrupted, a call is the step that `LuxTimerUsers` takes it for. */
  lemma UndisturbedIsAtomic(m: Machine, caller: nat, id: nat, on: bool, reload: bool)
    requires caller !in m.calls && id in m.users.subs && !Closing(m, id)
    ensures var bits := BitsOf(reload);
            Do(Called(m, caller, id, on, reload), Go(caller)) ==
            m.(users := if on then Enable(m.users, id, bits) else Disable(m.users, id, bits))
  {
    UndisturbedCall(m, caller, id, on, reload);
    hide Called;
    var m2 := Called(m, caller, id, on, reload);
    assert m2.calls - {caller} == m.calls;
  }

  /** The release of the last reference by `caller`, up to its store. */
  function Releasing(m: Machine, caller: nat, id: nat): Machine {
    Half(Half(Do(m, LoadRelease(caller, id)), caller, OfTimer), caller, OfReload)
  }

  /** Uninterrupted, a release is one step too, and leaves no trace of the subscriber. */
  lemma UndisturbedRelease(m: Machine, caller: nat, id: nat)
    requires caller !in m.calls && id in m.users.subs && !InUse(m, id)
    ensures Do(Releasing(m, caller, id), Go(caller)) == m.(users := Perform(m.users, ReleaseOp(id)))
    ensures id !in Do(Releasing(m, caller, id), Go(caller)).users.subs
  {
    var u := m.users;
    var c := Call(id, false, ALL_BITS, u.ctrl, u.ctrl, true, Test(OfTimer));
    var m1 := Do(m, LoadRelease(caller, id));
    assert m1 == At(m, caller, c);
    ReleaseHalves(m1, caller, c);
    var m2 := Releasing(m, caller, id);
    hide Releasing, Half;
    assert m2.calls - {caller} == m.calls;
    var u' := Disable(u, id, ALL_BITS);
    assert Do(m2, Go(caller)).users == u'.(subs := u'.subs - {id});
  }

  lemma ReleaseHalves(m: Machine, caller: nat, c: Call)
    requires caller in m.calls && m.calls[caller] == c && c.id in m.users.subs
    requires !c.on && c.bits == ALL_BITS && c.pc == Test(OfTimer) && c.ctrl == m.users.ctrl
    ensures var m2 := Half(Half(m, caller, OfTimer), caller, OfReload);
            && m2.users == CountOff(m.users, c.id, ALL_BITS)
            && m2.calls == m.calls[caller := c.(pc := Store, ctrl := CtrlOff(m.users, c.id, c.ctrl, ALL_BITS))]
  {
    hide Half, CountOff, CtrlOff, CountOn;
    BothHalves(m, caller, c, false, true);
  }

  // ---- When the counters are exact ---------------------------------------------------------

  /** A call between its test of the flag and the store of it. */
  predicate Window(m: Machine, a: nat, w: Which) {
    a in m.calls && (m.calls[a].pc == Count(w) || m.calls[a].pc == Mark(w))
  }

  /** No two calls of one subscriber are in there at once. */
  ghost predicate Alone(m: Machine, w: Which) {
    forall a, b | Window(m, a, w) && Window(m, b, w) && a != b :: m.calls[a].id != m.calls[b].id
  }

  function Holding(u: Users, w: Which): set<nat> {
    set id | id in u.subs && Holds(u.subs[id], w)
  }

  /** Callers about to count up, and down. */
  function Counting(m: Machine, w: Which, on: bool): set<nat> {
    set a | a in m.calls && m.calls[a].pc == Count(w) && m.calls[a].on == on
  }

  /** Subscribers whose flag a call is about to set, and to clear. */
  function Moving(m: Machine, w: Which, on: bool): set<nat> {
    set a | a in m.calls && Window(m, a, w) && m.calls[a].on == on :: m.calls[a].id
  }

  /** Those in `up` come to what is held, those in `down` go. */
  function Settled(up: set<nat>, held: set<nat>, down: set<nat>): set<nat> {
    up + (held - down)
  }

  /** The holders of the flag once the calls in their windows have left them. */
  function Will(m: Machine, w: Which): set<nat> {
    Settled(Moving(m, w, true), Holding(m.users, w), Moving(m, w, false))
  }

  /** The counter, then, is the number of holders. */
  predicate Balanced(m: Machine, w: Which) {
    Counter(m.users, w) + |Counting(m, w, true)| - |Counting(m, w, false)| == |Will(m, w)|
  }

  lemma NobodyMoves(m: Machine, w: Which)
    requires forall a :: !Window(m, a, w)
    ensures Counting(m, w, true) == Counting(m, w, false) == {}
    ensures Moving(m, w, true) == Moving(m, w, false) == {}
  {
    assert forall a | a in m.calls :: !Window(m, a, w);
  }

  /** With no call in its window, that says the counter is exact now. */
  lemma BalancedAtRest(m: Machine, w: Which)
    requires forall a :: !Window(m, a, w)
    ensures Balanced(m, w) <==> Counter(m.users, w) == |Holding(m.users, w)|
  {
    NobodyMoves(m, w);
    hide Moving, Holding, Counting;
    assert Will(m, w) == Holding(m.users, w);
  }

  /** In its window a call finds the flag as it tested it. */
  ghost predicate Unchanged(m: Machine, w: Which) {
    forall a | Window(m, a, w) :: m.calls[a].id in Holding(m.users, w) <==> !m.calls[a].on
  }

  ghost predicate Steady(m: Machine, w: Which) {
    Tidy(m) && Alone(m, w) && Unchanged(m, w) && Balanced(m, w)
  }

  /** Neither counter, holders nor windows of a flag change. */
  ghost predicate Untouched(m: Machine, m': Machine, w: Which) {
    && Counter(m'.users, w) == Counter(m.users, w)
    && Holding(m'.users, w) == Holding(m.users, w)
    && (forall a :: Window(m, a, w) <==> Window(m', a, w))
    && (forall a | Window(m, a, w) :: m'.calls[a] == m.calls[a])
  }

  lemma UntouchedSets(m: Machine, m': Machine, w: Which)
    requires Untouched(m, m', w)
    ensures forall on :: Counting(m', w, on) == Counting(m, w, on) && Moving(m', w, on) == Moving(m, w, on)
  {
    forall a
      ensures a in m.calls && m.calls[a].pc == Count(w) <==> a in m'.calls && m'.calls[a].pc == Count(w)
      ensures a in m.calls && m.calls[a].pc == Count(w) ==> m'.calls[a] == m.calls[a]
    {
      assert Window(m, a, w) <==> Window(m', a, w);
    }
  }

  lemma UntouchedBalances(m: Machine, m': Machine, w: Which)
    requires Untouched(m, m', w)
    ensures Balanced(m, w) <==> Balanced(m', w)
  {
    UntouchedSets(m, m', w);
    hide Counting, Moving, Holding, Counter, Settled;
  }

  lemma UntouchedApart(m: Machine, m': Machine, w: Which)
    requires Alone(m, w) && Unchanged(m, w) && Untouched(m, m', w)
    ensures Alone(m', w) && Unchanged(m', w)
  {
    hide Window, Holding, Counter;
  }

  lemma UntouchedSteady(m: Machine, m': Machine, w: Which)
    requires Steady(m, w) && Untouched(m, m', w) && Tidy(m')
    ensures Steady(m', w)
  {
    UntouchedBalances(m, m', w);
    UntouchedApart(m, m', w);
    hide Tidy, Balanced, Alone, Unchanged, Untouched;
  }

  /** Beginning a call, and every part of one but the three parts of its window. */
  lemma OtherSteps(m: Machine, s: Step, w: Which)
    requires Tidy(m)
    requires s.Go? && s.caller in m.calls ==>
               var c := m.calls[s.caller];
               !Window(m, s.caller, w) && !(c.pc == Test(w) && Passes(m, c, w))
    ensures Untouched(m, Do(m, s), w)
  {
    var m' := Do(m, s);
    match s
    case Go(a) =>
      if a in m.calls {
        assert ReleaseOk(m, a);
        assert Holding(m'.users, w) == Holding(m.users, w);
      }
    case Open(id) =>
      assert Holding(m'.users, w) == Holding(m.users, w);
    case _ =>
  }

  lemma CountMoves(m: Machine, a: nat, w: Which)
    requires a in m.calls && m.calls[a].id in m.users.subs && m.calls[a].pc == Count(w)
    ensures var m', on := Do(m, Go(a)), m.calls[a].on;
            && Counter(m'.users, w) == Counter(m.users, w) + (if on then 1 else -1)
            && a in Counting(m, w, on) && Counting(m', w, on) == Counting(m, w, on) - {a}
            && Counting(m', w, !on) == Counting(m, w, !on)
            && Holding(m'.users, w) == Holding(m.users, w)
            && Moving(m', w, true) == Moving(m, w, true)
            && Moving(m', w, false) == Moving(m, w, false)
  {
    var m', on := Do(m, Go(a)), m.calls[a].on;
    assert forall b :: Window(m', b, w) <==> Window(m, b, w);
    assert Holding(m'.users, w) == Holding(m.users, w);
    assert Moving(m', w, true) == Moving(m, w, true);
    assert Moving(m', w, false) == Moving(m, w, false);
    assert Counting(m', w, !on) == Counting(m, w, !on);
    assert Counting(m', w, on) == Counting(m, w, on) - {a};
  }

  lemma CountBalances(m: Machine, a: nat, w: Which)
    requires a in m.calls && m.calls[a].id in m.users.subs && m.calls[a].pc == Count(w) && Balanced(m, w)
    ensures Balanced(Do(m, Go(a)), w)
  {
    CountMoves(m, a, w);
    hide Do, Counting, Moving, Holding, Counter, Settled;
    CardWithout(Counting(m, w, m.calls[a].on), a);
  }

  /** Counting and marking keep the windows apart, and the flags of the others. */
  lemma WindowKeeps(m: Machine, a: nat, w: Which)
    requires Window(m, a, w) && m.calls[a].id in m.users.subs && Alone(m, w) && Unchanged(m, w)
    ensures Alone(Do(m, Go(a)), w) && Unchanged(Do(m, Go(a)), w)
  {
    var m', c := Do(m, Go(a)), m.calls[a];
    forall b | Window(m', b, w)
      ensures Window(m, b, w) && m'.calls[b].id == m.calls[b].id && m'.calls[b].on == m.calls[b].on
      ensures m.calls[b].id in Holding(m'.users, w) <==> !m.calls[b].on
    {
      assert b != a ==> m.calls[b].id != c.id;
    }
  }

  lemma CountSteady(m: Machine, a: nat, w: Which)
    requires Steady(m, w) && a in m.calls && m.calls[a].pc == Count(w)
    ensures Steady(Do(m, Go(a)), w)
  {
    DoTidy(m, Go(a));
    assert m.calls[a].id in m.users.subs;
    hide Do, Tidy, Alone, Unchanged, Balanced;
    CountBalances(m, a, w);
    WindowKeeps(m, a, w);
  }

  lemma MarkSteady(m: Machine, a: nat, w: Which)
    requires Steady(m, w) && a in m.calls && m.calls[a].pc == Mark(w)
    ensures Steady(Do(m, Go(a)), w)
  {
    DoTidy(m, Go(a));
    assert m.calls[a].id in m.users.subs;
    hide Do, Tidy, Alone, Unchanged, Balanced;
    MarkBalances(m, a, w);
    WindowKeeps(m, a, w);
  }

  lemma MarkBalances(m: Machine, a: nat, w: Which)
    requires a in m.calls && m.calls[a].id in m.users.subs && m.calls[a].pc == Mark(w)
    requires Alone(m, w) && Balanced(m, w)
    ensures Balanced(Do(m, Go(a)), w)
  {
    var m', c := Do(m, Go(a)), m.calls[a];
    MarkMoves(m, a, w);
    hide Do, Moving, Holding, Alone, Counting, Counter;
    SettleMarked(Moving(m, w, true), Holding(m.users, w), Moving(m, w, false), c.id, c.on);
  }

  lemma SettleMarked(up: set<nat>, held: set<nat>, down: set<nat>, x: nat, on: bool)
    requires if on then x in up && x !in down else x in down && x !in up
    ensures if on then Settled(up - {x}, held + {x}, down) == Settled(up, held, down)
            else Settled(up, held - {x}, down - {x}) == Settled(up, held, down)
  {
  }

  lemma MarkMoves(m: Machine, a: nat, w: Which)
    requires a in m.calls && m.calls[a].id in m.users.subs && m.calls[a].pc == Mark(w) && Alone(m, w)
    ensures var m', c := Do(m, Go(a)), m.calls[a];
            && Counter(m'.users, w) == Counter(m.users, w)
            && Counting(m', w, true) == Counting(m, w, true)
            && Counting(m', w, false) == Counting(m, w, false)
            && c.id in Moving(m, w, c.on) && c.id !in Moving(m, w, !c.on)
            && Moving(m', w, c.on) == Moving(m, w, c.on) - {c.id}
            && Moving(m', w, !c.on) == Moving(m, w, !c.on)
            && Holding(m'.users, w) ==
               if c.on then Holding(m.users, w) + {c.id} else Holding(m.users, w) - {c.id}
  {
    var m', c := Do(m, Go(a)), m.calls[a];
    assert Window(m, a, w);
    assert Counting(m', w, true) == Counting(m, w, true);
    assert Counting(m', w, false) == Counting(m, w, false);
    assert forall b | Window(m, b, w) && b != a :: m.calls[b].id != c.id;
    assert forall b :: Window(m', b, w) <==> Window(m, b, w) && b != a;
    assert Moving(m', w, !c.on) == Moving(m, w, !c.on);
    assert Moving(m', w, c.on) == Moving(m, w, c.on) - {c.id};
    assert Holding(m'.users, w) ==
           if c.on then Holding(m.users, w) + {c.id} else Holding(m.users, w) - {c.id};
  }

  /** A test that passes moves the holders to come by one, unless another call already does. */
  lemma TestMoves(m: Machine, a: nat, w: Which)
    requires a in m.calls && m.calls[a].pc == Test(w) && Passes(m, m.calls[a], w)
    ensures var m', c := Do(m, Go(a)), m.calls[a];
            && Counter(m'.users, w) == Counter(m.users, w)
            && a !in Counting(m, w, c.on)
            && Counting(m', w, c.on) == Counting(m, w, c.on) + {a}
            && Counting(m', w, !c.on) == Counting(m, w, !c.on)
            && Holding(m'.users, w) == Holding(m.users, w)
            && Moving(m', w, c.on) == Moving(m, w, c.on) + {c.id}
            && Moving(m', w, !c.on) == Moving(m, w, !c.on)
            && (c.id in Holding(m.users, w) <==> !c.on)
  {
    var m', c := Do(m, Go(a)), m.calls[a];
    assert forall b :: Window(m', b, w) <==> Window(m, b, w) || b == a;
    assert Counting(m', w, c.on) == Counting(m, w, c.on) + {a};
    assert Counting(m', w, !c.on) == Counting(m, w, !c.on);
    assert Holding(m'.users, w) == Holding(m.users, w);
    assert Moving(m', w, !c.on) == Moving(m, w, !c.on);
    assert Moving(m', w, c.on) == Moving(m, w, c.on) + {c.id} by {
      assert Window(m', a, w);
    }
  }

  /** Whether another call on the same subscriber is in its window. */
  ghost predicate Meets(m: Machine, a: nat, w: Which)
    requires a in m.calls
  {
    exists b :: Window(m, b, w) && m.calls[b].id == m.calls[a].id
  }

  /** The tests agree, so the other call goes the same way. */
  lemma MeetsMoving(m: Machine, a: nat, w: Which)
    requires a in m.calls && Passes(m, m.calls[a], w) && Unchanged(m, w)
    ensures var c := m.calls[a];
            && c.id !in Moving(m, w, !c.on)
            && (Meets(m, a, w) <==> c.id in Moving(m, w, c.on))
  {
    var c := m.calls[a];
    assert c.id in Holding(m.users, w) <==> !c.on;
  }

  lemma TestKeeps(m: Machine, a: nat, w: Which)
    requires a in m.calls && m.calls[a].pc == Test(w) && Passes(m, m.calls[a], w)
    requires Alone(m, w) && Unchanged(m, w)
    ensures Alone(Do(m, Go(a)), w) <==> !Meets(m, a, w)
    ensures Unchanged(Do(m, Go(a)), w)
  {
    var m', c := Do(m, Go(a)), m.calls[a];
    forall b
      ensures Window(m', b, w) <==> Window(m, b, w) || b == a
      ensures Window(m', b, w) ==> m'.calls[b].id == m.calls[b].id && m'.calls[b].on == m.calls[b].on
    {
    }
    assert Holding(m'.users, w) == Holding(m.users, w);
    assert c.id in Holding(m.users, w) <==> !c.on;
  }

  lemma TestWill(m: Machine, a: nat, w: Which)
    requires a in m.calls && m.calls[a].pc == Test(w) && Passes(m, m.calls[a], w) && Unchanged(m, w)
    ensures |Will(Do(m, Go(a)), w)| ==
            |Will(m, w)| + if Meets(m, a, w) then 0 else if m.calls[a].on then 1 else -1
  {
    var m', c := Do(m, Go(a)), m.calls[a];
    TestMoves(m, a, w);
    MeetsMoving(m, a, w);
    hide Do, Moving, Holding, Counting, Counter, Meets, Unchanged, Passes, Settled;
    if c.id in Moving(m, w, c.on) {
      assert Moving(m', w, c.on) == Moving(m, w, c.on);
    } else {
      SettleOne(Moving(m, w, true), Holding(m.users, w), Moving(m, w, false), c.id, c.on);
    }
  }

  /** The counter stays exact if and only if nobody else has passed the test and not yet stored the flag. */
  lemma TestBalancesIff(m: Machine, a: nat, w: Which)
    requires a in m.calls && m.calls[a].pc == Test(w) && Passes(m, m.calls[a], w)
    requires Unchanged(m, w) && Balanced(m, w)
    ensures Balanced(Do(m, Go(a)), w) <==> !Meets(m, a, w)
  {
    var m', on := Do(m, Go(a)), m.calls[a].on;
    TestMoves(m, a, w);
    TestWill(m, a, w);
    hide Do, Moving, Holding, Counting, Counter, Meets, Unchanged, Passes, Will;
    CardWithout(Counting(m', w, on), a);
    assert Counting(m', w, on) - {a} == Counting(m, w, on);
  }

  lemma SettleOne(up: set<nat>, held: set<nat>, down: set<nat>, x: nat, on: bool)
    requires x !in up && x !in down && (x in held <==> !on)
    ensures if on then |Settled(up + {x}, held, down)| == |Settled(up, held, down)| + 1
            else |Settled(up, held, down + {x})| == |Settled(up, held, down)| - 1
  {
    if on {
      assert Settled(up + {x}, held, down) - {x} == Settled(up, held, down);
      CardWithout(Settled(up + {x}, held, down), x);
    } else {
      assert Settled(up, held, down) - {x} == Settled(up, held, down + {x});
      CardWithout(Settled(up, held, down), x);
    }
  }

  lemma TestSteadyIff(m: Machine, a: nat, w: Which)
    requires Steady(m, w) && a in m.calls && m.calls[a].pc == Test(w) && Passes(m, m.calls[a], w)
    ensures Alone(Do(m, Go(a)), w) ==> Steady(Do(m, Go(a)), w)
    ensures !Alone(Do(m, Go(a)), w) ==> !Balanced(Do(m, Go(a)), w)
  {
    DoTidy(m, Go(a));
    hide Do, Tidy, Alone, Unchanged, Balanced, Meets, Passes;
    TestKeeps(m, a, w);
    TestBalancesIff(m, a, w);
  }

  /** One step: steady it stays, or the windows of two calls meet and the counter is off. */
  lemma StepSteadyIff(m: Machine, s: Step, w: Which)
    requires Steady(m, w)
    ensures Alone(Do(m, s), w) ==> Steady(Do(m, s), w)
    ensures !Alone(Do(m, s), w) ==> !Balanced(Do(m, s), w)
  {
    if s.Go? && s.caller in m.calls {
      var c := m.calls[s.caller];
      assert c.id in m.users.subs;
      if c.pc == Test(w) && Passes(m, c, w) {
        TestSteadyIff(m, s.caller, w);
        return;
      } else if c.pc == Count(w) {
        CountSteady(m, s.caller, w);
        return;
      } else if c.pc == Mark(w) {
        MarkSteady(m, s.caller, w);
        return;
      }
    }
    OtherSteps(m, s, w);
    DoTidy(m, s);
    UntouchedSteady(m, Do(m, s), w);
  }

  lemma FirstSteady(w: Which)
    ensures Steady(FIRST, w)
  {
    assert Holding(FIRST.users, w) == {};
    assert Counting(FIRST, w, true) == {} && Counting(FIRST, w, false) == {};
    assert Moving(FIRST, w, true) == {} && Moving(FIRST, w, false) == {};
    assert Will(FIRST, w) == {};
  }

  /**
    In a run of any calls, the counter of a flag is exact throughout, up to the calls in their
    windows, if and only if no two calls of one subscriber are ever in their windows at once.
  */
  lemma {:induction false} CountsExactIff(steps: seq<Step>, w: Which)
    ensures (forall k | 0 <= k <= |steps| :: Balanced(Run(FIRST, steps[..k]), w)) <==>
            (forall k | 0 <= k <= |steps| :: Alone(Run(FIRST, steps[..k]), w))
    ensures (forall k | 0 <= k <= |steps| :: Alone(Run(FIRST, steps[..k]), w)) ==>
              Steady(Run(FIRST, steps), w)
  {
    hide Balanced, Alone, Do;
    if steps == [] {
      FirstSteady(w);
      assert Steady(Run(FIRST, []), w);
      assert steps[..0] == [];
    } else {
      var front := steps[..|steps| - 1];
      CountsExactIff(front, w);
      assert forall k | 0 <= k < |steps| :: steps[..k] == front[..k];
      assert steps[..|steps|] == steps;
      if forall k | 0 <= k <= |front| :: Alone(Run(FIRST, front[..k]), w) {
        StepSteadyIff(Run(FIRST, front), steps[|steps| - 1], w);
      }
    }
  }

  // ---- When the counters are not exact ----------------------------------------------------

  ghost predicate Reachable(m: Machine) {
    exists steps :: Run(FIRST, steps) == m
  }

  lemma Reaches(m: Machine, s: Step)
    requires Reachable(m)
    ensures Reachable(Do(m, s))
  {
    var steps :| Run(FIRST, steps) == m;
    assert (steps + [s])[..|steps|] == steps;
    assert Run(FIRST, steps + [s]) == Do(m, s);
  }

  lemma ReachesCalled(m: Machine, caller: nat, id: nat, on: bool, reload: bool)
    requires Reachable(m)
    ensures Reachable(Called(m, caller, id, on, reload))
  {
    Reaches(m, Load(caller, id, on, reload));
    var m1 := Do(m, Load(caller, id, on, reload));
    ReachesHalf(m1, caller, OfTimer);
    ReachesHalf(Half(m1, caller, OfTimer), caller, OfReload);
  }

  lemma ReachesHalf(m: Machine, caller: nat, w: Which)
    requires Reachable(m)
    ensures Reachable(Half(m, caller, w))
  {
    Reaches(m, Go(caller));
    var m1 := Do(m, Go(caller));
    Reaches(m1, Go(caller));
    Reaches(Do(m1, Go(caller)), Go(caller));
    hide Do, Reachable;
  }

  lemma FirstReachable()
    ensures Reachable(FIRST)
  {
    assert Run(FIRST, []) == FIRST;
  }

  /** Callers 1 and 2 on one descriptor: both test before either stores the flag. */
  function BothTested(m: Machine, id: nat, on: bool): Machine {
    Do(Do(Do(Do(m, Load(1, id, on, false)), Load(2, id, on, false)), Go(1)), Go(2))
  }

  /** Then each goes through to its end. */
  function BothDone(m: Machine): Machine {
    var m1 := Do(Do(m, Go(1)), Go(1));
    var m2 := Do(Do(m1, Go(2)), Go(2));
    var m3 := Do(Do(m2, Go(1)), Go(2));
    Do(Do(m3, Go(1)), Go(2))
  }

  lemma BothTestedIs(m: Machine, id: nat, on: bool)
    requires m.calls == map[] && id in m.users.subs && m.users.subs[id].enabled != on
    ensures var m', c := BothTested(m, id, on), Call(id, on, ALARM_BITS, m.users.ctrl, m.users.ctrl, false, Count(OfTimer));
            m'.users == m.users && m'.calls == map[1 := c, 2 := c]
  {
    var c := Call(id, on, ALARM_BITS, m.users.ctrl, m.users.ctrl, false, Test(OfTimer));
    var m2 := Do(Do(m, Load(1, id, on, false)), Load(2, id, on, false));
    assert m2 == Machine(m.users, map[1 := c, 2 := c]);
  }

  lemma BothDoneIs(m: Machine, id: nat, on: bool)
    requires id in m.users.subs
    requires var c := Call(id, on, ALARM_BITS, m.users.ctrl, m.users.ctrl, false, Count(OfTimer));
             m.calls == map[1 := c, 2 := c]
    ensures var m' := BothDone(m);
            && m'.calls == map[]
            && m'.users.enabledUsers == m.users.enabledUsers + (if on then 2 else -2)
            && m'.users.subs == m.users.subs[id := m.users.subs[id].(enabled := on)]
            && (on ==> m'.users.ctrl.timer)
  {
    var m1 := Do(Do(m, Go(1)), Go(1));
    assert m1.calls[1].pc == Test(OfReload) && m1.calls[2] == m.calls[2];
    assert m1.users.enabledUsers == m.users.enabledUsers + (if on then 1 else -1);
    var m2 := Do(Do(m1, Go(2)), Go(2));
    assert m2.calls[1] == m1.calls[1] && m2.calls[2].pc == Test(OfReload);
    assert m2.users.subs == m.users.subs[id := m.users.subs[id].(enabled := on)];
    assert m2.users.enabledUsers == m.users.enabledUsers + (if on then 2 else -2);
    var m3 := Do(Do(m2, Go(1)), Go(2));
    assert m3.calls[1].pc == Store && m3.calls[2].pc == Store && m3.users == m2.users;
    assert !m3.calls[1].closing && !m3.calls[2].closing && m3.calls.Keys == {1, 2};
  }

  lemma ReachesBoth(m: Machine, id: nat, on: bool)
    requires Reachable(m)
    ensures Reachable(BothDone(BothTested(m, id, on)))
  {
    hide Do, Reachable;
    Reaches(m, Load(1, id, on, false));
    var m1 := Do(m, Load(1, id, on, false));
    Reaches(m1, Load(2, id, on, false));
    var m2 := Do(m1, Load(2, id, on, false));
    ReachesTwo(m2, 1, 2);
    var m4 := Do(Do(m2, Go(1)), Go(2));
    ReachesTwo(m4, 1, 1);
    var m6 := Do(Do(m4, Go(1)), Go(1));
    ReachesTwo(m6, 2, 2);
    var m8 := Do(Do(m6, Go(2)), Go(2));
    ReachesTwo(m8, 1, 2);
    ReachesTwo(Do(Do(m8, Go(1)), Go(2)), 1, 2);
  }

  lemma ReachesTwo(m: Machine, a: nat, b: nat)
    requires Reachable(m)
    ensures Reachable(Do(Do(m, Go(a)), Go(b)))
  {
    hide Do, Reachable;
    Reaches(m, Go(a));
    Reaches(Do(m, Go(a)), Go(b));
  }

  /** Two threads that enable one subscriber at once leave the counter at 2 with one subscriber enabled. */
  lemma DoubleEnableCountsTwice() returns (m: Machine)
    ensures Reachable(m) && m.calls == map[] && m.users.enabledUsers == 2
    ensures Holding(m.users, OfTimer) == {1} && m.users.ctrl.timer
  {
    var m0 := Do(FIRST, Open(1));
    FirstReachable();
    Reaches(FIRST, Open(1));
    ReachesBoth(m0, 1, true);
    BothTestedIs(m0, 1, true);
    BothDoneIs(BothTested(m0, 1, true), 1, true);
    m := BothDone(BothTested(m0, 1, true));
    hide BothDone, BothTested, Do;
    assert Holding(m.users, OfTimer) == {1};
  }

  /** Disabled again, it leaves the timer running for nobody. */
  lemma DoubleEnableKeepsTimerOn() returns (m: Machine)
    ensures Reachable(m) && m.calls == map[] && m.users.enabledUsers == 1
    ensures Holding(m.users, OfTimer) == {} && m.users.ctrl.timer
  {
    var m1 := DoubleEnableCountsTwice();
    assert 1 in Holding(m1.users, OfTimer);
    ReachesCalled(m1, 1, 1, false, false);
    Reaches(Called(m1, 1, 1, false, false), Go(1));
    UndisturbedIsAtomic(m1, 1, 1, false, false);
    hide Called, Reachable;
    m := Do(Called(m1, 1, 1, false, false), Go(1));
    assert m == m1.(users := Disable(m1.users, 1, ALARM_BITS));
    hide Do;
    assert !m.users.subs[1].enabled;
    forall id | id in Holding(m.users, OfTimer)
      ensures id in Holding(m1.users, OfTimer) && id != 1
    {
      assert id != 1 ==> m.users.subs[id] == m1.users.subs[id];
    }
  }

  /** And two that disable it at once leave the counter at -1 with nobody enabled. */
  lemma DoubleDisableCountsTwice()
    ensures exists m :: Reachable(m) && m.calls == map[] && m.users.enabledUsers == -1
                        && Holding(m.users, OfTimer) == {}
  {
    var m := EnabledOne();
    ReachesBoth(m, 1, false);
    BothTestedIs(m, 1, false);
    BothDoneIs(BothTested(m, 1, false), 1, false);
    hide BothDone, BothTested, Do;
    assert Holding(BothDone(BothTested(m, 1, false)).users, OfTimer) == {};
  }

  /** One subscriber, enabled by an undisturbed call. */
  lemma EnabledOne() returns (m: Machine)
    ensures Reachable(m) && m.calls == map[]
    ensures m.users == Users(CtrlOn(NO_BITS, ALARM_BITS), 1, 0, map[1 := Flags(true, false)])
  {
    var m0 := Do(FIRST, Open(1));
    FirstReachable();
    Reaches(FIRST, Open(1));
    ReachesCalled(m0, 1, 1, true, false);
    var m1 := Called(m0, 1, 1, true, false);
    Reaches(m1, Go(1));
    m := Do(m1, Go(1));
    UndisturbedIsAtomic(m0, 1, 1, true, false);
    hide Called, Reachable;
    assert m == m0.(users := Enable(m0.users, 1, ALARM_BITS));
  }
}
