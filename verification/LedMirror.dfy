/**
  The LED server mirrors the device's pins. The device writes commands to a socket, the
  server applies them to its own grid some time later; in between they are in flight.
*/
module LedMirror {
  import opened LedRender
  import opened LuxPins

  // ---- The server ------------------------------------------------------------------------

  /** What the server sends back; `NoEvent` when it answers with an error return. */
  datatype Event = LedOn(led: nat) | LedOff(led: nat) | LedColor(led: nat) | NoEvent

  function Apply(leds: seq<Led>, c: Command): seq<Led>
    requires |leds| == LED_NR
    ensures |Apply(leds, c)| == LED_NR
  {
    if c.led >= LED_NR then leds
    else match c
      case Toggle(i) => leds[i := leds[i].(on := !leds[i].on)]
      case On(i) => leds[i := leds[i].(on := true)]
      case Off(i) => leds[i := leds[i].(on := false)]
      case SetColor(i, color) => leds[i := leds[i].(color := color)]
      case Unknown(_, _) => leds
  }

  /**
    A command is about one LED, and changes at most its switch or its colour: toggling twice
    changes nothing, the other commands do not care what was before.
  */
  lemma ApplyIsLocal(leds: seq<Led>, c: Command, i: nat)
    requires |leds| == LED_NR && i < LED_NR
    ensures var led, led' := leds[i], Apply(leds, c)[i];
      && (i != c.led ==> led' == led)
      && (i == c.led && c.Toggle? ==> led'.on != led.on && led'.color == led.color)
      && (i == c.led && c.On? ==> led'.on && led'.color == led.color)
      && (i == c.led && c.Off? ==> !led'.on && led'.color == led.color)
      && (i == c.led && c.SetColor? ==> led' == Led(led.on, c.color))
      && (i == c.led && c.Unknown? ==> led' == led)
    ensures c.Toggle? ==> Apply(Apply(leds, c), c) == leds
  {
  }

  /** The event tells what the LED has become. */
  predicate Reports(leds: seq<Led>, c: Command, e: Event)
    requires |leds| == LED_NR
  {
    if c.led >= LED_NR || c.Unknown? then e == NoEvent
    else if c.SetColor? then e == LedColor(c.led) && leds[c.led].color == c.color
    else e == if leds[c.led].on then LedOn(c.led) else LedOff(c.led)
  }

  class LedServer {
    const leds: array<Led>

    ghost predicate Valid()
      reads this
    {
      leds.Length == LED_NR
    }

    constructor ()
      ensures Valid() && fresh(leds)
      ensures leds[..] == FirstGrid()
      ensures forall i | 0 <= i < 64 :: leds[i] == Led(false, Color(50, 255, 100, 255))
    {
      leds := new Led[LED_NR](i => Led(false, FIRST_COLOR));
      new;
      assert leds[..] == FirstGrid();
    }

    method HandleCommand(c: Command) returns (ok: bool, event: Event)
      requires Valid()
      modifies leds
      ensures leds[..] == Apply(old(leds[..]), c)
      ensures ok == (c.led < LED_NR && !c.Unknown?)
      ensures Reports(leds[..], c, event)
    {
      ok, event := true, NoEvent;
      if c.led >= LED_NR {
        ok := false;
        return;
      }
      var led := leds[c.led];
      match c
      case Toggle(i) =>
        leds[i] := led.(on := !led.on);
        event := if leds[i].on then LedOn(i) else LedOff(i);
      case On(i) =>
        leds[i] := led.(on := true);
        event := LedOn(i);
      case Off(i) =>
        leds[i] := led.(on := false);
        event := LedOff(i);
      case SetColor(i, color) =>
        leds[i] := led.(color := color);
        event := LedColor(i);
      case Unknown(_, _) =>
        ok := false;
    }
  }

  const FIRST_COLOR := Color(50, 255, 100, 255)

  function FirstGrid(): seq<Led> {
    seq(LED_NR, i => Led(false, FIRST_COLOR))
  }

  function ApplyAll(leds: seq<Led>, cs: seq<Command>): seq<Led>
    requires |leds| == LED_NR
    ensures |ApplyAll(leds, cs)| == LED_NR
  {
    if cs == [] then leds else Apply(ApplyAll(leds, cs[..|cs| - 1]), cs[|cs| - 1])
  }

  lemma {:induction false} ApplyAllAppends(leds: seq<Led>, cs: seq<Command>, ds: seq<Command>)
    requires |leds| == LED_NR
    ensures ApplyAll(leds, cs + ds) == ApplyAll(ApplyAll(leds, cs), ds)
  {
    if ds == [] {
      assert cs + ds == cs;
    } else {
      var front := ds[..|ds| - 1];
      assert (cs + ds)[..|cs + ds| - 1] == cs + front;
      ApplyAllAppends(leds, cs, front);
    }
  }

  lemma ApplyLast(leds: seq<Led>, cs: seq<Command>, c: Command)
    requires |leds| == LED_NR
    ensures ApplyAll(leds, cs + [c]) == Apply(ApplyAll(leds, cs), c)
  {
    hide Apply;
    assert (cs + [c])[..|cs + [c]| - 1] == cs;
  }

  lemma ApplyOne(leds: seq<Led>, c: Command)
    requires |leds| == LED_NR
    ensures ApplyAll(leds, [c]) == Apply(leds, c)
  {
    hide Apply;
    assert [c] == [] + [c];
    ApplyLast(leds, [], c);
  }

  /** `leds` with the LEDs selected by `w` below `n` switched. */
  function Switched(leds: seq<Led>, on: bool, w: Word, n: nat): seq<Led>
    requires |leds| == LED_NR && n <= 64
  {
    seq(LED_NR, i requires 0 <= i < LED_NR => if i < n && w[i] then leds[i].(on := on) else leds[i])
  }

  lemma SwitchOne(leds: seq<Led>, on: bool, w: Word, n: nat)
    requires |leds| == LED_NR && n < 64 && w[n]
    ensures Apply(Switched(leds, on, w, n), Switch(on, n)) == Switched(leds, on, w, n + 1)
  {
  }

  /** The commands of one loop over a word set exactly the selected LEDs. */
  lemma {:induction false} EmitApplies(leds: seq<Led>, on: bool, w: Word, n: nat)
    requires |leds| == LED_NR && n <= 64
    ensures ApplyAll(leds, Emit(on, w, n)) == Switched(leds, on, w, n)
  {
    hide Apply, Switch;
    if n > 0 {
      EmitApplies(leds, on, w, n - 1);
      if w[n - 1] {
        hide ApplyAll, Switched;
        ApplyLast(leds, Emit(on, w, n - 1), Switch(on, n - 1));
        SwitchOne(leds, on, w, n - 1);
      } else {
        hide ApplyAll;
        assert Emit(on, w, n) == Emit(on, w, n - 1);
      }
    }
  }

  // ---- Device, socket and server together ------------------------------------------------

  /**
    `pins.sent` is everything lux ever wrote to the socket, `taken` how much of it the server
    has read, `coloured` the LEDs whose colour lux has written.
  */
  datatype Net = Net(pins: Pins, taken: nat, grid: seq<Led>, coloured: set<nat>)

  datatype Step =
    | Direction(count: nat, word: Word)
    | Data(word: Word)
    | Set(mask: Word)
    | Clr(mask: Word)
    | SmartLed(led: nat, state: nat, color: Color)
    | Serve

  function FirstNet(): Net {
    Net(Pins(Zero(), Zero(), seq(LED_NR, i => Color(0, 0, 0, 0)), []), 0, FirstGrid(), {})
  }

  predicate NetOk(n: Net) {
    |n.grid| == LED_NR == |n.pins.colors| && n.taken <= |n.pins.sent|
  }

  function Next(n: Net, s: Step): (n': Net)
    requires NetOk(n)
    ensures NetOk(n')
  {
    match s
    case Direction(count, w) =>
      if count == 8 then n.(pins := n.pins.(direction := w))
      else if count == 4 then n.(pins := n.pins.(direction := w[..32] + n.pins.direction[32..]))
      else n
    case Data(w) => n.(pins := DataEffect(n.pins, w))
    case Set(m) => n.(pins := SetEffect(n.pins, m))
    case Clr(m) => n.(pins := ClrEffect(n.pins, m))
    case SmartLed(led, state, color) =>
      if led >= LED_NR then n
      else n.(pins := SmartLedEffect(n.pins, led, state, color), coloured := n.coloured + {led})
    case Serve =>
      if n.taken == |n.pins.sent| then n
      else n.(grid := Apply(n.grid, n.pins.sent[n.taken]), taken := n.taken + 1)
  }

  function Run(n: Net, steps: seq<Step>): (n': Net)
    requires NetOk(n)
    ensures NetOk(n')
  {
    if steps == [] then n else Next(Run(n, steps[..|steps| - 1]), steps[|steps| - 1])
  }

  /** The grid the server will show once it has read everything in flight. */
  function Eventually(n: Net): (g: seq<Led>)
    requires NetOk(n)
    ensures |g| == LED_NR
  {
    ApplyAll(n.grid, n.pins.sent[n.taken..])
  }

  ghost predicate Mirrors(g: seq<Led>, p: Pins, coloured: set<nat>)
    requires |g| == LED_NR == |p.colors|
  {
    && (forall i | 0 <= i < LED_NR :: g[i].on == p.states[i])
    && (forall i | 0 <= i < LED_NR && i in coloured :: g[i].color == p.colors[i])
  }

  lemma AssignMirrors(g: seq<Led>, p: Pins, w: Word, on: bool, coloured: set<nat>)
    requires |g| == LED_NR == |p.colors| && Mirrors(g, p, coloured)
    ensures var m := And(w, p.direction);
            Mirrors(ApplyAll(g, Emit(on, m, 64)), Assign(p, w, on), coloured)
  {
    EmitApplies(g, on, And(w, p.direction), 64);
    hide ApplyAll, Emit;
  }

  /** What a device write adds to the socket, the server will apply last. */
  lemma MoreInFlight(n: Net, p: Pins, more: seq<Command>)
    requires NetOk(n) && |p.colors| == LED_NR && p.sent == n.pins.sent + more
    ensures Eventually(n.(pins := p)) == ApplyAll(Eventually(n), more)
  {
    assert p.sent[n.taken..] == n.pins.sent[n.taken..] + more;
    ApplyAllAppends(n.grid, n.pins.sent[n.taken..], more);
  }

  lemma AssignKeepsMirror(n: Net, w: Word, on: bool)
    requires NetOk(n) && Mirrors(Eventually(n), n.pins, n.coloured)
    ensures var n' := n.(pins := Assign(n.pins, w, on));
            NetOk(n') && Mirrors(Eventually(n'), n'.pins, n'.coloured)
  {
    MoreInFlight(n, Assign(n.pins, w, on), Emit(on, And(w, n.pins.direction), 64));
    AssignMirrors(Eventually(n), n.pins, w, on, n.coloured);
  }

  lemma ColorMirrors(g: seq<Led>, p: Pins, p': Pins, led: nat, c: Color, coloured: set<nat>)
    requires |g| == LED_NR == |p.colors| && led < LED_NR && Mirrors(g, p, coloured)
    requires p'.states == p.states && p'.colors == p.colors[led := c]
    ensures Mirrors(Apply(g, SetColor(led, c)), p', coloured + {led})
  {
    var g' := g[led := g[led].(color := c)];
    assert Apply(g, SetColor(led, c)) == g';
    hide Apply;
    forall i | 0 <= i < LED_NR
      ensures g'[i].on == p.states[i]
      ensures i in coloured + {led} ==> g'[i].color == p.colors[led := c][i]
    {
    }
  }

  lemma SmartLedKeepsMirror(n: Net, led: nat, state: nat, c: Color)
    requires NetOk(n) && led < LED_NR && Mirrors(Eventually(n), n.pins, n.coloured)
    ensures var p := SmartLedEffect(n.pins, led, state, c);
            Mirrors(Eventually(n.(pins := p)), p, n.coloured + {led})
  {
    hide Apply, ApplyAll, Eventually, Mirrors, Bit, And, Or, Not, Emit;
    var q := n.(pins := Assign(n.pins, Bit(led), state % 2 == 1));
    var p := SmartLedEffect(n.pins, led, state, c);
    AssignKeepsMirror(n, Bit(led), state % 2 == 1);
    ColorMirrors(Eventually(q), q.pins, p, led, c, n.coloured);
    ApplyOne(Eventually(q), SetColor(led, c));
    MoreInFlight(q, p, [SetColor(led, c)]);
  }

  lemma ServeKeepsMirror(n: Net)
    requires NetOk(n) && n.taken < |n.pins.sent|
    ensures Eventually(Next(n, Serve)) == Eventually(n)
  {
    var c := n.pins.sent[n.taken];
    assert n.pins.sent[n.taken..] == [c] + n.pins.sent[n.taken + 1..];
    hide Apply;
    ApplyOne(n.grid, c);
    ApplyAllAppends(n.grid, [c], n.pins.sent[n.taken + 1..]);
  }

  lemma NextKeepsMirror(n: Net, s: Step)
    requires NetOk(n) && Mirrors(Eventually(n), n.pins, n.coloured)
    ensures var n' := Next(n, s); Mirrors(Eventually(n'), n'.pins, n'.coloured)
  {
    match s
    case Direction(_, _) =>
    case Data(w) =>
      var changed := Xor(w, n.pins.states);
      AssignKeepsMirror(n, And(w, changed), true);
      AssignKeepsMirror(n.(pins := Assign(n.pins, And(w, changed), true)), And(Not(w), changed), false);
    case Set(m) => AssignKeepsMirror(n, And(m, Not(n.pins.states)), true);
    case Clr(m) => AssignKeepsMirror(n, And(m, n.pins.states), false);
    case SmartLed(led, state, c) =>
      if led < LED_NR {
        SmartLedKeepsMirror(n, led, state, c);
      }
    case Serve =>
      if n.taken < |n.pins.sent| {
        ServeKeepsMirror(n);
      }
  }

  /** What each write leaves in the DATA register, pin by pin, and in the direction register. */
  lemma WritesReach(n: Net, s: Step, i: nat)
    requires NetOk(n) && i < 64
    ensures var p, p' := n.pins, Next(n, s).pins;
      && (s.Data? ==> p'.states[i] == if p.direction[i] then s.word[i] else p.states[i])
      && (s.Set? ==> p'.states[i] == (p.states[i] || (p.direction[i] && s.mask[i])))
      && (s.Clr? ==> p'.states[i] == (p.states[i] && !(p.direction[i] && s.mask[i])))
      && (s.SmartLed? ==> p'.states[i] == if p.direction[i] && s.led == i then s.state % 2 == 1 else p.states[i])
      && (s.SmartLed? && s.led == i ==> p'.colors[i] == s.color)
      && (s.Serve? || s.Direction? ==> p'.states == p.states)
      && p'.direction[i] == (if s.Direction? && (s.count == 8 || (s.count == 4 && i < 32)) then s.word[i]
                             else p.direction[i])
  {
    match s
    case Data(w) => DataKeepsInputs(n.pins, w);
    case SmartLed(led, state, c) =>
      if led < LED_NR {
        SmartLedIs(n.pins, led, state, c);
      }
    case _ =>
  }

  /**
    In every run, applying the commands in flight to the server's grid gives the device's
    on/off bits for all LEDs, and the colour of every LED whose colour lux has written.
  */
  lemma {:induction false} RemoteMirror(steps: seq<Step>)
    ensures var n := Run(FirstNet(), steps); Mirrors(Eventually(n), n.pins, n.coloured)
  {
    if steps != [] {
      RemoteMirror(steps[..|steps| - 1]);
      NextKeepsMirror(Run(FirstNet(), steps[..|steps| - 1]), steps[|steps| - 1]);
    }
  }

  /** Whenever nothing is in flight, the server's grid shows the DATA register and the colours. */
  lemma QuietMirror(steps: seq<Step>)
    requires Run(FirstNet(), steps).taken == |Run(FirstNet(), steps).pins.sent|
    ensures var n := Run(FirstNet(), steps);
            Mirrors(n.grid, n.pins, n.coloured)
  {
    RemoteMirror(steps);
    var n := Run(FirstNet(), steps);
    assert n.pins.sent[n.taken..] == [];
  }

  /** As often as there are commands in flight, the server takes the next one; then nothing is. */
  lemma {:induction false} ServeCatchesUp(n: Net, k: nat)
    requires NetOk(n) && k <= |n.pins.sent| - n.taken
    ensures var n' := Run(n, seq(k, i => Serve));
      n'.pins == n.pins && n'.coloured == n.coloured && n'.taken == n.taken + k
  {
    if k > 0 {
      var steps: seq<Step> := seq(k, i => Serve);
      assert steps[..k - 1] == seq(k - 1, i => Serve);
      ServeCatchesUp(n, k - 1);
    }
  }

  /** So every run can be followed by one that makes the screen show the DATA register. */
  lemma ScreenCatchesUp(steps: seq<Step>)
    ensures var n := Run(FirstNet(), steps);
      var n' := Run(n, seq(|n.pins.sent| - n.taken, i => Serve));
      n'.pins == n.pins && Mirrors(n'.grid, n.pins, n.coloured)
  {
    var n := Run(FirstNet(), steps);
    var k: nat := |n.pins.sent| - n.taken;
    RemoteMirror(steps);
    ServeCatchesUp(n, k);
    ServesKeepMirror(n, k);
    var n' := Run(n, seq(k, i => Serve));
    assert n'.pins.sent[n'.taken..] == [];
  }

  lemma {:induction false} ServesKeepMirror(n: Net, k: nat)
    requires NetOk(n) && Mirrors(Eventually(n), n.pins, n.coloured)
    ensures var n' := Run(n, seq(k, i => Serve)); Mirrors(Eventually(n'), n'.pins, n'.coloured)
  {
    if k > 0 {
      var steps: seq<Step> := seq(k, i => Serve);
      assert steps[..k - 1] == seq(k - 1, i => Serve);
      ServesKeepMirror(n, k - 1);
      NextKeepsMirror(Run(n, steps[..k - 1]), Serve);
    }
  }
}
