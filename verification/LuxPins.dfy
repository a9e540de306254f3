/**
  Function 0 of the Lux device: 64 GPIO pins, each driving one smart LED, behind 64-bit
  registers; and the GPIO chip driver that uses those registers.

  The device works pin by pin, in loops; its registers and its driver speak in words. A
  word is a sequence of 64 bits, bit 0 first.
*/
module LuxPins {
  import opened LedRender

  type Word = s: seq<bool> | |s| == 64 witness seq(64, i => false)

  function Zero(): Word {
    seq(64, i => false)
  }

  function Bit(k: nat): Word {
    seq(64, i => i == k)
  }

  function And(a: Word, b: Word): Word {
    seq(64, i requires 0 <= i < 64 => a[i] && b[i])
  }

  function Or(a: Word, b: Word): Word {
    seq(64, i requires 0 <= i < 64 => a[i] || b[i])
  }

  function Xor(a: Word, b: Word): Word {
    seq(64, i requires 0 <= i < 64 => a[i] != b[i])
  }

  function Not(a: Word): Word {
    seq(64, i requires 0 <= i < 64 => !a[i])
  }

  /** The number of ones among the first `n` bits. */
  function Ones(w: Word, n: nat): nat
    requires n <= 64
  {
    if n == 0 then 0 else Ones(w, n - 1) + if w[n - 1] then 1 else 0
  }

  /** A message on the socket to the LED server. */
  datatype Command =
    | Toggle(led: nat)
    | On(led: nat)
    | Off(led: nat)
    | SetColor(led: nat, color: Color)
    | Unknown(led: nat, code: nat)

  function Switch(on: bool, led: nat): Command {
    if on then On(led) else Off(led)
  }

  /** The commands that switch the LEDs selected by `w` below `n`, lowest first. */
  function Emit(on: bool, w: Word, n: nat): seq<Command>
    requires n <= 64
  {
    if n == 0 then []
    else Emit(on, w, n - 1) + if w[n - 1] then [Switch(on, n - 1)] else []
  }

  /** The pin registers, and everything ever written to the socket. */
  datatype Pins = Pins(direction: Word, states: Word, colors: seq<Color>, sent: seq<Command>)

  // ---- What each register write does, on words ------------------------------------------

  /** Drive the pins in `w` that are outputs to `on`. */
  function Assign(p: Pins, w: Word, on: bool): Pins {
    var m := And(w, p.direction);
    p.(states := if on then Or(p.states, m) else And(p.states, Not(m)),
       sent := p.sent + Emit(on, m, 64))
  }

  function DataEffect(p: Pins, w: Word): Pins {
    var changed := Xor(w, p.states);
    Assign(Assign(p, And(w, changed), true), And(Not(w), changed), false)
  }

  function SetEffect(p: Pins, mask: Word): Pins {
    Assign(p, And(mask, Not(p.states)), true)
  }

  function ClrEffect(p: Pins, mask: Word): Pins {
    Assign(p, And(mask, p.states), false)
  }

  /** Bit `led` of a SET or CLR mask, then the colour: an 8-byte write to a smart LED. */
  function SmartLedEffect(p: Pins, led: nat, state: nat, c: Color): Pins
    requires led < LED_NR == |p.colors|
  {
    var q := Assign(p, Bit(led), state % 2 == 1);
    q.(colors := q.colors[led := c], sent := q.sent + [SetColor(led, c)])
  }

  function SetMultipleEffect(p: Pins, mask: Word, bits: Word): Pins {
    ClrEffect(SetEffect(p, And(mask, bits)), And(mask, Not(bits)))
  }

  // ---- What those effects mean -----------------------------------------------------------

  /** A DATA write leaves `(old & ~dir) | (val & dir)`. */
  lemma DataKeepsInputs(p: Pins, w: Word)
    ensures DataEffect(p, w).states == Or(And(p.states, Not(p.direction)), And(w, p.direction))
    ensures DataEffect(p, w).direction == p.direction && DataEffect(p, w).colors == p.colors
  {
    var got, want := DataEffect(p, w).states, Or(And(p.states, Not(p.direction)), And(w, p.direction));
    assert forall i | 0 <= i < 64 :: got[i] == want[i];
  }

  /** `set_multiple` leaves `(old & ~(mask & dir)) | (bits & mask & dir)`. */
  lemma SetMultipleIsMasked(p: Pins, mask: Word, bits: Word)
    ensures var q := SetMultipleEffect(p, mask, bits);
            && q.states == Or(And(p.states, Not(And(mask, p.direction))),
                              And(And(bits, mask), p.direction))
            && q.direction == p.direction && q.colors == p.colors
  {
    var got := SetMultipleEffect(p, mask, bits).states;
    var want := Or(And(p.states, Not(And(mask, p.direction))), And(And(bits, mask), p.direction));
    assert forall i | 0 <= i < 64 :: got[i] == want[i];
  }

  lemma {:induction false} EmitLength(on: bool, w: Word, n: nat)
    requires n <= 64
    ensures |Emit(on, w, n)| == Ones(w, n)
  {
    if n > 0 {
      EmitLength(on, w, n - 1);
    }
  }

  /** One command for each selected LED, none for the others. */
  lemma {:induction false} EmitOnce(on: bool, w: Word, n: nat, c: Command)
    requires n <= 64
    ensures multiset(Emit(on, w, n))[c] ==
            if c.led < n && w[c.led] && c == Switch(on, c.led) then 1 else 0
  {
    if n > 0 {
      EmitOnce(on, w, n - 1, c);
      var last := if w[n - 1] then [Switch(on, n - 1)] else [];
      assert multiset(Emit(on, w, n)) == multiset(Emit(on, w, n - 1)) + multiset(last);
    }
  }

  /**
    The traffic of a DATA write is one command for each output pin whose value changes, in
    the direction of the change, and nothing else.
  */
  lemma DataTraffic(p: Pins, w: Word, c: Command)
    ensures var q := DataEffect(p, w);
            && |p.sent| <= |q.sent| && q.sent[..|p.sent|] == p.sent
            && multiset(q.sent[|p.sent|..])[c] ==
               if c.led < 64 && q.states[c.led] != p.states[c.led]
                  && c == Switch(q.states[c.led], c.led) then 1 else 0
  {
    var changed := Xor(w, p.states);
    var up := And(And(w, changed), p.direction);
    var down := And(And(Not(w), changed), p.direction);
    var q := DataEffect(p, w);
    assert q.sent == p.sent + (Emit(true, up, 64) + Emit(false, down, 64));
    assert q.sent[|p.sent|..] == Emit(true, up, 64) + Emit(false, down, 64);
    EmitOnce(true, up, 64, c);
    EmitOnce(false, down, 64, c);
  }

  /** A SET and CLR pair of writes sends what a DATA write of the same value would. */
  lemma SetMultipleTraffic(p: Pins, mask: Word, bits: Word)
    ensures SetMultipleEffect(p, mask, bits) ==
            DataEffect(p, Or(And(p.states, Not(mask)), And(bits, mask)))
  {
    var w := Or(And(p.states, Not(mask)), And(bits, mask));
    var changed := Xor(w, p.states);
    var q := SetEffect(p, And(mask, bits));
    WordsEqual(And(And(mask, bits), Not(p.states)), And(w, changed));
    WordsEqual(And(And(And(mask, Not(bits)), q.states), p.direction),
               And(And(Not(w), changed), p.direction));
    WordsEqual(SetMultipleEffect(p, mask, bits).states, DataEffect(p, w).states);
  }

  lemma {:induction false} EmitNothing(on: bool, w: Word, n: nat)
    requires n <= 64 && forall i | 0 <= i < n :: !w[i]
    ensures Emit(on, w, n) == []
  {
    if n > 0 {
      EmitNothing(on, w, n - 1);
    }
  }

  lemma {:induction false} EmitSingle(on: bool, w: Word, led: nat, n: nat)
    requires led < n <= 64 && forall i | 0 <= i < n :: w[i] <==> i == led
    ensures Emit(on, w, n) == [Switch(on, led)]
  {
    if led == n - 1 {
      EmitNothing(on, w, n - 1);
    } else {
      EmitSingle(on, w, led, n - 1);
    }
  }

  /** A loop sends its commands in the order of the LEDs. */
  lemma {:induction false} EmitInOrder(on: bool, w: Word, n: nat)
    requires n <= 64
    ensures forall i | 0 <= i < |Emit(on, w, n)| :: Emit(on, w, n)[i].led < n
    ensures forall i, j | 0 <= i < j < |Emit(on, w, n)| :: Emit(on, w, n)[i].led < Emit(on, w, n)[j].led
  {
    if n > 0 {
      EmitInOrder(on, w, n - 1);
    }
  }

  /**
    A smart-LED write switches its pin to the lowest bit of the state if it is an output, with
    one command, whatever it was; then the LED gets the colour, with another. Nothing else changes.
  */
  lemma SmartLedIs(p: Pins, led: nat, state: nat, c: Color)
    requires led < LED_NR == |p.colors|
    ensures var q, drives := SmartLedEffect(p, led, state, c), p.direction[led];
      && q.direction == p.direction && q.colors == p.colors[led := c]
      && q.states == (if drives then p.states[led := state % 2 != 0] else p.states)
      && q.sent == p.sent + (if !drives then [] else if state % 2 != 0 then [On(led)] else [Off(led)])
                   + [SetColor(led, c)]
  {
    var q, m := SmartLedEffect(p, led, state, c), And(Bit(led), p.direction);
    if p.direction[led] {
      EmitSingle(state % 2 == 1, m, led, 64);
      WordsEqual(q.states, p.states[led := state % 2 != 0]);
    } else {
      EmitNothing(state % 2 == 1, m, 64);
      WordsEqual(q.states, p.states);
    }
  }

  lemma WordsEqual(a: Word, b: Word)
    requires forall i | 0 <= i < 64 :: a[i] == b[i]
    ensures a == b
  {
  }

  /** What `set_multiple` wrote is what `get_multiple` then reads, on the output pins. */
  lemma GetAfterSetMultiple(p: Pins, mask: Word, bits: Word, i: nat)
    requires i < 64
    ensures And(SetMultipleEffect(p, mask, bits).states, mask)[i] ==
            (mask[i] && if p.direction[i] then bits[i] else p.states[i])
  {
    SetMultipleIsMasked(p, mask, bits);
  }

  // ---- The device ----------------------------------------------------------------------

  class Lux {
    var direction: Word
    const state: array<nat>
    const color: array<Color>
    var sent: seq<Command>

    ghost predicate Valid()
      reads this
    {
      state.Length == LED_NR && color.Length == LED_NR
    }

    ghost function States(): Word
      requires Valid()
      reads this, state
    {
      seq(64, i requires 0 <= i < 64 reads this, state requires Valid() => state[i] % 2 == 1)
    }

    ghost function Value(): Pins
      requires Valid()
      reads this, state, color
    {
      Pins(direction, States(), color[..], sent)
    }

    constructor ()
      ensures Valid() && fresh(this) && fresh(state) && fresh(color)
      ensures Value() == Pins(Zero(), Zero(), seq(64, i => Color(0, 0, 0, 0)), [])
    {
      direction, sent := Zero(), [];
      state := new nat[LED_NR](i => 0);
      color := new Color[LED_NR](i => Color(0, 0, 0, 0));
      new;
      assert States() == Zero();
      assert color[..] == seq(64, i => Color(0, 0, 0, 0));
    }

    method GetLedStates() returns (states: Word)
      requires Valid()
      ensures states == States()
    {
      states := Zero();
      for i := 0 to LED_NR
        invariant forall k | 0 <= k < 64 :: states[k] == (k < i && state[k] % 2 == 1)
      {
        var on := state[i] % 2 == 1;
        states := Or(states, if on then Bit(i) else Zero());
      }
      WordsEqual(states, States());
    }

    method SetLedStates(states: Word) returns (count: nat)
      requires Valid()
      modifies this`sent, state
      ensures Valid() && Value() == Assign(old(Value()), states, true)
      ensures count == Ones(And(states, direction), 64)
    {
      ghost var m := And(states, direction);
      count := 0;
      for i := 0 to LED_NR
        invariant sent == old(sent) + Emit(true, m, i)
        invariant forall k | 0 <= k < 64 :: state[k] == if k < i && m[k] then 1 else old(state[k])
        invariant count == Ones(m, i)
      {
        if states[i] && direction[i] {
          state[i] := 1;
          sent := sent + [On(i)];
          count := count + 1;
        }
      }
      WordsEqual(States(), Or(old(States()), m));
    }

    method ClrLedStates(states: Word) returns (count: nat)
      requires Valid()
      modifies this`sent, state
      ensures Valid() && Value() == Assign(old(Value()), states, false)
      ensures count == Ones(And(states, direction), 64)
    {
      ghost var m := And(states, direction);
      count := 0;
      for i := 0 to LED_NR
        invariant sent == old(sent) + Emit(false, m, i)
        invariant forall k | 0 <= k < 64 :: state[k] == if k < i && m[k] then 0 else old(state[k])
        invariant count == Ones(m, i)
      {
        if states[i] && direction[i] {
          state[i] := 0;
          sent := sent + [Off(i)];
          count := count + 1;
        }
      }
      WordsEqual(States(), And(old(States()), Not(m)));
    }

    method SetLedColor(led: nat, c: Color)
      requires Valid() && led < LED_NR
      modifies this`sent, color
      ensures Valid()
      ensures Value() == old(Value()).(colors := old(color[..])[led := c],
                                       sent := old(sent) + [SetColor(led, c)])
    {
      color[led] := c;
      sent := sent + [SetColor(led, c)];
    }

    // ---- BAR0 ----

    /** A direction write may also cover the low four bytes only. */
    method WriteDirection(count: nat, w: Word) returns (ok: bool)
      requires Valid()
      modifies this`direction
      ensures Valid() && ok == (count == 4 || count == 8)
      ensures Value() == old(Value()).(direction :=
                           if count == 8 then w
                           else if count == 4 then w[..32] + old(direction)[32..]
                           else old(direction))
    {
      ok := true;
      if count == 4 {
        direction := w[..32] + direction[32..];
      } else if count == 8 {
        direction := w;
      } else {
        ok := false;
      }
    }

    method WriteData(states: Word)
      requires Valid()
      modifies this`sent, state
      ensures Valid() && Value() == DataEffect(old(Value()), states)
    {
      var current := GetLedStates();
      var changed := Xor(states, current);
      var _ := SetLedStates(And(states, changed));
      var _ := ClrLedStates(And(Not(states), changed));
    }

    method WriteSet(mask: Word)
      requires Valid()
      modifies this`sent, state
      ensures Valid() && Value() == SetEffect(old(Value()), mask)
    {
      var current := GetLedStates();
      var _ := SetLedStates(And(mask, Not(current)));
    }

    method WriteClr(mask: Word)
      requires Valid()
      modifies this`sent, state
      ensures Valid() && Value() == ClrEffect(old(Value()), mask)
    {
      var current := GetLedStates();
      var _ := ClrLedStates(And(mask, current));
    }

    // ---- BAR1 ----

    method WriteSmartLed(led: nat, newState: nat, c: Color)
      requires Valid() && led < LED_NR
      modifies this`sent, state, color
      ensures Valid() && Value() == SmartLedEffect(old(Value()), led, newState, c)
    {
      if newState % 2 == 1 {
        var _ := SetLedStates(Bit(led));
      } else {
        var _ := ClrLedStates(Bit(led));
      }
      SetLedColor(led, c);
    }
  }

  // ---- The GPIO chip driver --------------------------------------------------------------

  class GpioChip {
    const bar: Lux

    ghost predicate Valid()
      reads this, bar
    {
      bar.Valid()
    }

    constructor (bar: Lux)
      requires bar.Valid()
      ensures this.bar == bar && Valid()
    {
      this.bar := bar;
    }

    method SetPin(offset: nat, value: int)
      requires Valid() && offset < 64
      modifies bar`sent, bar.state
      ensures Valid() && bar.direction == old(bar.direction) && bar.color[..] == old(bar.color[..])
      ensures bar.States() ==
              if bar.direction[offset] then old(bar.States())[offset := value != 0]
              else old(bar.States())
    {
      var pinMask := Bit(offset);
      if value == 0 {
        bar.WriteClr(pinMask);
      } else {
        bar.WriteSet(pinMask);
      }
      WordsEqual(bar.States(),
                 if bar.direction[offset] then old(bar.States())[offset := value != 0]
                 else old(bar.States()));
    }

    method DirectionOutput(offset: nat, value: int)
      requires Valid() && offset < 64
      modifies bar`direction, bar`sent, bar.state
      ensures Valid() && bar.color[..] == old(bar.color[..])
      ensures bar.direction == old(bar.direction)[offset := true]
      ensures bar.States() == old(bar.States())[offset := value != 0]
    {
      var pinMask := Bit(offset);
      var originalDirection := bar.direction;
      var newDirection := Or(pinMask, originalDirection);
      var _ := bar.WriteDirection(8, newDirection);
      WordsEqual(newDirection, originalDirection[offset := true]);
      SetPin(offset, value);
    }

    method DirectionInput(offset: nat)
      requires Valid() && offset < 64
      modifies bar`direction
      ensures Valid() && bar.direction == old(bar.direction)[offset := false]
      ensures bar.Value() == old(bar.Value()).(direction := bar.direction)
    {
      var pinMask := Bit(offset);
      var newDirection := And(Not(pinMask), bar.direction);
      WordsEqual(newDirection, bar.direction[offset := false]);
      var _ := bar.WriteDirection(8, newDirection);
    }

    method Get(offset: nat) returns (value: int)
      requires Valid() && offset < 64
      ensures value == if bar.States()[offset] then 1 else 0
    {
      var data := bar.GetLedStates();
      value := if data[offset] then 1 else 0;
    }

    method SetMultiple(mask: Word, bits: Word)
      requires Valid()
      modifies bar`sent, bar.state
      ensures Valid() && bar.Value() == SetMultipleEffect(old(bar.Value()), mask, bits)
    {
      bar.WriteSet(And(mask, bits));
      bar.WriteClr(And(mask, Not(bits)));
    }

    method GetMultiple(mask: Word) returns (bits: Word)
      requires Valid()
      ensures bits == And(bar.States(), mask)
    {
      var data := bar.GetLedStates();
      bits := And(data, mask);
    }
  }
}
