/**
  What the Lux clock tells a subscriber: a 64-bit word holding the number of expirations
  since the last read above bit 8, and the kinds of expiration in the low byte.
*/
module LuxTimerIrq {
  import opened LuxTimerQueue

  const COUNT_LIMIT := 0x100_0000_0000_0000

  function OrPeriodic(d: nat): nat {
    if d % 2 == 0 then d + 1 else d
  }

  function OrAlarm(d: nat): nat {
    if d / 2 % 2 == 0 then d + 2 else d
  }

  /** One expiration: `irq_data += 1 << 8`, then the bit of its kind. */
  function Expire(d: nat, periodic: bool): nat {
    var d' := (d + 256) % U64;
    if periodic then OrPeriodic(d') else OrAlarm(d')
  }

  /** `LUX_CLOCK_OVERRUN`. */
  function Overruns(d: nat): nat {
    d / 256
  }

  /** `LUX_CLOCK_IRQ_CAUSE`. */
  function Cause(d: nat): nat {
    d % 256
  }

  function Pack(count: nat, periodic: bool, alarm: bool): nat {
    256 * count + (if periodic then 1 else 0) + (if alarm then 2 else 0)
  }

  /** The count wraps at 2^56 and never reaches the cause bits, nor the other way round. */
  lemma ExpirePacks(count: nat, p: bool, a: bool, periodic: bool)
    requires count < COUNT_LIMIT
    ensures Expire(Pack(count, p, a), periodic) ==
            Pack((count + 1) % COUNT_LIMIT, p || periodic, a || !periodic)
  {
    var d := Pack(count, p, a);
    if count + 1 == COUNT_LIMIT {
      assert d + 256 == U64 + Pack(0, p, a);
      assert (d + 256) % U64 == Pack(0, p, a);
    } else {
      assert (d + 256) % U64 == Pack(count + 1, p, a);
    }
    KindBits((count + 1) % COUNT_LIMIT, p, a);
  }

  lemma KindBits(count: nat, p: bool, a: bool)
    ensures OrPeriodic(Pack(count, p, a)) == Pack(count, true, a)
    ensures OrAlarm(Pack(count, p, a)) == Pack(count, p, true)
  {
    var d := Pack(count, p, a);
    assert d / 2 == 128 * count + if a then 1 else 0;
  }

  lemma Unpack(count: nat, p: bool, a: bool)
    ensures Overruns(Pack(count, p, a)) == count
    ensures Cause(Pack(count, p, a)) == (if p then 1 else 0) + (if a then 2 else 0)
  {
  }

  // ---- Expirations and reads, in any order ------------------------------------------------

  /**
    A read takes the word and clears it; `FaultyRead` is one whose copy to the caller then
    fails, so that the caller never sees the word.
  */
  datatype IrqEvent = Expiry(periodic: bool) | Read | FaultyRead

  /** The word, the words callers got, and the words lost to faulty reads. */
  datatype Ledger = Ledger(data: nat, got: seq<nat>, lost: seq<nat>)

  function Account(l: Ledger, e: IrqEvent): Ledger {
    match e
    case Expiry(p) => l.(data := Expire(l.data, p))
    case Read => l.(data := 0, got := l.got + [l.data])
    case FaultyRead => l.(data := 0, lost := l.lost + [l.data])
  }

  function After(events: seq<IrqEvent>): Ledger {
    if events == [] then Ledger(0, [], [])
    else Account(After(events[..|events| - 1]), events[|events| - 1])
  }

  lemma AfterLast(events: seq<IrqEvent>, e: IrqEvent)
    ensures After(events + [e]) == Account(After(events), e)
  {
    assert (events + [e])[..|events + [e]| - 1] == events;
  }

  datatype ReadResult = NoSpace | Interrupted | Fault | Word(data: nat)

  /** The part of a subscriber that `irq_lock` protects. */
  class IrqWord {
    var data: nat
    ghost var events: seq<IrqEvent>

    ghost predicate Valid()
      reads this
    {
      data == After(events).data
    }

    constructor ()
      ensures Valid() && events == []
    {
      data, events := 0, [];
    }

    method OnExpiry(periodic: bool)
      requires Valid()
      modifies this
      ensures Valid() && events == old(events) + [Expiry(periodic)]
    {
      var d := (data + 256) % U64;
      if periodic {
        d := OrPeriodic(d);
      } else {
        d := OrAlarm(d);
      }
      data, events := d, events + [Expiry(periodic)];
      AfterLast(old(events), Expiry(periodic));
    }

    /** A synchronous read of an empty word waits, until an expiration or a signal. */
    method Read(len: nat, async: bool, faulty: bool) returns (r: ReadResult)
      requires Valid()
      modifies this
      ensures Valid()
      ensures r.NoSpace? <==> len < 8
      ensures r.Interrupted? <==> len >= 8 && !async && old(data) == 0
      ensures r.NoSpace? || r.Interrupted? ==> events == old(events) && data == old(data)
      ensures r.Fault? ==> faulty && events == old(events) + [FaultyRead]
      ensures r.Word? ==> !faulty && r.data == old(data) && events == old(events) + [IrqEvent.Read]
    {
      if len < 8 {
        return NoSpace;
      }
      if !async && data == 0 {
        return Interrupted;
      }
      var word := data;
      data, events := 0, events + [if faulty then FaultyRead else IrqEvent.Read];
      AfterLast(old(events), if faulty then FaultyRead else IrqEvent.Read);
      r := if faulty then Fault else Word(word);
    }
  }

  function Expirations(events: seq<IrqEvent>): nat {
    if events == [] then 0
    else Expirations(events[..|events| - 1]) + if events[|events| - 1].Expiry? then 1 else 0
  }

  /** The events since the last read. */
  function SinceRead(events: seq<IrqEvent>): seq<IrqEvent> {
    if events == [] || !events[|events| - 1].Expiry? then []
    else SinceRead(events[..|events| - 1]) + [events[|events| - 1]]
  }

  function Total(words: seq<nat>): nat {
    if words == [] then 0 else Total(words[..|words| - 1]) + Overruns(words[|words| - 1])
  }

  /**
    The word holds, at any time, the number of expirations since the last read (modulo 2^56),
    and exactly the kinds that occurred among them.
  */
  lemma {:induction false} WordIsExact(events: seq<IrqEvent>)
    ensures var s := SinceRead(events);
            After(events).data ==
            Pack(|s| % COUNT_LIMIT, Expiry(true) in s, Expiry(false) in s)
  {
    if events != [] {
      var front, e := events[..|events| - 1], events[|events| - 1];
      WordIsExact(front);
      hide Pack, Expire;
      if e.Expiry? {
        var s := SinceRead(front);
        ExpirePacks(|s| % COUNT_LIMIT, Expiry(true) in s, Expiry(false) in s, e.periodic);
        CountUp(|s|);
      }
    }
  }

  lemma CountUp(n: nat)
    ensures (n % COUNT_LIMIT + 1) % COUNT_LIMIT == (n + 1) % COUNT_LIMIT
  {
  }

  lemma {:induction false} Few(events: seq<IrqEvent>)
    ensures |SinceRead(events)| <= Expirations(events) <= |events|
  {
    if events != [] {
      Few(events[..|events| - 1]);
    }
  }

  lemma TotalAppends(words: seq<nat>, w: nat)
    ensures Total(words + [w]) == Total(words) + Overruns(w)
  {
    assert (words + [w])[..|words + [w]| - 1] == words;
  }

  lemma CountInWord(events: seq<IrqEvent>)
    requires |events| < COUNT_LIMIT
    ensures Overruns(After(events).data) == |SinceRead(events)|
  {
    hide After, SinceRead, Expirations;
    WordIsExact(events);
    Few(events);
    Unpack(|SinceRead(events)|, Expiry(true) in SinceRead(events), Expiry(false) in SinceRead(events));
  }

  /**
    Conservation: what all reads returned, what faulty reads lost and what is still in the
    word add up to the expirations.
  */
  lemma {:induction false} OverrunsConserved(events: seq<IrqEvent>)
    requires |events| < COUNT_LIMIT
    ensures var l := After(events);
            Total(l.got) + Total(l.lost) + Overruns(l.data) == Expirations(events)
  {
    if events == [] {
    } else {
      var front := events[..|events| - 1];
      OverrunsConserved(front);
      CountInWord(front);
      CountInWord(events);
      hide Overruns, Expire, Total;
      TotalAppends(After(front).got, After(front).data);
      TotalAppends(After(front).lost, After(front).data);
    }
  }

  /** Every faulty read comes right after another read, or first. */
  ghost predicate FaultsTakeNothing(events: seq<IrqEvent>) {
    forall i | 0 <= i < |events| && events[i].FaultyRead? :: SinceRead(events[..i]) == []
  }

  lemma FaultsTakeNothingStep(events: seq<IrqEvent>)
    requires events != []
    ensures var front, e := events[..|events| - 1], events[|events| - 1];
            FaultsTakeNothing(events) <==>
            FaultsTakeNothing(front) && (e.FaultyRead? ==> SinceRead(front) == [])
  {
    hide SinceRead;
    var front := events[..|events| - 1];
    assert forall i | 0 <= i < |front| :: events[..i] == front[..i] && events[i] == front[i];
  }

  /**
    The callers get every expiration, sooner or later, if and only if no faulty read happens
    while one has occurred since the last read.
  */
  lemma {:induction false} NothingLostIff(events: seq<IrqEvent>)
    requires |events| < COUNT_LIMIT
    ensures Total(After(events).got) + Overruns(After(events).data) == Expirations(events)
            <==> FaultsTakeNothing(events)
    ensures Total(After(events).lost) == 0 <==> FaultsTakeNothing(events)
  {
    OverrunsConserved(events);
    if events != [] {
      var front := events[..|events| - 1];
      NothingLostIff(front);
      FaultsTakeNothingStep(events);
      CountInWord(front);
      hide FaultsTakeNothing, Overruns, Expire, Total;
      TotalAppends(After(front).lost, After(front).data);
    }
  }

  /** One expiration, then a read whose copy fails: nobody ever hears of it. */
  lemma FaultLosesOne()
    ensures var events := [Expiry(true), FaultyRead]; var l := After(events);
            && Expirations(events) == 1 && Total(l.got) == 0 && l.data == 0
            && !FaultsTakeNothing(events)
  {
    var events := [Expiry(true), FaultyRead];
    var one := [Expiry(true)];
    assert events == one + [FaultyRead] && one == [] + [Expiry(true)];
    AfterLast(one, FaultyRead);
    AfterLast([], Expiry(true));
    assert events[..1] == one && one[..0] == [];
    assert SinceRead(one) == [Expiry(true)];
  }
}
