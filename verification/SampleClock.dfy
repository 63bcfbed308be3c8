/** source/sclock.cpp and its users in source/periph/adc.cpp, source/periph/dac.cpp and
    source/communication.cpp: one timer paces every stream, and a count of streams decides when it
    runs. */
module SampleClock {
  import opened Basics

  /** `m_runcount` is a 32-bit unsigned integer. */
  const WRAP := 0x1_0000_0000

  /** The two boards the firmware is built for, and the divisors of their timers for the six rates. */
  datatype Target = H7 | L4

  function Divisors(target: Target): (r: seq<nat>)
    ensures |r| == 6
  {
    match target
    case H7 => [600, 300, 240, 150, 100, 50]
    case L4 => [4500, 2250, 1800, 1125, 750, 375]
  }

  /** A value of the enumeration `Rate`. */
  type Rate = r: nat | r < 6

  /** The rates in samples per second, and the frequency of the timer that the divisors divide. */
  const HERTZ: seq<nat> := [8000, 16000, 20000, 32000, 48000, 96000]

  function Frequency(target: Target): nat {
    match target
    case H7 => 4_800_000
    case L4 => 36_000_000
  }

  /** Every divisor gives its rate exactly. */
  lemma RatesExact(target: Target, rate: Rate)
    ensures |HERTZ| == 6 && Divisors(target)[rate] * HERTZ[rate] == Frequency(target)
  {
    assert rate in {0, 1, 2, 3, 4, 5};
  }

  /** What `getRate` returns for a divisor that no rate has: -1 as an unsigned integer. */
  const NO_RATE := WRAP - 1

  /** The clock as a value: run count, divisor, and the timer's interval while it runs. */
  datatype Clock = Clock(runcount: nat, div: nat, interval: Option<nat>)

  function Started(c: Clock): Clock {
    Clock((c.runcount + 1) % WRAP, c.div, if c.runcount == 0 then Some(c.div) else c.interval)
  }

  function Stopped(c: Clock): Clock {
    var n := if c.runcount == 0 then WRAP - 1 else c.runcount - 1;
    Clock(n, c.div, if n == 0 then None else c.interval)
  }

  /** `SClock`. */
  class SClock {
    const target: Target
    var runcount: nat
    var div: nat
    var interval: Option<nat>

    ghost predicate Valid()
      reads this
    {
      runcount < WRAP
    }

    ghost function Value(): Clock
      reads this
    {
      Clock(runcount, div, interval)
    }

    constructor (target: Target)
      ensures Valid() && Value() == Clock(0, 1, None) && this.target == target
    {
      this.target := target;
      runcount, div, interval := 0, 1, None;
    }

    method Start()
      requires Valid()
      modifies this
      ensures Valid() && Value() == Started(old(Value()))
    {
      var before := runcount;
      runcount := (runcount + 1) % WRAP;
      if before == 0 {
        interval := Some(div);
      }
    }

    method Stop()
      requires Valid()
      modifies this
      ensures Valid() && Value() == Stopped(old(Value()))
    {
      runcount := (runcount + WRAP - 1) % WRAP;
      if runcount == 0 {
        interval := None;
      }
    }

    method SetRate(rate: Rate)
      requires Valid()
      modifies this`div
      ensures Valid() && Value() == old(Value()).(div := Divisors(target)[rate])
    {
      div := Divisors(target)[rate];
    }

    /** The first rate in the table with the divisor in force. */
    method GetRate() returns (rate: nat)
      requires Valid()
      ensures rate < 6 || rate == NO_RATE
      ensures forall r: Rate :: rate == r <==> Divisors(target)[r] == div
    {
      var i := 0;
      while i < |Divisors(target)|
        invariant 0 <= i <= |Divisors(target)|
        invariant forall j :: 0 <= j < i ==> Divisors(target)[j] != div
      {
        if Divisors(target)[i] == div {
          DivisorsDiffer(target);
          return i;
        }
        i := i + 1;
      }
      rate := NO_RATE;
    }
  }

  /** No two rates share a divisor, so the rate read back is the rate set. */
  lemma DivisorsDiffer(target: Target)
    ensures forall i, j :: 0 <= i < j < 6 ==> Divisors(target)[i] != Divisors(target)[j]
  {
  }

  // ----- The streams that share the clock -----

  /** Starts name the size of their buffers. */
  datatype Op =
    | StartConversion(depth: nat)
    | StopConversion
    | StartGenerator(depth: nat)
    | StopGenerator
    | SetRate(div: nat)

  /** The sizes the drivers accept; another one fails a kernel check, which stops the device. */
  predicate AdcAccepts(depth: nat) {
    depth > 0 && (depth == 1 || depth % 2 == 0)
  }

  predicate DacAccepts(depth: nat) {
    depth == 1 || depth % 2 == 0
  }

  /** `since` is the divisor in force when the first of the current streams started. */
  datatype Streams = Streams(converting: bool, generating: bool, halted: bool, clock: Clock, since: nat)

  const IDLE := Streams(false, false, false, Clock(0, 1, None), 1)

  function SinceStart(s: Streams): nat {
    if s.converting || s.generating then s.since else s.clock.div
  }

  function Next(s: Streams, op: Op): Streams {
    if s.halted then s else
    match op
    case StartConversion(depth) =>
      // the status guard; then the ADC and DAC channel 0 each start the clock, after the driver's checks
      if s.converting then s
      else if !AdcAccepts(depth) then s.(halted := true)
      else s.(converting := true, clock := Started(Started(s.clock)), since := SinceStart(s))
    case StopConversion =>
      if !s.converting then s else s.(converting := false, clock := Stopped(Stopped(s.clock)))
    case StartGenerator(depth) =>
      // the driver also checks that it is not active yet
      if s.generating || !DacAccepts(depth) then s.(halted := true)
      else s.(generating := true, clock := Started(s.clock), since := SinceStart(s))
    case StopGenerator =>
      // no guard: the driver ignores a stop it does not need, the clock does not
      s.(generating := false, clock := Stopped(s.clock))
    case SetRate(div) =>
      s.(clock := s.clock.(div := div))
  }

  function Run(s: Streams, ops: seq<Op>): Streams
    decreases |ops|
  {
    if ops == [] then s else Run(Next(s, ops[0]), ops[1..])
  }

  /** The count is two per conversion and one per generator, the timer runs exactly while some stream
      does, and its interval is the divisor that was in force when the first of them started. */
  predicate Balanced(s: Streams) {
    && s.clock.runcount == (if s.converting then 2 else 0) + (if s.generating then 1 else 0)
    && s.clock.interval == if s.converting || s.generating then Some(s.since) else None
  }

  predicate BalancedThroughout(s: Streams, ops: seq<Op>)
    decreases |ops|
  {
    Balanced(s) && (ops == [] || BalancedThroughout(Next(s, ops[0]), ops[1..]))
  }

  /** No generator is stopped that is not running. */
  predicate Paired(s: Streams, ops: seq<Op>)
    decreases |ops|
  {
    ops == [] || ((ops[0] == StopGenerator && !s.halted ==> s.generating) && Paired(Next(s, ops[0]), ops[1..]))
  }

  /** Clock balance: in a run of commands the clock is balanced after every command if and only if no
      generator is stopped that is not running. */
  lemma {:induction false} BalancedIffPaired(s: Streams, ops: seq<Op>)
    requires Balanced(s)
    ensures BalancedThroughout(s, ops) <==> Paired(s, ops)
    decreases |ops|
  {
    if ops != [] {
      var s1 := Next(s, ops[0]);
      if ops[0] == StopGenerator && !s.halted && !s.generating {
        assert !Balanced(s1);
      } else {
        BalancedIffPaired(s1, ops[1..]);
      }
    }
  }

  /** A stop undoes a start: count, timer and streams are as they were. */
  lemma StopUndoesStart(s: Streams, depth: nat)
    requires Balanced(s) && !s.halted && AdcAccepts(depth)
    ensures !s.converting ==> Next(Next(s, StartConversion(depth)), StopConversion).(since := s.since) == s
    ensures !s.generating ==> Next(Next(s, StartGenerator(depth)), StopGenerator).(since := s.since) == s
  {
  }

  /** When a rate takes effect: it is what the next stream runs at if none is running, and nothing to those that
      are. */
  lemma RateTakesEffect(s: Streams, div: nat, depth: nat)
    requires Balanced(s) && !s.halted && AdcAccepts(depth)
    ensures var tuned := Next(s, SetRate(div));
            if s.converting || s.generating then tuned.clock.interval == s.clock.interval == Some(s.since)
            else Next(tuned, StartConversion(depth)).clock.interval
                 == Next(tuned, StartGenerator(depth)).clock.interval == Some(div)
  {
  }

  lemma {:induction false} HaltedRun(s: Streams, ops: seq<Op>)
    requires s.halted
    ensures Run(s, ops) == s
    decreases |ops|
  {
    if ops != [] {
      HaltedRun(s, ops[1..]);
    }
  }

  /** Which starts stop the device: of a conversion that is not running with an empty buffer or one of an odd
      size other than one; of a generator that is running or has such an odd size. Neither starts the clock,
      and no command that follows changes anything. */
  lemma StartsChecked(s: Streams, depth: nat, ops: seq<Op>)
    requires !s.halted
    ensures var r := Next(s, StartConversion(depth));
            && (r.halted <==> !s.converting && (depth == 0 || (depth != 1 && depth % 2 == 1)))
            && (r.halted ==> r.clock == s.clock && Run(r, ops) == r)
    ensures var r := Next(s, StartGenerator(depth));
            && (r.halted <==> s.generating || (depth != 1 && depth % 2 == 1))
            && (r.halted ==> r.clock == s.clock && Run(r, ops) == r)
  {
    if Next(s, StartConversion(depth)).halted {
      HaltedRun(Next(s, StartConversion(depth)), ops);
    }
    if Next(s, StartGenerator(depth)).halted {
      HaltedRun(Next(s, StartGenerator(depth)), ops);
    }
  }

  /** What a stray stop costs: the next generator runs without a clock. */
  lemma StraySilences(depth: nat)
    requires DacAccepts(depth)
    ensures var s := Run(IDLE, [StopGenerator, StartGenerator(depth)]);
            s.generating && s.clock.interval == None && s.clock.runcount == 0
  {
    var s1 := Next(IDLE, StopGenerator);
    assert s1.clock.runcount == WRAP - 1;
    assert [StopGenerator, StartGenerator(depth)][1..] == [StartGenerator(depth)];
    assert [StartGenerator(depth)][1..] == [];
    assert Run(IDLE, [StopGenerator, StartGenerator(depth)]) == Run(s1, [StartGenerator(depth)])
        == Next(s1, StartGenerator(depth));
  }
}
