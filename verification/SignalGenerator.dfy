/** source/periph/dac.cpp and `updateGenerator` of source/communication.cpp: the signal generator
    plays its buffer in a circle on DAC channel 1, and the host refills the half that just finished. The
    host's commands come one after another; between any two steps of theirs the clock may tick. */
module SignalGenerator {
  import opened Basics
  import opened SampleBuffers
  import opened HalfBuffers

  /** A granted refill: which half, and how many of its samples have arrived. */
  datatype Refill = Refill(second: bool, arrived: nat)

  /** A finished half that `sigGenWantsMore` has read and not yet cleared: which half, and how many events
      there had been by then. */
  datatype Taken = Taken(second: bool, at: nat)

  /** Events are numbered through all periods of playing; `played` and `fed` belong to the current one. */
  datatype State = State(
    buffer: Buffer,
    active: bool,              // driver state DAC_ACTIVE
    halted: bool,              // a kernel check stopped the device
    done: Option<bool>,        // dacIsDone: None for -1, else whether the second half finished
    pos: nat,                  // where DAC DMA reads next
    taken: Option<Taken>,      // the command thread is between its load and its store
    refill: Option<Refill>,    // the command thread is receiving samples
    events: nat,               // half-buffer events so far
    since: nat,                // how many of them before the current period
    grants: seq<nat>,          // events for which a refill was granted
    played: seq<Sample>,       // samples put out
    fed: seq<Sample>)          // refill samples received

  datatype Step =
    | Tick
    | Start
    | Stop
    | Update(samples: seq<Sample>)
    | RequestLoad
    | RequestClear
    | RefillSample(sample: Sample)

  predicate Sound(s: State) {
    && s.buffer.Valid() && s.since <= s.events
    && (s.active ==> 2 <= s.buffer.size && s.buffer.size % 2 == 0 && s.pos < s.buffer.size)
    && (s.active && s.done.Some? ==> s.since < s.events)
    && (s.taken.Some? ==> s.active && s.done.Some? && s.refill.None? && s.since < s.taken.value.at <= s.events)
    && (s.refill.Some? ==> s.active && s.refill.value.arrived < s.buffer.size / 2)
  }

  function HalfStart(s: State, second: bool): nat {
    if second then s.buffer.Mid() else 0
  }

  /** The command thread is in the middle of an update. */
  predicate Busy(s: State) {
    s.taken.Some? || s.refill.Some?
  }

  /** `DAC::start` of channel 1 on an even buffer. */
  function Started(s: State): (r: State)
    requires Sound(s) && !s.active && 2 <= s.buffer.size && s.buffer.size % 2 == 0
    ensures Sound(r)
  {
    s.(active := true, done := None, pos := 0, since := s.events, played := [], fed := [])
  }

  /** `startGenerator`. The flag is reset before the driver checks the size and that it is not active yet;
      buffers of fewer than two samples are not modelled. */
  function StartStep(s: State): (r: State)
    requires Sound(s)
    ensures Sound(r)
  {
    if Busy(s) || s.buffer.size < 2 then s
    else if s.active || s.buffer.size % 2 == 1 then s.(done := None, halted := true)
    else Started(s)
  }

  /** `stopGenerator`, which leaves the flag as it is. */
  function StopStep(s: State): (r: State)
    requires Sound(s)
    ensures Sound(r)
  {
    if Busy(s) then s else s.(active := false)
  }

  /** The idle branch of `updateGenerator`: the host sets the size and the whole contents. */
  function UpdateStep(s: State, samples: seq<Sample>): (r: State)
    requires Sound(s)
    ensures Sound(r)
  {
    if s.active || |samples| > MAX_SAMPLE_BUFFER_SIZE then s
    else s.(buffer := s.buffer.(size := |samples|, mem := Overwrite(s.buffer.mem, 0, samples)))
  }

  /** One trigger of the sample clock, with the end-of-half callback. */
  function TickStep(s: State): (r: State)
    requires Sound(s)
    ensures Sound(r)
  {
    if !s.active then s else
    var s1 := s.(played := s.played + [s.buffer.mem[s.pos]], pos := s.pos + 1);
    if s1.pos == s.buffer.size / 2 then s1.(done := Some(false), events := s.events + 1)
    else if s1.pos == s.buffer.size then s1.(done := Some(true), events := s.events + 1, pos := 0)
    else s1
  }

  /** The first half of `sigGenWantsMore` on behalf of an update command: a finished half is read. */
  function LoadStep(s: State): (r: State)
    requires Sound(s)
    ensures Sound(r)
  {
    if s.active && s.refill.None? && s.taken.None? && s.done.Some? then
      s.(taken := Some(Taken(s.done.value, s.events)))
    else s
  }

  /** The second half: the flag is cleared, and the half that was read is granted. */
  function ClearStep(s: State): (r: State)
    requires Sound(s)
    ensures Sound(r)
  {
    if s.taken.None? then s else
    s.(taken := None, done := None, refill := Some(Refill(s.taken.value.second, 0)),
       grants := s.grants + [s.taken.value.at - 1])
  }

  /** One sample of a granted refill arrives. */
  function RefillStep(s: State, sample: Sample): (r: State)
    requires Sound(s)
    ensures Sound(r)
  {
    if s.refill.None? then s else
    var f := s.refill.value;
    s.(buffer := s.buffer.(mem := s.buffer.mem[HalfStart(s, f.second) + f.arrived := sample]),
       refill := if f.arrived + 1 < s.buffer.size / 2 then Some(f.(arrived := f.arrived + 1)) else None,
       fed := s.fed + [sample])
  }

  function Next(s: State, step: Step): (r: State)
    requires Sound(s)
    ensures Sound(r)
  {
    if s.halted then s else
    match step
    case Tick => TickStep(s)
    case Start => StartStep(s)
    case Stop => StopStep(s)
    case Update(samples) => UpdateStep(s, samples)
    case RequestLoad => LoadStep(s)
    case RequestClear => ClearStep(s)
    case RefillSample(sample) => RefillStep(s, sample)
  }

  function Run(s: State, steps: seq<Step>): (r: State)
    requires Sound(s)
    ensures Sound(r)
    decreases |steps|
  {
    if steps == [] then s else Run(Next(s, steps[0]), steps[1..])
  }

  // ----- Grants -----

  /** The last event granted, or the number before the first. */
  function LastGrant(s: State): int {
    if s.grants == [] then -1 else s.grants[|s.grants| - 1]
  }

  /** How many halves of the current period are over. */
  function Turn(s: State): nat
    requires Sound(s)
  {
    s.events - s.since
  }

  /** Which half is being played, and which is noted or read as finished, follow the number of events in
      the period. */
  predicate InPhase(s: State)
    requires Sound(s)
  {
    && (s.active ==> (s.pos < s.buffer.size / 2) == (Turn(s) % 2 == 0))
    && (s.active && s.done.Some? ==> s.done.value == ((Turn(s) - 1) % 2 == 1))
    && (s.taken.Some? ==> s.taken.value.second == ((s.taken.value.at - 1 - s.since) % 2 == 1))
  }

  /** Each event is granted at most once, in order, and what is noted or read has not been granted. */
  ghost predicate InOrder(s: State)
    requires Sound(s)
  {
    && (s.active && s.done.Some? && s.taken.None? ==> LastGrant(s) < s.events - 1)
    && (s.taken.Some? ==> LastGrant(s) < s.taken.value.at - 1)
    && (forall g :: g in s.grants ==> g < s.events)
    && (forall i, j :: 0 <= i < j < |s.grants| ==> s.grants[i] < s.grants[j])
  }

  ghost predicate GrantsSound(s: State)
    requires Sound(s)
  {
    InPhase(s) && InOrder(s)
  }

  lemma TickKeepsPhase(s: State)
    requires Sound(s) && InPhase(s)
    ensures InPhase(TickStep(s))
  {
  }

  lemma TickKeepsOrder(s: State)
    requires Sound(s) && InOrder(s)
    ensures InOrder(TickStep(s))
  {
    if s.grants != [] {
      assert LastGrant(s) in s.grants;
    }
  }

  lemma ClearKeepsGrants(s: State)
    requires Sound(s) && GrantsSound(s)
    ensures GrantsSound(ClearStep(s))
  {
    if s.taken.Some? {
      var g := s.taken.value.at - 1;
      assert ClearStep(s).grants == s.grants + [g];
      forall i | 0 <= i < |s.grants| ensures s.grants[i] < g {
        assert s.grants[i] <= LastGrant(s);
      }
    }
  }

  lemma StepKeepsGrants(s: State, step: Step)
    requires Sound(s) && GrantsSound(s)
    ensures GrantsSound(Next(s, step))
  {
    if step.Tick? {
      TickKeepsPhase(s);
      TickKeepsOrder(s);
    } else if step.RequestClear? {
      ClearKeepsGrants(s);
    }
  }

  /** In every run, through any number of starts, stops and updates and wherever the interrupts fall, each
      event is granted at most once and in order. */
  lemma {:induction false} RunKeepsGrants(s: State, steps: seq<Step>)
    requires Sound(s) && GrantsSound(s)
    ensures GrantsSound(Run(s, steps))
    decreases |steps|
  {
    if steps != [] {
      StepKeepsGrants(s, steps[0]);
      RunKeepsGrants(Next(s, steps[0]), steps[1..]);
    }
  }

  /** Events that fall between the load and the store of a request. */
  function Between(s: State): nat
    requires Sound(s) && s.taken.Some?
  {
    s.events - s.taken.value.at
  }

  /** Whether the half from `start` on is the one being played. */
  predicate BeingPlayed(s: State, start: nat) {
    start <= s.pos < start + s.buffer.Mid()
  }

  lemma GrantOf(s: State)
    requires Sound(s) && GrantsSound(s) && s.taken.Some?
    ensures var g := ClearStep(s);
            var start := HalfStart(s, g.refill.value.second);
            && g.refill.Some? && g.done.None? && s.since <= LastGrant(g)
            && (start == Other(s.buffer.Mid(), Turn(s)) <==> Between(s) % 2 == 0)
            && (!BeingPlayed(s, start) <==> Between(s) % 2 == 0)
            && (LastGrant(g) == s.events - 1 <==> Between(s) == 0)
  {
    assert Turn(s) == Between(s) + (s.taken.value.at - s.since);
    assert LastGrant(ClearStep(s)) == s.taken.value.at - 1;
  }

  /** A request without an interrupt in it. */
  lemma QuietRequest(s: State)
    requires Sound(s) && GrantsSound(s) && s.active && !s.halted && !Busy(s)
    ensures var g := ClearStep(LoadStep(s));
            && GrantsSound(g) && g.refill.Some? == s.done.Some?
            && (g.refill.Some? ==> LastGrant(g) == g.events - 1 && !BeingPlayed(g, HalfStart(g, g.refill.value.second)))
  {
    StepKeepsGrants(s, RequestLoad);
    ClearKeepsGrants(LoadStep(s));
    if s.done.Some? {
      GrantOf(LoadStep(s));
    }
  }

  /** What a grant is good for, at the end of any run. It targets the half that is not being played if and
      only if the number of events that fell between the load and the store of the request is even. It is
      for the latest event, so that none is cleared unseen, if and only if that number is zero. And it is
      for an event of the current period: a flag left by an earlier one grants nothing. */
  lemma GrantTarget(s: State, steps: seq<Step>)
    requires Sound(s) && GrantsSound(s) && Run(s, steps).taken.Some?
    ensures var r := Run(s, steps);
            var g := ClearStep(r);
            var start := HalfStart(r, g.refill.value.second);
            && g.refill.Some? && g.done.None? && r.since <= LastGrant(g)
            && (start == Other(r.buffer.Mid(), Turn(r)) <==> Between(r) % 2 == 0)
            && (!BeingPlayed(r, start) <==> Between(r) % 2 == 0)
            && (LastGrant(g) == r.events - 1 <==> Between(r) == 0)
  {
    RunKeepsGrants(s, steps);
    GrantOf(Run(s, steps));
  }

  /** The interrupt in between: the first half finishes and is read as finished, the second finishes before
      the flag is cleared; then the first is granted while it is being played, and the second is never
      granted. */
  lemma MissedEvent(s: State)
    requires Sound(s) && !s.active && !s.halted && s.buffer.size == 2
    ensures var r := Run(Started(s), [Tick, RequestLoad, Tick, RequestClear]);
            && r.refill == Some(Refill(false, 0)) && BeingPlayed(r, 0)
            && r.done.None? && r.events == s.events + 2 && r.grants == s.grants + [s.events]
  {
    var s0 := Started(s);
    var s1 := Next(s0, Tick);
    var s2 := Next(s1, RequestLoad);
    var s3 := Next(s2, Tick);
    assert s1.done == Some(false) && s2.taken == Some(Taken(false, s.events + 1)) && s3.pos == 0;
    assert [Tick, RequestLoad, Tick, RequestClear][1..] == [RequestLoad, Tick, RequestClear];
    assert [RequestLoad, Tick, RequestClear][1..] == [Tick, RequestClear];
    assert [Tick, RequestClear][1..] == [RequestClear] && [RequestClear][1..] == [];
    assert Run(s3, [RequestClear]) == Next(s3, RequestClear);
    assert Run(s2, [Tick, RequestClear]) == Run(s3, [RequestClear]);
    assert Run(s1, [RequestLoad, Tick, RequestClear]) == Run(s2, [Tick, RequestClear]);
  }

  // ----- Streaming -----

  /** A step of a run in which every refill is granted and complete before the next event; in particular
      no event falls between the load and the store of a request. The period is not ended. */
  predicate TimelyStep(s: State, step: Step) {
    && !step.Start? && !step.Stop?
    && (step.Tick? && s.active && (s.pos + 1 == s.buffer.size / 2 || s.pos + 1 == s.buffer.size) ==>
          s.done.None? && s.refill.None?)
  }

  predicate Timely(s: State, steps: seq<Step>)
    requires Sound(s)
    decreases |steps|
  {
    steps == [] || (TimelyStep(s, steps[0]) && Timely(Next(s, steps[0]), steps[1..]))
  }

  /** The plan of a timely run: `slots` holds the contents of every turn decided so far, `rest` the
      samples of the next one that have arrived. */
  datatype Plan = Plan(slots: seq<seq<Sample>>, rest: seq<Sample>)

  /** How far into the current half the DAC is. */
  function Into(h: nat, s: State): int
    requires Sound(s)
  {
    s.pos - Current(h, Turn(s))
  }

  /** In turn `n`, `p` samples into it, what has been put out is planned. */
  ghost function Playings(h: nat, mem: seq<Sample>, played: seq<Sample>, n: nat, p: nat): iset<Plan> {
    iset t: Plan | Playing(h, Current(h, n), mem, played, t.slots, n, p)
  }

  /** The plan is the initial buffer and then what the host sent. */
  ghost predicate Fed(first: seq<Sample>, fed: seq<Sample>, t: Plan) {
    && 2 <= |t.slots| && t.slots[0] + t.slots[1] == first
    && fed == Flatten(t.slots[2..]) + t.rest
  }

  ghost function FedPlans(first: seq<Sample>, fed: seq<Sample>): iset<Plan> {
    iset t: Plan | Fed(first, fed, t)
  }

  /** Where the refill for the turn after turn `n` stands. */
  ghost predicate Feeding(h: nat, mem: seq<Sample>, n: nat, done: Option<bool>, refill: Option<Refill>, t: Plan) {
    && 2 * h <= |mem|
    && if done.None? && refill.None? then
         && |t.slots| == n + 2 && t.rest == []
         && mem[Other(h, n)..Other(h, n) + h] == t.slots[n + 1]
       else
         && |t.slots| == n + 1
         && (done.Some? ==> refill.None? && t.rest == [] && done.value == (Other(h, n) == h))
         && (refill.Some? ==>
               && refill.value.second == (Other(h, n) == h)
               && |t.rest| == refill.value.arrived < h
               && mem[Other(h, n)..Other(h, n) + |t.rest|] == t.rest)
  }

  ghost function Feedings(h: nat, mem: seq<Sample>, n: nat, done: Option<bool>, refill: Option<Refill>): iset<Plan> {
    iset t: Plan | Feeding(h, mem, n, done, refill, t)
  }

  ghost predicate Streaming(h: nat, first: seq<Sample>, s: State, t: Plan) {
    && Sound(s) && s.active && !s.halted && s.buffer.size == 2 * h && 0 <= Into(h, s) < h
    && (s.taken.Some? ==> s.done == Some(s.taken.value.second))
    && t in Playings(h, s.buffer.mem, s.played, Turn(s), Into(h, s))
    && t in FedPlans(first, s.fed)
    && t in Feedings(h, s.buffer.mem, Turn(s), s.done, s.refill)
  }

  // ----- Ticks -----

  /** What a tick does inside a turn and at its end. */
  lemma TickEffect(h: nat, s: State)
    requires Sound(s) && s.active && s.buffer.size == 2 * h && 0 <= Into(h, s) < h
    ensures var played := s.played + [s.buffer.mem[s.pos]];
            TickStep(s) == if Into(h, s) + 1 < h then s.(played := played, pos := s.pos + 1)
                           else s.(played := played, pos := Current(h, Turn(s) + 1), events := s.events + 1,
                                   done := Some(Other(h, Turn(s) + 1) == h))
  {
  }

  lemma OneMorePlayed(h: nat, mem: seq<Sample>, played: seq<Sample>, n: nat, p: nat, t: Plan)
    requires p < h && t in Playings(h, mem, played, n, p)
    ensures Current(h, n) + p < |mem| && t in Playings(h, mem, played + [mem[Current(h, n) + p]], n, p + 1)
  {
    PlayOne(h, Current(h, n), mem, played, t.slots, n, p);
  }

  lemma QuietTick(h: nat, first: seq<Sample>, s: State, t: Plan, r: State)
    requires Streaming(h, first, s, t) && Into(h, s) + 1 < h
    requires r == s.(played := s.played + [s.buffer.mem[s.pos]], pos := s.pos + 1)
    ensures Streaming(h, first, r, t)
  {
    OneMorePlayed(h, s.buffer.mem, s.played, Turn(s), Into(h, s), t);
  }

  /** Which half is current changes from turn to turn. */
  lemma TurnOver(h: nat, n: nat)
    ensures Current(h, n + 1) == Other(h, n) && Other(h, n + 1) == Current(h, n)
  {
  }

  /** The last sample of a turn: the next turn's contents are in place. */
  lemma TurnEnds(h: nat, mem: seq<Sample>, played: seq<Sample>, n: nat, t: Plan)
    requires 0 < h && t in Playings(h, mem, played, n, h - 1) && t in Feedings(h, mem, n, None, None)
    ensures t in Playings(h, mem, played + [mem[Current(h, n) + (h - 1)]], n + 1, 0)
    ensures t in Feedings(h, mem, n + 1, Some(Other(h, n + 1) == h), None)
  {
    TurnOver(h, n);
    TurnPlayed(h, Current(h, n), Other(h, n), mem, played, t.slots, n);
  }

  lemma EventTick(h: nat, first: seq<Sample>, s: State, t: Plan, r: State)
    requires Streaming(h, first, s, t) && Into(h, s) + 1 == h && s.done.None? && s.refill.None?
    requires r == s.(played := s.played + [s.buffer.mem[s.pos]], pos := Current(h, Turn(s) + 1),
                     events := s.events + 1, done := Some(Other(h, Turn(s) + 1) == h))
    ensures Streaming(h, first, r, t)
  {
    TurnEnds(h, s.buffer.mem, s.played, Turn(s), t);
  }

  // ----- Refills -----

  /** The half being refilled after one more sample. */
  lemma RefillArrives(h: nat, mem: seq<Sample>, n: nat, rest: seq<Sample>, sample: Sample)
    requires 2 * h <= |mem| && |rest| < h
    requires mem[Other(h, n)..Other(h, n) + |rest|] == rest
    ensures var mem' := mem[Other(h, n) + |rest| := sample];
            && mem'[Other(h, n)..Other(h, n) + |rest| + 1] == rest + [sample]
            && mem'[Current(h, n)..Current(h, n) + h] == mem[Current(h, n)..Current(h, n) + h]
  {
  }

  lemma FedOne(first: seq<Sample>, fed: seq<Sample>, t: Plan, sample: Sample)
    requires t in FedPlans(first, fed)
    ensures t.(rest := t.rest + [sample]) in FedPlans(first, fed + [sample])
  {
    assert Flatten(t.slots[2..]) + t.rest + [sample] == Flatten(t.slots[2..]) + (t.rest + [sample]);
  }

  lemma FedSlot(first: seq<Sample>, fed: seq<Sample>, t: Plan)
    requires t in FedPlans(first, fed)
    ensures Plan(t.slots + [t.rest], []) in FedPlans(first, fed)
  {
    FlattenSnoc(t.slots[2..], t.rest);
    assert (t.slots + [t.rest])[2..] == t.slots[2..] + [t.rest];
    assert Fed(first, fed, Plan(t.slots + [t.rest], []));
  }

  /** Memory with one more sample of a refill. */
  function Refilled(h: nat, mem: seq<Sample>, n: nat, arrived: nat, sample: Sample): seq<Sample>
    requires 2 * h <= |mem| && arrived < h
  {
    mem[Other(h, n) + arrived := sample]
  }

  /** What a refill sample does inside a refill and at its end. */
  lemma RefillEffect(h: nat, first: seq<Sample>, s: State, t: Plan, sample: Sample)
    requires Streaming(h, first, s, t) && s.refill.Some?
    ensures |t.rest| < h && s.done.None?
    ensures RefillStep(s, sample)
         == s.(buffer := s.buffer.(mem := Refilled(h, s.buffer.mem, Turn(s), |t.rest|, sample)),
               fed := s.fed + [sample],
               refill := if |t.rest| + 1 < h then Some(Refill(s.refill.value.second, |t.rest| + 1)) else None)
  {
  }

  /** A sample for the other half does not disturb the turn. */
  lemma RefillSpares(h: nat, mem: seq<Sample>, played: seq<Sample>, n: nat, p: nat, t: Plan, sample: Sample, t': Plan)
    requires t in Playings(h, mem, played, n, p) && 2 * h <= |mem| && |t.rest| < h && t.slots <= t'.slots
    ensures t' in Playings(h, Refilled(h, mem, n, |t.rest|, sample), played, n, p)
  {
    var mem' := Refilled(h, mem, n, |t.rest|, sample);
    assert mem'[Current(h, n)..Current(h, n) + h] == mem[Current(h, n)..Current(h, n) + h];
    assert t'.slots[n] == t.slots[n] && t'.slots[..n] == t.slots[..n];
    assert Playing(h, Current(h, n), mem', played, t'.slots, n, p);
  }

  lemma PartFeeding(h: nat, mem: seq<Sample>, n: nat, second: bool, t: Plan, sample: Sample)
    requires t in Feedings(h, mem, n, None, Some(Refill(second, |t.rest|))) && |t.rest| + 1 < h
    ensures t.(rest := t.rest + [sample])
            in Feedings(h, Refilled(h, mem, n, |t.rest|, sample), n, None, Some(Refill(second, |t.rest| + 1)))
  {
    RefillArrives(h, mem, n, t.rest, sample);
  }

  lemma LastFeeding(h: nat, mem: seq<Sample>, n: nat, second: bool, t: Plan, sample: Sample)
    requires t in Feedings(h, mem, n, None, Some(Refill(second, |t.rest|))) && |t.rest| + 1 == h
    ensures Plan(t.slots + [t.rest + [sample]], [])
            in Feedings(h, Refilled(h, mem, n, |t.rest|, sample), n, None, None)
  {
    RefillArrives(h, mem, n, t.rest, sample);
  }

  lemma PartRefill(h: nat, first: seq<Sample>, s: State, t: Plan, sample: Sample, r: State)
    requires Streaming(h, first, s, t) && s.refill.Some? && s.done.None? && |t.rest| + 1 < h
    requires r == s.(buffer := s.buffer.(mem := Refilled(h, s.buffer.mem, Turn(s), |t.rest|, sample)),
                     fed := s.fed + [sample], refill := Some(Refill(s.refill.value.second, |t.rest| + 1)))
    ensures Streaming(h, first, r, t.(rest := t.rest + [sample]))
  {
    var t' := t.(rest := t.rest + [sample]);
    RefillSpares(h, s.buffer.mem, s.played, Turn(s), Into(h, s), t, sample, t');
    PartFeeding(h, s.buffer.mem, Turn(s), s.refill.value.second, t, sample);
    FedOne(first, s.fed, t, sample);
  }

  lemma LastRefill(h: nat, first: seq<Sample>, s: State, t: Plan, sample: Sample, r: State)
    requires Streaming(h, first, s, t) && s.refill.Some? && s.done.None? && |t.rest| + 1 == h
    requires r == s.(buffer := s.buffer.(mem := Refilled(h, s.buffer.mem, Turn(s), |t.rest|, sample)),
                     fed := s.fed + [sample], refill := None)
    ensures Streaming(h, first, r, Plan(t.slots + [t.rest + [sample]], []))
  {
    var t' := Plan(t.slots + [t.rest + [sample]], []);
    RefillSpares(h, s.buffer.mem, s.played, Turn(s), Into(h, s), t, sample, t');
    LastFeeding(h, s.buffer.mem, Turn(s), s.refill.value.second, t, sample);
    FedOne(first, s.fed, t, sample);
    FedSlot(first, s.fed + [sample], t.(rest := t.rest + [sample]));
  }

  // ----- Runs -----

  lemma StepStreams(h: nat, first: seq<Sample>, s: State, t: Plan, step: Step) returns (t': Plan)
    requires Streaming(h, first, s, t) && TimelyStep(s, step)
    ensures Streaming(h, first, Next(s, step), t')
  {
    t' := t;
    match step
    case Tick =>
      TickEffect(h, s);
      if Into(h, s) + 1 < h {
        QuietTick(h, first, s, t, TickStep(s));
      } else {
        EventTick(h, first, s, t, TickStep(s));
      }
    case Update(_) =>
    case RequestLoad =>
    case RequestClear => ClearStreams(h, first, s, t);
    case RefillSample(sample) => t' := RefillStreams(h, first, s, t, sample);
  }

  /** A request that has found a finished half starts its refill. */
  lemma ClearStreams(h: nat, first: seq<Sample>, s: State, t: Plan)
    requires Streaming(h, first, s, t)
    ensures Streaming(h, first, ClearStep(s), t)
  {
  }

  lemma RefillStreams(h: nat, first: seq<Sample>, s: State, t: Plan, sample: Sample) returns (t': Plan)
    requires Streaming(h, first, s, t)
    ensures Streaming(h, first, RefillStep(s, sample), t')
  {
    t' := t;
    if s.refill.Some? {
      RefillEffect(h, first, s, t, sample);
      if |t.rest| + 1 < h {
        PartRefill(h, first, s, t, sample, RefillStep(s, sample));
        t' := t.(rest := t.rest + [sample]);
      } else {
        LastRefill(h, first, s, t, sample, RefillStep(s, sample));
        t' := Plan(t.slots + [t.rest + [sample]], []);
      }
    }
  }

  lemma {:induction false} RunStreams(h: nat, first: seq<Sample>, s: State, t: Plan, steps: seq<Step>)
    returns (t': Plan)
    requires Streaming(h, first, s, t) && Timely(s, steps)
    ensures Streaming(h, first, Run(s, steps), t')
    decreases |steps|
  {
    t' := t;
    if steps != [] {
      t' := StepStreams(h, first, s, t, steps[0]);
      t' := RunStreams(h, first, Next(s, steps[0]), t', steps[1..]);
    }
  }

  /** Generator streaming: when each refill is granted and complete before the next event, the signal
      put out from a start on, the first or a later one, is the buffer as the host had set it followed by
      the samples the host sent, in order. */
  lemma GeneratorTheorem(s: State, steps: seq<Step>)
    requires Sound(s) && !s.active && !s.halted && 2 <= s.buffer.size && s.buffer.size % 2 == 0
    requires Timely(Next(s, Start), steps)
    ensures var r := Run(Next(s, Start), steps);
            r.played <= s.buffer.mem[..s.buffer.size] + r.fed
  {
    var h, first := s.buffer.size / 2, s.buffer.mem[..s.buffer.size];
    var t := Plan([first[..h], first[h..]], []);
    StartStreams(h, s, t);
    var t' := RunStreams(h, first, Started(s), t, steps);
    StreamingIsPrefix(h, first, Run(Started(s), steps), t');
  }

  /** The samples arrive: what the host sends to an idle generator is what the next start plays first, and the
      samples it sends from then on follow. */
  lemma UpdatePlays(s: State, samples: seq<Sample>, steps: seq<Step>)
    requires Sound(s) && !s.active && !s.halted && 2 <= |samples| <= MAX_SAMPLE_BUFFER_SIZE && |samples| % 2 == 0
    requires Timely(Next(Next(s, Update(samples)), Start), steps)
    ensures var r := Run(Next(Next(s, Update(samples)), Start), steps);
            r.played <= samples + r.fed
  {
    var updated := Next(s, Update(samples));
    assert updated.buffer.mem[..updated.buffer.size] == samples;
    GeneratorTheorem(updated, steps);
  }

  // ----- Stops and starts -----

  /** What a stopped generator has put out, the events and grants so far, and the flag. */
  function RecordOf(s: State): (seq<Sample>, nat, seq<nat>, Option<bool>) {
    (s.played, s.events, s.grants, s.done)
  }

  lemma {:induction false} IdleRun(s: State, steps: seq<Step>)
    requires Sound(s) && !s.active && Start !in steps
    ensures var r := Run(s, steps); !r.active && RecordOf(r) == RecordOf(s)
    decreases |steps|
  {
    if steps != [] {
      assert steps[0] in steps;
      IdleRun(Next(s, steps[0]), steps[1..]);
    }
  }

  /** From a stop to the next start nothing is put out, no half is over and no refill is granted, although the
      flag stays set if it is. */
  lemma StopSilences(s: State, steps: seq<Step>)
    requires Sound(s) && !s.halted && !Busy(s) && Start !in steps
    ensures var r := Run(Next(s, Stop), steps); !r.active && RecordOf(r) == RecordOf(s)
  {
    IdleRun(Next(s, Stop), steps);
  }

  lemma {:induction false} HaltedRun(s: State, steps: seq<Step>)
    requires Sound(s) && s.halted
    ensures Run(s, steps) == s
    decreases |steps|
  {
    if steps != [] {
      HaltedRun(s, steps[1..]);
    }
  }

  /** A start is the end of the device exactly when the generator is playing already or its buffer has an odd
      size; nothing that follows changes anything then. */
  lemma StartChecked(s: State, steps: seq<Step>)
    requires Sound(s) && !s.halted && !Busy(s) && 2 <= s.buffer.size
    ensures Next(s, Start).halted <==> s.active || s.buffer.size % 2 == 1
    ensures s.active || s.buffer.size % 2 == 1 ==> Run(Next(s, Start), steps) == Next(s, Start)
  {
    if s.active || s.buffer.size % 2 == 1 {
      HaltedRun(Next(s, Start), steps);
    }
  }

  lemma StartStreams(h: nat, s: State, t: Plan)
    requires Sound(s) && !s.active && !s.halted && 0 < h && s.buffer.size == 2 * h
    requires t == Plan([s.buffer.mem[..2 * h][..h], s.buffer.mem[..2 * h][h..]], [])
    ensures Streaming(h, s.buffer.mem[..2 * h], Started(s), t)
  {
    assert Flatten(t.slots[..0]) == [] && Flatten(t.slots[2..]) == [];
    SliceOfSlice(s.buffer.mem, 0, 2 * h, 0, h);
    SliceOfSlice(s.buffer.mem, 0, 2 * h, h, 2 * h);
    assert Playing(h, 0, s.buffer.mem, [], t.slots, 0, 0) && Fed(s.buffer.mem[..2 * h], [], t);
  }

  lemma StreamingIsPrefix(h: nat, first: seq<Sample>, s: State, t: Plan)
    requires Streaming(h, first, s, t)
    ensures s.played <= first + s.fed
  {
    PlayedIsPrefix(h, Current(h, Turn(s)), s.buffer.mem, s.played, t.slots, Turn(s), Into(h, s));
    assert t.slots[1..][1..] == t.slots[2..];
    assert Flatten(t.slots) == t.slots[0] + (t.slots[1] + Flatten(t.slots[2..]));
  }

  // ----- The firmware -----

  datatype DacState = DacReady | DacActive | DacComplete

  /** `DAC` channel 1 with the generator part of `updateGenerator`. */
  class Generator {
    const buffer: SampleBuffer
    var state: DacState
    var halted: bool
    var dacIsDone: int
    var pos: nat
    var refill: Option<Refill>
    var tmp: int             // the local variable of `sigGenWantsMore`, -1 outside it
    ghost var loadedAt: nat  // number of events when it was read
    ghost var log: State     // history fields only

    ghost predicate Valid()
      reads this, buffer, buffer.buffer
    {
      buffer.Valid() && -1 <= dacIsDone <= 1 && -1 <= tmp <= 1 && state != DacComplete && Sound(View())
    }

    ghost function View(): State
      reads this, buffer, buffer.buffer
    {
      State(buffer.Value(), state == DacActive, halted, if dacIsDone == -1 then None else Some(dacIsDone == 1),
            pos, if tmp == -1 then None else Some(Taken(tmp == 1, loadedAt)), refill,
            log.events, log.since, log.grants, log.played, log.fed)
    }

    constructor (buffer: SampleBuffer)
      requires buffer.Valid()
      ensures Valid() && this.buffer == buffer
      ensures View() == State(buffer.Value(), false, false, None, 0, None, None, 0, 0, [], [], [])
    {
      this.buffer := buffer;
      state, halted, dacIsDone, pos, refill, tmp := DacReady, false, -1, 0, None, -1;
      log := State(Buffer([], 0, None), false, false, None, 0, None, None, 0, 0, [], [], []);
    }

    /** The idle branch of `updateGenerator`. */
    method OnUpdate(samples: seq<Sample>)
      requires Valid() && state == DacReady
      modifies buffer`size, buffer.buffer
      ensures Valid() && View() == UpdateStep(old(View()), samples)
      ensures |samples| <= MAX_SAMPLE_BUFFER_SIZE ==> buffer.buffer[..buffer.size] == samples
    {
      if |samples| <= MAX_SAMPLE_BUFFER_SIZE {
        buffer.SetSize(|samples|);
        ghost var before := buffer.buffer[..];
        forall i | 0 <= i < |samples| {
          buffer.buffer[i] := samples[i];
        }
        assert buffer.buffer[..] == Overwrite(before, 0, samples);
      }
    }

    /** `DAC::start` of channel 1, with the checks of the driver. */
    method OnStart()
      requires Valid() && !Busy(View()) && 2 <= buffer.size
      modifies this
      ensures Valid() && View() == StartStep(old(View()))
    {
      dacIsDone := -1;
      if state == DacActive || buffer.size % 2 == 1 {
        halted := true;
      } else {
        pos := 0;
        state := DacActive;
        log := log.(since := log.events, played := [], fed := []);
      }
    }

    /** `DAC::stop` of channel 1, which ignores a generator that is not active. */
    method OnStop()
      requires Valid() && !Busy(View())
      modifies this`state
      ensures Valid() && View() == StopStep(old(View()))
    {
      if state != DacReady {
        state := DacReady;
      }
    }

    /** `dacEndCallback` for channel 1. */
    method DacEndCallback()
      modifies this`dacIsDone
      ensures dacIsDone == if state == DacComplete then 1 else 0
    {
      dacIsDone := if state == DacComplete then 1 else 0;
    }

    /** The DMA transfer, which is circular. */
    method Transfer()
      requires Valid() && state == DacActive
      modifies this`pos, this`log
      ensures Valid()
      ensures View() == old(View()).(played := old(View()).played + [buffer.buffer[old(pos)]],
                                     pos := if old(pos) + 1 == buffer.size then 0 else old(pos) + 1)
    {
      log := log.(played := log.played + [buffer.buffer[pos]]);
      pos := if pos + 1 == buffer.size then 0 else pos + 1;
    }

    /** The driver's half and full interrupt codes: the full one shows the callback state DAC_COMPLETE and
        takes it back. */
    method DacIsr(full: bool)
      requires Valid() && state == DacActive
      modifies this`dacIsDone, this`state, this`log
      ensures Valid() && View() == old(View()).(done := Some(full), events := old(View()).events + 1)
    {
      if full {
        state := DacComplete;
      }
      DacEndCallback();
      if state == DacComplete {
        state := DacActive;
      }
      log := log.(events := log.events + 1);
    }

    /** One trigger of the sample clock: the transfer, and the interrupt when due. */
    method OnTick()
      requires Valid()
      modifies this`pos, this`dacIsDone, this`state, this`log
      ensures Valid() && View() == TickStep(old(View()))
    {
      if state == DacActive {
        Transfer();
        if pos == buffer.size / 2 {
          DacIsr(false);
        } else if pos == 0 {
          DacIsr(true);
        }
      }
    }

    /** `sigGenWantsMore` up to where it has read the flag. An interrupt may follow. */
    method LoadDone()
      requires Valid() && state == DacActive && refill.None? && tmp == -1
      modifies this`tmp, this`loadedAt
      ensures Valid() && tmp == dacIsDone && View() == LoadStep(old(View()))
    {
      if dacIsDone != -1 {
        tmp := dacIsDone;
        loadedAt := log.events;
      }
    }

    /** The rest of it, when the flag was set, and the reply of an update command. */
    method ClearDone() returns (more: int)
      requires Valid() && state == DacActive && refill.None?
      modifies this`tmp, this`dacIsDone, this`refill, this`log
      ensures Valid() && more == old(tmp) && tmp == -1 && View() == ClearStep(old(View()))
    {
      more := tmp;
      if tmp != -1 {
        dacIsDone := -1;
        tmp := -1;
        refill := Some(Refill(more == 1, 0));
        log := log.(grants := log.grants + [loadedAt - 1]);
      }
    }

    /** The running branch of `updateGenerator` up to its reply, when no interrupt comes in between: one
        byte, 1 when a refill is granted, which is then for the latest event and not for the half being
        played. */
    method OnRequest() returns (reply: int)
      requires Valid() && state == DacActive && !halted && !Busy(View()) && GrantsSound(View())
      modifies this`tmp, this`loadedAt, this`dacIsDone, this`refill, this`log
      ensures Valid() && GrantsSound(View()) && View() == ClearStep(LoadStep(old(View())))
      ensures reply == if old(dacIsDone) == -1 then 0 else 1
      ensures reply == 1 ==>
                && refill.Some? && LastGrant(View()) == View().events - 1
                && !BeingPlayed(View(), HalfStart(View(), refill.value.second))
    {
      QuietRequest(View());
      LoadDone();
      var more := ClearDone();
      reply := if more == -1 then 0 else 1;
    }

    /** One sample of the refill read from the host. */
    method OnRefillSample(sample: Sample)
      requires Valid() && refill.Some?
      modifies this, buffer.buffer
      ensures Valid() && View() == RefillStep(old(View()), sample)
    {
      var f := refill.value;
      var start := if f.second then buffer.size / 2 else 0;
      buffer.buffer[start + f.arrived] := sample;
      refill := if f.arrived + 1 < buffer.size / 2 then Some(Refill(f.second, f.arrived + 1)) else None;
      log := log.(fed := log.fed + [sample]);
    }
  }
}
