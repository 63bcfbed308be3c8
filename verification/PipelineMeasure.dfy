/** Measured conversions: what a run would have been without any measurement, and what the stopwatch
    shows. */
module PipelineMeasure {
  import opened Basics
  import opened Errors
  import opened SampleBuffers
  import opened Pipeline
  import opened PipelineFlow

  // ----- A state with every trace of measuring removed -----

  /** The message without its measuring mark. */
  function Plain(m: Message): Message {
    if ForMeasure(m.code) then m.(code := if ForFirst(m.code) then MSG_CONVFIRST else MSG_CONVSECOND) else m
  }

  function PlainAll(messages: seq<Message>): (r: seq<Message>)
    ensures |r| == |messages|
  {
    seq(|messages|, i requires 0 <= i < |messages| => Plain(messages[i]))
  }

  function PlainRunner(r: Runner): Runner {
    match r
    case Accepted(msg) => Accepted(Plain(msg))
    case Entered(msg, base, size, entry, _) => Entered(Plain(msg), base, size, entry, false)
    case Returned(msg, size, source, _) => Returned(Plain(msg), size, source, false)
    case Ready(msg, size, source) => Ready(Plain(msg), size, source)
    case _ => r
  }

  function PlainTally(t: Tally): Tally {
    t.(measuresAccepted := 0, measuresPosted := 0, started := [], timed := [])
  }

  /** No mark on any message, the ordinary handler for the measuring one, and an untouched stopwatch.
      Buffers, memory, entry point, errors, events and signals stay. */
  function Strip(s: State): (r: State)
    requires Bounded(s)
    ensures Bounded(r)
  {
    s.(operation := if s.operation.MeasureHandler? then ReadHandler else s.operation,
       mailbox := PlainAll(s.mailbox),
       held := if s.held.Some? then Some(Plain(s.held.value)) else None,
       runner := PlainRunner(s.runner),
       watch := Unused,
       log := s.log.(delivered := PlainAll(s.log.delivered), tally := PlainTally(s.log.tally)))
  }

  /** Steps a run without measurements does not have: accepted requests, the stopwatch, and steps the
      runner cannot take until the stopwatch is started or stopped. */
  predicate Measuring(s: State, step: Step) {
    match step
    case RunnerStartTimer => true
    case RunnerStopTimer => true
    case RunnerCompute => s.runner.Entered? && !InAlgorithm(s.runner)
    case RunnerScratch(_) => s.runner.Entered? && !InAlgorithm(s.runner)
    case RunnerTest => s.runner.Returned? && s.runner.timing
    case RunnerFault => (s.runner.Entered? && !InAlgorithm(s.runner)) || (s.runner.Returned? && s.runner.timing)
    case Host(command) => command.MeasureConversion? && s.status == Running
    case _ => false
  }

  /** The steps of a run that remain when nothing is measured. */
  function Without(code: Code, s: State, steps: seq<Step>): seq<Step>
    requires Bounded(s)
    decreases |steps|
  {
    if steps == [] then []
    else (if Measuring(s, steps[0]) then [] else [steps[0]]) + Without(code, Next(code, s, steps[0]), steps[1..])
  }

  /** Some handler is installed while converting. */
  predicate Armed(s: State) {
    Converting(s) ==> !s.operation.NoOperation?
  }

  // ----- Step by step -----

  lemma PlainSnoc(messages: seq<Message>, m: Message)
    ensures PlainAll(messages + [m]) == PlainAll(messages) + [Plain(m)]
  {
  }

  lemma ThreadsStripped(s: State)
    requires Bounded(s)
    ensures Strip(FetchStep(s)) == FetchStep(Strip(s))
    ensures Strip(AcceptStep(s)) == AcceptStep(Strip(s))
  {
    assert s.mailbox != [] ==> PlainAll(s.mailbox[1..]) == PlainAll(s.mailbox)[1..];
    if s.held.Some? {
      PlainSnoc(s.log.delivered, s.held.value);
    }
  }

  lemma EnterStripped(s: State)
    requires Bounded(s)
    ensures Strip(EnterStep(s)) == EnterStep(Strip(s))
  {
  }

  lemma TimerStripped(s: State)
    requires Bounded(s)
    ensures Strip(StartTimerStep(s)) == Strip(s) && Strip(StopTimerStep(s)) == Strip(s)
  {
  }

  lemma ComputeStripped(code: Code, s: State)
    requires Bounded(s)
    ensures Strip(ComputeStep(code, s)) ==
              if s.runner.Entered? && !InAlgorithm(s.runner) then Strip(s) else ComputeStep(code, Strip(s))
  {
    if InAlgorithm(s.runner) {
      var r := s.runner;
      var outcome := code(r.entry, s.memory, s.input.mem[r.base..r.base + r.size]);
      assert ComputeStep(code, s).runner == Returned(r.msg, r.size, SourceOf(outcome, r.base), r.timing);
    }
  }

  lemma ScratchStripped(s: State, left: Leftover)
    requires Bounded(s)
    ensures Strip(ScratchStep(s, left)) ==
              if s.runner.Entered? && !InAlgorithm(s.runner) then Strip(s) else ScratchStep(Strip(s), left)
  {
  }

  lemma FaultStripped(s: State)
    requires Bounded(s)
    ensures Strip(TestStep(s)) ==
              if s.runner.Returned? && s.runner.timing then Strip(s) else TestStep(Strip(s))
    ensures Strip(FaultStep(s)) == if Measuring(s, RunnerFault) then Strip(s) else FaultStep(Strip(s))
  {
  }

  lemma BeginStripped(s: State)
    requires Bounded(s)
    ensures Strip(BeginCopyStep(s)) == BeginCopyStep(Strip(s))
  {
    if s.runner.Ready? {
      assert ForFirst(Plain(s.runner.msg).code) == ForFirst(s.runner.msg.code);
    }
  }

  lemma CopyStripped(s: State)
    requires Bounded(s)
    ensures Strip(CopyBlockStep(s)) == CopyBlockStep(Strip(s))
  {
    if s.runner.Copying? {
      assert Strip(s).runner == s.runner && Strip(s).output == s.output && Strip(s).input == s.input;
    }
  }

  lemma ErrorStripped(s: State, error: Error)
    requires Bounded(s)
    ensures Strip(s.(errors := Push(s.errors, error))) == Strip(s).(errors := Push(Strip(s).errors, error))
  {
  }

  lemma ResizedStripped(s: State, samples: nat)
    requires Bounded(s) && s.status == Idle && 2 * samples <= MAX_SAMPLE_BUFFER_SIZE
    ensures Strip(HostStep(s, SetBufferSize(samples)))
         == Strip(s).(input := s.input.(size := 2 * samples), output := s.output.(size := 2 * samples))
  {
  }

  lemma SizeStripped(s: State, samples: nat)
    requires Bounded(s)
    ensures Strip(HostStep(s, SetBufferSize(samples))) == HostStep(Strip(s), SetBufferSize(samples))
  {
    if s.status != Idle {
      ErrorStripped(s, NotIdle);
    } else if 2 * samples > MAX_SAMPLE_BUFFER_SIZE {
      ErrorStripped(s, BadParam);
    } else {
      ResizedStripped(s, samples);
    }
  }

  lemma LoadStripped(s: State, request: LoadRequest)
    requires Bounded(s)
    ensures Strip(HostStep(s, LoadAlgorithm(request))) == HostStep(Strip(s), LoadAlgorithm(request))
  {
    if s.status != Idle {
      ErrorStripped(s, NotIdle);
    } else if request.TooBig? {
      ErrorStripped(s, BadUserCodeSize);
    }
  }

  lemma SessionStripped(s: State, command: Command)
    requires Bounded(s) && Armed(s) && !s.halted
    requires command.MeasureConversion? || command.StartConversion? || command.StopConversion?
    ensures Strip(HostStep(s, command)) ==
              if command.MeasureConversion? && s.status == Running then Strip(s) else HostStep(Strip(s), command)
  {
  }

  lemma BuffersStripped(s: State, command: Command)
    requires Bounded(s)
    requires command.ReadConversionResults? || command.ReadConversionInput? || command.WriteAdcBuffer?
    ensures Strip(HostStep(s, command)) == HostStep(Strip(s), command)
  {
  }

  lemma HostStripped(s: State, command: Command)
    requires Bounded(s) && Armed(s) && !s.halted
    ensures Strip(HostStep(s, command)) ==
              if command.MeasureConversion? && s.status == Running then Strip(s) else HostStep(Strip(s), command)
  {
    match command
    case MeasureConversion => SessionStripped(s, command);
    case StartConversion => SessionStripped(s, command);
    case StopConversion => SessionStripped(s, command);
    case ReadConversionResults => BuffersStripped(s, command);
    case ReadConversionInput => BuffersStripped(s, command);
    case WriteAdcBuffer(_) => BuffersStripped(s, command);
    case SetBufferSize(samples) => SizeStripped(s, samples);
    case LoadAlgorithm(request) => LoadStripped(s, request);
    case _ =>
  }

  // ----- The interrupt -----

  lemma SampledStripped(s: State, sample: Sample)
    requires Bounded(s) && Converting(s)
    ensures Sampled(Strip(s), sample) == Strip(Sampled(s, sample))
  {
  }

  lemma PostStripped(s: State, code: nat)
    requires Bounded(s) && |s.log.halves| > 0
    ensures Strip(Post(s, code)) == Post(Strip(s), Plain(Message(code, 0)).code)
  {
    PlainSnoc(s.mailbox, Message(code, |s.log.halves| - 1));
  }

  lemma HandlerStripped(s: State, buffer: nat, onRunnerStack: bool)
    requires Bounded(s) && |s.log.halves| > 0
    ensures Strip(AdcReadHandler(s, buffer, onRunnerStack)) == AdcReadHandler(Strip(s), buffer, onRunnerStack)
  {
    if |s.mailbox| <= 1 {
      var noted := NoteInput(s, buffer == 0);
      assert Strip(noted) == NoteInput(Strip(s), buffer == 0);
      PostStripped(noted, if buffer == 0 then MSG_CONVFIRST else MSG_CONVSECOND);
    } else {
      assert Strip(Emptied(s)) == Emptied(Strip(s));
    }
  }

  /** With room in the mailbox the measuring handler does what the ordinary one does. */
  lemma MeasureHandlerStripped(s: State, buffer: nat, onRunnerStack: bool)
    requires Bounded(s) && |s.log.halves| > 0 && s.operation.MeasureHandler? && |s.mailbox| < MAILBOX_SIZE
    ensures Strip(AdcReadHandlerMeasure(s, buffer)) == AdcReadHandler(Strip(s), buffer, onRunnerStack)
  {
    var noted := NoteInput(s, buffer == 0);
    assert Strip(noted) == NoteInput(Strip(s), buffer == 0);
    PostStripped(noted, if buffer == 0 then MSG_CONVFIRST_MEASURE else MSG_CONVSECOND_MEASURE);
    var posted := Post(noted, if buffer == 0 then MSG_CONVFIRST_MEASURE else MSG_CONVSECOND_MEASURE);
    assert Strip(MeasureHandled(posted, true)) == Strip(posted);
  }

  lemma CallbackStripped(s: State, complete: bool, onRunnerStack: bool)
    requires Bounded(s) && Converting(s) && Armed(s)
    requires s.operation.MeasureHandler? ==> |s.mailbox| < MAILBOX_SIZE
    ensures Strip(ConversionCallback(s, complete, onRunnerStack))
         == ConversionCallback(Strip(s), complete, onRunnerStack)
  {
    var called := Called(s, complete);
    var buffer := if complete then s.adcBuffer.value + s.adcSize / 2 else s.adcBuffer.value;
    assert Strip(called) == Called(Strip(s), complete);
    if s.operation.ReadHandler? {
      HandlerStripped(called, buffer, onRunnerStack);
    } else {
      MeasureHandlerStripped(called, buffer, onRunnerStack);
    }
  }

  /** The one branch in which a measured event goes another way. */
  predicate Drops(s: State, step: Step) {
    step.Tick? && CompletesHalf(s) && s.operation.MeasureHandler? && |s.mailbox| >= MAILBOX_SIZE
  }

  lemma TickStripped(s: State, sample: Sample, onRunnerStack: bool)
    requires Bounded(s) && Armed(s) && !Drops(s, Tick(sample, onRunnerStack))
    ensures Strip(TickStep(s, sample, onRunnerStack)) == TickStep(Strip(s), sample, onRunnerStack)
  {
    if Converting(s) {
      SampledStripped(s, sample);
      if CompletesHalf(s) {
        CallbackStripped(Sampled(s, sample), s.pos + 1 == s.adcSize, onRunnerStack);
      }
    }
  }

  lemma ThreadStripped(code: Code, s: State, step: Step)
    requires Bounded(s) && !s.halted && !step.Tick? && !step.Host?
    ensures Strip(Next(code, s, step)) == if Measuring(s, step) then Strip(s) else Next(code, Strip(s), step)
  {
    match step
    case MonitorFetch => ThreadsStripped(s);
    case RunnerAccept => ThreadsStripped(s);
    case RunnerEnter => EnterStripped(s);
    case RunnerStartTimer => TimerStripped(s);
    case RunnerCompute => ComputeStripped(code, s);
    case RunnerStopTimer => TimerStripped(s);
    case RunnerTest => FaultStripped(s);
    case RunnerScratch(left) => ScratchStripped(s, left);
    case RunnerFault => FaultStripped(s);
    case RunnerBeginCopy => BeginStripped(s);
    case RunnerCopyBlock => CopyStripped(s);
  }

  /** Stripping commutes with every step, except one that drops a measured event. */
  lemma StepStripped(code: Code, s: State, step: Step)
    requires Bounded(s) && Armed(s) && !s.halted && !Drops(s, step)
    ensures Strip(Next(code, s, step)) == if Measuring(s, step) then Strip(s) else Next(code, Strip(s), step)
  {
    match step
    case Tick(sample, onRunnerStack) => TickStripped(s, sample, onRunnerStack);
    case Host(command) => HostStripped(s, command);
    case _ => ThreadStripped(code, s, step);
  }

  // ----- Whole runs -----

  /** What a step does to the count of dropped events. */
  lemma DropCounted(code: Code, s: State, step: Step)
    requires Bounded(s) && !s.halted
    ensures Next(code, s, step).log.dropped == s.log.dropped + if Drops(s, step) then 1 else 0
  {
    match step
    case Host(command) => HostDropsNothing(s, command);
    case _ =>
  }

  lemma HostDropsNothing(s: State, command: Command)
    requires Bounded(s)
    ensures HostStep(s, command).log.dropped == s.log.dropped
  {
  }

  lemma {:induction false} DroppedGrows(code: Code, s: State, steps: seq<Step>)
    requires Bounded(s)
    ensures s.log.dropped <= Run(code, s, steps).log.dropped
    decreases |steps|
  {
    if steps != [] {
      if !s.halted {
        DropCounted(code, s, steps[0]);
      }
      DroppedGrows(code, Next(code, s, steps[0]), steps[1..]);
    }
  }

  lemma StepKeepsArmed(code: Code, s: State, step: Step)
    requires Bounded(s) && Armed(s)
    ensures Armed(Next(code, s, step))
  {
  }

  /** A run that drops nothing, stripped, is the run without its measuring steps. */
  lemma {:induction false} RunStripped(code: Code, s: State, steps: seq<Step>)
    requires Bounded(s) && Armed(s) && Run(code, s, steps).log.dropped == s.log.dropped
    ensures Strip(Run(code, s, steps)) == Run(code, Strip(s), Without(code, s, steps))
    decreases |steps|
  {
    if steps != [] {
      var s1 := Next(code, s, steps[0]);
      var rest := Without(code, s1, steps[1..]);
      DroppedGrows(code, s1, steps[1..]);
      StepKeepsArmed(code, s, steps[0]);
      if !s.halted {
        DropCounted(code, s, steps[0]);
        StepStripped(code, s, steps[0]);
      }
      RunStripped(code, s1, steps[1..]);
      if !Measuring(s, steps[0]) {
        assert ([steps[0]] + rest)[1..] == rest;
      } else {
        assert [] + rest == rest;
      }
    }
  }

  /** What the device itself holds, measuring and all history left out. */
  function Device(s: State): State
    requires Bounded(s)
  {
    Strip(s).(log := Log([], 0, [], 0, 0, Tally(0, 0, 0, 0, 0, 0, [], []), [], [], []))
  }

  /** The run as it would have been without measurements. */
  function PlainRun(code: Code, s: State, steps: seq<Step>): (r: State)
    requires Bounded(s)
    ensures Bounded(r)
  {
    Run(code, Strip(s), Without(code, s, steps))
  }

  /** After these steps the device is as it would have been. */
  ghost predicate Unaffected(code: Code, s: State, steps: seq<Step>)
    requires Bounded(s)
  {
    Device(Run(code, s, steps)) == Device(PlainRun(code, s, steps))
  }

  /** What the condition is about: an event that finds the mailbox full aborts, unless it is measured;
      then it is lost silently. */
  lemma MeasuredSpares(s: State, sample: Sample, onRunnerStack: bool)
    requires Bounded(s) && Drops(s, Tick(sample, onRunnerStack))
    ensures var r, plain := TickStep(s, sample, onRunnerStack), TickStep(Strip(s), sample, onRunnerStack);
            && r.mailbox == s.mailbox && r.entry == s.entry && r.errors == s.errors
            && plain.mailbox == [] && plain.entry == 0 && plain.errors == Push(s.errors, ConversionAborted)
  {
    SampledStripped(s, sample);
  }

  /** One more step of a run, and of the run without measurements. */
  lemma {:induction false} WithoutSnoc(code: Code, s: State, steps: seq<Step>, step: Step)
    requires Bounded(s)
    ensures Without(code, s, steps + [step])
         == Without(code, s, steps) + if Measuring(Run(code, s, steps), step) then [] else [step]
    decreases |steps|
  {
    if steps == [] {
      assert [step][1..] == [];
      assert steps + [step] == [step];
    } else {
      assert (steps + [step])[1..] == steps[1..] + [step];
      WithoutSnoc(code, Next(code, s, steps[0]), steps[1..], step);
    }
  }

  /** The first event that is dropped, and the steps before it. */
  lemma {:induction false} FirstDrop(code: Code, s: State, steps: seq<Step>) returns (first: seq<Step>, step: Step)
    requires Bounded(s) && Run(code, s, steps).log.dropped != s.log.dropped
    ensures first + [step] <= steps
    ensures var r := Run(code, s, first); r.log.dropped == s.log.dropped && !r.halted && Drops(r, step)
    decreases |steps|
  {
    if !s.halted && Drops(s, steps[0]) {
      first, step := [], steps[0];
    } else {
      if !s.halted {
        DropCounted(code, s, steps[0]);
      }
      var inner;
      inner, step := FirstDrop(code, Next(code, s, steps[0]), steps[1..]);
      first := [steps[0]] + inner;
      assert first[1..] == inner;
      assert first + [step] == [steps[0]] + (inner + [step]);
    }
  }

  /** The step that drops leaves two messages where there would be none. */
  lemma DropStepShows(code: Code, s: State, step: Step)
    requires Bounded(s) && !s.halted && Drops(s, step)
    ensures Device(Next(code, s, step)) != Device(Next(code, Strip(s), step))
  {
    MeasuredSpares(s, step.sample, step.onRunnerStack);
    var r, plain := Next(code, s, step), Next(code, Strip(s), step);
    assert |Device(r).mailbox| == |r.mailbox| && |Device(plain).mailbox| == |plain.mailbox|;
  }

  /** Until the first drop nothing is affected. */
  lemma DropShows(code: Code, s: State, first: seq<Step>, step: Step)
    requires Bounded(s) && Armed(s)
    requires var r := Run(code, s, first); r.log.dropped == s.log.dropped && !r.halted && Drops(r, step)
    ensures !Unaffected(code, s, first + [step])
  {
    RunStripped(code, s, first);
    DropStepShows(code, Run(code, s, first), step);
    RunSnoc(code, s, first, step);
    WithoutSnoc(code, s, first, step);
    RunSnoc(code, Strip(s), Without(code, s, first), step);
  }

  /** A part of a run that drops nothing drops nothing. */
  lemma NoDropBefore(code: Code, s: State, first: seq<Step>, second: seq<Step>)
    requires Bounded(s) && Run(code, s, first + second).log.dropped == s.log.dropped
    ensures Run(code, s, first).log.dropped == s.log.dropped
  {
    RunConcat(code, s, first, second);
    DroppedGrows(code, s, first);
    DroppedGrows(code, Run(code, s, first), second);
  }

  lemma StripTwice(s: State)
    requires Bounded(s)
    ensures Strip(Strip(s)) == Strip(s)
  {
  }

  lemma SparedUnaffected(code: Code, s: State, first: seq<Step>, second: seq<Step>)
    requires Bounded(s) && Armed(s) && Run(code, s, first + second).log.dropped == s.log.dropped
    ensures Unaffected(code, s, first)
  {
    NoDropBefore(code, s, first, second);
    RunStripped(code, s, first);
    StripTwice(Run(code, s, first));
  }

  lemma DropAffects(code: Code, s: State, steps: seq<Step>) returns (first: seq<Step>)
    requires Bounded(s) && Armed(s) && Run(code, s, steps).log.dropped != s.log.dropped
    ensures first <= steps && !Unaffected(code, s, first)
  {
    var before, step := FirstDrop(code, s, steps);
    DropShows(code, s, before, step);
    first := before + [step];
  }

  /** Measuring leaves no trace but the stopwatch. Take any run, of interrupts, threads and commands in
      whatever order, and take away the accepted requests, the stopwatch steps and the waits for them. At
      every moment of the run the device holds what it would hold without measurements, buffers, mailbox,
      memory, entry point, errors and all, if and only if no measured event met a full mailbox; and then
      events, signals and the rest of the history are the same as well. */
  lemma MeasuringIff(code: Code, s: State, steps: seq<Step>)
    requires Bounded(s) && Armed(s)
    ensures (forall first: seq<Step> :: first <= steps ==> Unaffected(code, s, first))
            <==> Run(code, s, steps).log.dropped == s.log.dropped
    ensures Run(code, s, steps).log.dropped == s.log.dropped ==>
              Strip(Run(code, s, steps)) == PlainRun(code, s, steps)
  {
    if Run(code, s, steps).log.dropped == s.log.dropped {
      RunStripped(code, s, steps);
      forall first: seq<Step> | first <= steps ensures Unaffected(code, s, first) {
        assert first + steps[|first|..] == steps;
        SparedUnaffected(code, s, first, steps[|first|..]);
      }
    } else {
      var first := DropAffects(code, s, steps);
    }
  }

  // ----- The stopwatch -----

  function Last<T>(xs: seq<T>): T
    requires xs != []
  {
    xs[|xs| - 1]
  }

  ghost predicate Increasing(events: seq<nat>) {
    forall i, j :: 0 <= i < j < |events| ==> events[i] < events[j]
  }

  /** The message the runner is working on, up to the copy. */
  function Current(r: Runner): Option<Message> {
    match r
    case Accepted(msg) => Some(msg)
    case Entered(msg, _, _, _, _) => Some(msg)
    case Returned(msg, _, _, _) => Some(msg)
    case Ready(msg, _, _) => Some(msg)
    case _ => None
  }

  /** Is the stopwatch running for the runner's message? */
  predicate Timing(r: Runner) {
    (r.Entered? || r.Returned?) && r.timing
  }

  /** The stopwatch is yet to be started for the runner's message. */
  predicate Untimed(r: Runner) {
    r.Accepted? || (r.Entered? && !r.timing)
  }

  /** The algorithm has returned for a measured message that was not timed. */
  predicate Missed(r: Runner, timed: seq<nat>) {
    r.Returned? && ForMeasure(r.msg.code) && !r.timing && r.msg.event !in timed
  }

  ghost predicate ForMeasured(events: seq<nat>, delivered: seq<Message>) {
    forall e :: e in events ==> exists m :: m in delivered && ForMeasure(m.code) && m.event == e
  }

  ghost predicate StartsBefore(started: seq<nat>, n: nat) {
    forall e :: e in started ==> e < n
  }

  /** What the stopwatch shows, given the events it was started and stopped for. */
  ghost predicate Shows(watch: Stopwatch, t: Tally) {
    match watch
    case Unused => t.started == []
    case Started(event) => t.started != [] && Last(t.started) == event && event !in t.timed
    case Elapsed(from, until) =>
      && from == until && t.started != [] && t.timed != []
      && Last(t.started) == Last(t.timed) == from
    case Garbage => false
  }

  ghost predicate WatchInvariant(s: State) {
    var t := s.log.tally;
    && Shows(s.watch, t)
    && Increasing(t.started) && Increasing(t.timed)
    && (forall e :: e in t.timed ==> e in t.started)
    && ForMeasured(t.started, s.log.delivered)
    && (Current(s.runner).Some? ==> s.log.delivered != [] && Last(s.log.delivered) == Current(s.runner).value)
    && (Timing(s.runner) ==> s.watch == Started(s.runner.msg.event))
    && (Untimed(s.runner) ==> StartsBefore(t.started, Current(s.runner).value.event))
    && !Missed(s.runner, t.timed)
  }

  /** Steps that leave the stopwatch and the messages accepted alone, and the runner where it is or
      farther on. */
  ghost predicate WatchLeft(s: State, r: State) {
    && r.watch == s.watch && r.log.tally.started == s.log.tally.started && r.log.tally.timed == s.log.tally.timed
    && r.log.delivered == s.log.delivered
    && (r.runner == s.runner || Current(r.runner).None?
        || (Current(r.runner) == Current(s.runner) && Timing(r.runner) == Timing(s.runner)
            && (Untimed(r.runner) ==> Untimed(s.runner))
            && (Missed(r.runner, s.log.tally.timed) ==> Missed(s.runner, s.log.tally.timed))))
  }

  lemma LeftKeepsWatch(s: State, r: State)
    requires WatchInvariant(s) && WatchLeft(s, r)
    ensures WatchInvariant(r)
  {
  }

  lemma HandlerLeavesWatch(s: State, buffer: nat, onRunnerStack: bool)
    requires Bounded(s) && |s.log.halves| > 0
    ensures WatchLeft(s, AdcReadHandler(s, buffer, onRunnerStack)) && WatchLeft(s, AdcReadHandlerMeasure(s, buffer))
  {
  }

  lemma CallbackLeavesWatch(s: State, complete: bool, onRunnerStack: bool)
    requires Bounded(s) && Converting(s)
    ensures WatchLeft(s, ConversionCallback(s, complete, onRunnerStack))
  {
    var called := Called(s, complete);
    HandlerLeavesWatch(called, if complete then s.adcBuffer.value + s.adcSize / 2 else s.adcBuffer.value,
                       onRunnerStack);
  }

  lemma TickLeavesWatch(s: State, sample: Sample, onRunnerStack: bool)
    requires Bounded(s)
    ensures WatchLeft(s, TickStep(s, sample, onRunnerStack))
  {
    if CompletesHalf(s) {
      CallbackLeavesWatch(Sampled(s, sample), s.pos + 1 == s.adcSize, onRunnerStack);
    }
  }

  lemma HostLeavesWatch(s: State, command: Command)
    requires Bounded(s)
    ensures WatchLeft(s, HostStep(s, command))
  {
  }

  lemma ThreadLeavesWatch(code: Code, s: State, step: Step)
    requires Bounded(s) && !step.Tick? && !step.Host?
    requires !step.RunnerAccept? && !step.RunnerStartTimer? && !step.RunnerStopTimer?
    ensures WatchLeft(s, Next(code, s, step))
  {
  }

  lemma AcceptKeepsWatch(s: State)
    requires Bounded(s) && FlowInvariant(s) && WatchInvariant(s)
    ensures WatchInvariant(AcceptStep(s))
  {
    if s.runner.Waiting? && s.held.Some? {
      var m, delivered := s.held.value, s.log.delivered;
      assert AcceptStep(s).log.delivered == delivered + [m];
      forall d | d in delivered ensures d.event < m.event {
        var i :| 0 <= i < |delivered| && delivered[i] == d;
        assert Pending(s)[i] == d && Pending(s)[|delivered|] == m;
      }
      assert ForMeasured(s.log.tally.started, delivered + [m]) && StartsBefore(s.log.tally.started, m.event);
    }
  }

  lemma IncreasingSnoc(events: seq<nat>, e: nat)
    requires Increasing(events) && StartsBefore(events, e)
    ensures Increasing(events + [e])
  {
    forall i | 0 <= i < |events| ensures events[i] < e {
      assert events[i] in events;
    }
  }

  lemma StartKeepsWatch(s: State)
    requires Bounded(s) && WatchInvariant(s)
    ensures WatchInvariant(StartTimerStep(s))
  {
    if Untimed(s.runner) && s.runner.Entered? && ForMeasure(s.runner.msg.code) {
      var e, started := s.runner.msg.event, s.log.tally.started;
      assert StartTimerStep(s).log.tally.started == started + [e];
      assert s.runner.msg in s.log.delivered;
      IncreasingSnoc(started, e);
    }
  }

  lemma StopKeepsWatch(s: State)
    requires Bounded(s) && WatchInvariant(s)
    ensures WatchInvariant(StopTimerStep(s))
  {
    if s.runner.Returned? && s.runner.timing {
      var e, started, timed := s.runner.msg.event, s.log.tally.started, s.log.tally.timed;
      assert StopTimerStep(s).log.tally.timed == timed + [e];
      forall t | t in timed ensures t < e {
        var i :| 0 <= i < |started| && started[i] == t;
      }
      IncreasingSnoc(timed, e);
    }
  }

  lemma StepKeepsWatch(code: Code, s: State, step: Step)
    requires Bounded(s) && FlowInvariant(s) && WatchInvariant(s)
    ensures WatchInvariant(Next(code, s, step))
  {
    if !s.halted {
      match step
      case RunnerAccept => AcceptKeepsWatch(s);
      case RunnerStartTimer => StartKeepsWatch(s);
      case RunnerStopTimer => StopKeepsWatch(s);
      case Tick(sample, onRunnerStack) =>
        TickLeavesWatch(s, sample, onRunnerStack);
        LeftKeepsWatch(s, Next(code, s, step));
      case Host(command) =>
        HostLeavesWatch(s, command);
        LeftKeepsWatch(s, Next(code, s, step));
      case _ =>
        ThreadLeavesWatch(code, s, step);
        LeftKeepsWatch(s, Next(code, s, step));
    }
  }

  lemma {:induction false} RunKeepsWatch(code: Code, s: State, steps: seq<Step>)
    requires Bounded(s) && FlowInvariant(s) && WatchInvariant(s)
    ensures WatchInvariant(Run(code, s, steps))
    decreases |steps|
  {
    if steps != [] {
      StepKeepsFlow(code, s, steps[0]);
      StepKeepsWatch(code, s, steps[0]);
      RunKeepsWatch(code, Next(code, s, steps[0]), steps[1..]);
    }
  }

  /** What the stopwatch tells, in every reachable state. It is started for measured messages only, at
      most once each and in order. What it shows is the time of one block, the one it was started for
      last, if and only if that block ran to its end; when the algorithm faulted or was aborted in it,
      the start time stays on show until the next measured block. And while the algorithm is at work on a
      measured block the stopwatch runs for that block, so none that comes to its end goes untimed. */
  lemma StopwatchShows(code: Code, s: State)
    requires Reachable(code, s)
    ensures var t := s.log.tally;
            && Increasing(t.started) && ForMeasured(t.started, s.log.delivered)
            && (s.watch.Unused? <==> t.started == [])
            && (s.watch.Elapsed? <==> t.started != [] && Last(t.started) in t.timed)
            && (s.watch.Elapsed? ==> s.watch.from == s.watch.until == Last(t.started))
            && (s.watch.Started? ==> s.watch.event == Last(t.started))
            && !s.watch.Garbage?
            && (InAlgorithm(s.runner) && ForMeasure(s.runner.msg.code) ==> s.watch == Started(s.runner.msg.event))
            && (s.runner.Returned? && ForMeasure(s.runner.msg.code) && !s.runner.timing ==>
                  s.runner.msg.event in t.timed)
  {
    var inMem: seq<Sample>, outMem: seq<Sample>, memory: seq<Byte>, steps: seq<Step> :|
      && |inMem| == |outMem| == MAX_SAMPLE_BUFFER_SIZE
      && s == Run(code, Boot(inMem, outMem, memory), steps);
    RunKeepsWatch(code, Boot(inMem, outMem, memory), steps);
  }
}
