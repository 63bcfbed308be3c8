/** What a session goes on to play from any moment at which nothing is under way, whatever went wrong
    before. */
module PipelineRecovery {
  import opened Basics
  import opened SampleBuffers
  import opened HalfBuffers
  import opened Pipeline
  import opened PipelineFlow
  import opened PipelineStream
  import opened PipelinePass

  // ----- Histories do not matter -----

  /** The same state with more history in front. */
  function Prefixed(s: State, captured: seq<Sample>, played: seq<Sample>, entries: seq<nat>): (r: State)
    ensures Bounded(s) <==> Bounded(r)
  {
    s.(log := s.log.(captured := captured + s.log.captured, played := played + s.log.played,
                     entries := entries + s.log.entries))
  }

  lemma SampledPrefixed(s: State, c: seq<Sample>, p: seq<Sample>, e: seq<nat>, sample: Sample)
    requires Bounded(s) && Converting(s)
    ensures Sampled(Prefixed(s, c, p, e), sample) == Prefixed(Sampled(s, sample), c, p, e)
  {
    assert (c + s.log.captured) + [sample] == c + (s.log.captured + [sample]);
    assert (p + s.log.played) + [s.output.mem[s.dacPos]] == p + (s.log.played + [s.output.mem[s.dacPos]]);
  }

  lemma HandlerPrefixed(s: State, c: seq<Sample>, p: seq<Sample>, e: seq<nat>, buffer: nat, onRunnerStack: bool)
    requires Bounded(s) && |s.log.halves| > 0
    ensures AdcReadHandler(Prefixed(s, c, p, e), buffer, onRunnerStack)
         == Prefixed(AdcReadHandler(s, buffer, onRunnerStack), c, p, e)
  {
  }

  lemma MeasurePrefixed(s: State, c: seq<Sample>, p: seq<Sample>, e: seq<nat>, buffer: nat)
    requires Bounded(s) && |s.log.halves| > 0
    ensures AdcReadHandlerMeasure(Prefixed(s, c, p, e), buffer) == Prefixed(AdcReadHandlerMeasure(s, buffer), c, p, e)
  {
  }

  lemma CallbackPrefixed(s: State, c: seq<Sample>, p: seq<Sample>, e: seq<nat>, complete: bool, onRunnerStack: bool)
    requires Bounded(s) && Converting(s)
    ensures ConversionCallback(Prefixed(s, c, p, e), complete, onRunnerStack)
         == Prefixed(ConversionCallback(s, complete, onRunnerStack), c, p, e)
  {
    var buffer := if complete then s.adcBuffer.value + s.adcSize / 2 else s.adcBuffer.value;
    assert Called(Prefixed(s, c, p, e), complete) == Prefixed(Called(s, complete), c, p, e);
    HandlerPrefixed(Called(s, complete), c, p, e, buffer, onRunnerStack);
    MeasurePrefixed(Called(s, complete), c, p, e, buffer);
  }

  lemma TickPrefixed(s: State, c: seq<Sample>, p: seq<Sample>, e: seq<nat>, sample: Sample, onRunnerStack: bool)
    requires Bounded(s)
    ensures TickStep(Prefixed(s, c, p, e), sample, onRunnerStack)
         == Prefixed(TickStep(s, sample, onRunnerStack), c, p, e)
  {
    if Converting(s) {
      SampledPrefixed(s, c, p, e, sample);
      if CompletesHalf(s) {
        CallbackPrefixed(Sampled(s, sample), c, p, e, s.pos + 1 == s.adcSize, onRunnerStack);
      }
    }
  }

  lemma EnterPrefixed(s: State, c: seq<Sample>, p: seq<Sample>, e: seq<nat>)
    requires Bounded(s)
    ensures EnterStep(Prefixed(s, c, p, e)) == Prefixed(EnterStep(s), c, p, e)
  {
    assert (e + s.log.entries) + [s.entry] == e + (s.log.entries + [s.entry]);
  }

  lemma HandOverPrefixed(s: State, c: seq<Sample>, p: seq<Sample>, e: seq<nat>)
    requires Bounded(s)
    ensures FetchStep(Prefixed(s, c, p, e)) == Prefixed(FetchStep(s), c, p, e)
    ensures AcceptStep(Prefixed(s, c, p, e)) == Prefixed(AcceptStep(s), c, p, e)
  {
  }

  lemma AlgorithmPrefixed(code: Code, s: State, c: seq<Sample>, p: seq<Sample>, e: seq<nat>, left: Leftover)
    requires Bounded(s)
    ensures ComputeStep(code, Prefixed(s, c, p, e)) == Prefixed(ComputeStep(code, s), c, p, e)
    ensures ScratchStep(Prefixed(s, c, p, e), left) == Prefixed(ScratchStep(s, left), c, p, e)
    ensures FaultStep(Prefixed(s, c, p, e)) == Prefixed(FaultStep(s), c, p, e)
  {
  }

  lemma TimerPrefixed(s: State, c: seq<Sample>, p: seq<Sample>, e: seq<nat>)
    requires Bounded(s)
    ensures StartTimerStep(Prefixed(s, c, p, e)) == Prefixed(StartTimerStep(s), c, p, e)
    ensures StopTimerStep(Prefixed(s, c, p, e)) == Prefixed(StopTimerStep(s), c, p, e)
    ensures TestStep(Prefixed(s, c, p, e)) == Prefixed(TestStep(s), c, p, e)
  {
  }

  lemma CopyPrefixed(s: State, c: seq<Sample>, p: seq<Sample>, e: seq<nat>)
    requires Bounded(s)
    ensures BeginCopyStep(Prefixed(s, c, p, e)) == Prefixed(BeginCopyStep(s), c, p, e)
    ensures CopyBlockStep(Prefixed(s, c, p, e)) == Prefixed(CopyBlockStep(s), c, p, e)
  {
  }

  lemma SizePrefixed(s: State, c: seq<Sample>, p: seq<Sample>, e: seq<nat>, command: Command)
    requires Bounded(s) && (command.SetBufferSize? || command.WriteAdcBuffer?)
    ensures HostStep(Prefixed(s, c, p, e), command) == Prefixed(HostStep(s, command), c, p, e)
  {
  }

  lemma LoadPrefixed(s: State, c: seq<Sample>, p: seq<Sample>, e: seq<nat>, command: Command)
    requires Bounded(s) && (command.LoadAlgorithm? || command.UnloadAlgorithm?)
    ensures HostStep(Prefixed(s, c, p, e), command) == Prefixed(HostStep(s, command), c, p, e)
  {
  }

  lemma OthersPrefixed(s: State, c: seq<Sample>, p: seq<Sample>, e: seq<nat>, command: Command)
    requires Bounded(s) && (command.StartConversion? ==> s.status == Running)
    requires command.MeasureConversion? || command.StartConversion? || command.StopConversion? || command.ReadStatus?
             || command.ReadConversionResults? || command.ReadConversionInput?
    ensures HostStep(Prefixed(s, c, p, e), command) == Prefixed(HostStep(s, command), c, p, e)
  {
  }

  lemma HostPrefixed(s: State, c: seq<Sample>, p: seq<Sample>, e: seq<nat>, command: Command)
    requires Bounded(s) && (command.StartConversion? ==> s.status == Running)
    ensures HostStep(Prefixed(s, c, p, e), command) == Prefixed(HostStep(s, command), c, p, e)
  {
    match command
    case SetBufferSize(_) => SizePrefixed(s, c, p, e, command);
    case LoadAlgorithm(_) => LoadPrefixed(s, c, p, e, command);
    case UnloadAlgorithm => LoadPrefixed(s, c, p, e, command);
    case WriteAdcBuffer(_) => SizePrefixed(s, c, p, e, command);
    case _ => OthersPrefixed(s, c, p, e, command);
  }

  lemma ThreadPrefixed(code: Code, s: State, c: seq<Sample>, p: seq<Sample>, e: seq<nat>, step: Step)
    requires Bounded(s) && !step.Tick? && !step.Host?
    ensures Next(code, Prefixed(s, c, p, e), step) == Prefixed(Next(code, s, step), c, p, e)
  {
    match step
    case MonitorFetch => HandOverPrefixed(s, c, p, e);
    case RunnerAccept => HandOverPrefixed(s, c, p, e);
    case RunnerEnter => EnterPrefixed(s, c, p, e);
    case RunnerStartTimer => TimerPrefixed(s, c, p, e);
    case RunnerCompute => AlgorithmPrefixed(code, s, c, p, e, Leftover([], []));
    case RunnerStopTimer => TimerPrefixed(s, c, p, e);
    case RunnerTest => TimerPrefixed(s, c, p, e);
    case RunnerScratch(left) => AlgorithmPrefixed(code, s, c, p, e, left);
    case RunnerFault => AlgorithmPrefixed(code, s, c, p, e, Leftover([], []));
    case RunnerBeginCopy => CopyPrefixed(s, c, p, e);
    case RunnerCopyBlock => CopyPrefixed(s, c, p, e);
  }

  lemma StepPrefixed(code: Code, s: State, c: seq<Sample>, p: seq<Sample>, e: seq<nat>, step: Step)
    requires Bounded(s) && (step == Host(StartConversion) ==> s.status == Running)
    ensures Next(code, Prefixed(s, c, p, e), step) == Prefixed(Next(code, s, step), c, p, e)
  {
    match step
    case Tick(sample, onRunnerStack) => TickPrefixed(s, c, p, e, sample, onRunnerStack);
    case Host(command) => HostPrefixed(s, c, p, e, command);
    case _ => ThreadPrefixed(code, s, c, p, e, step);
  }

  lemma StaysRunning(code: Code, s: State, step: Step)
    requires Bounded(s) && s.status == Running && step != Host(StopConversion)
    ensures Next(code, s, step).status == Running
  {
  }

  /** Until it is stopped a session goes on in the same way whatever history it has. */
  lemma {:induction false} RunPrefixed(code: Code, s: State, c: seq<Sample>, p: seq<Sample>, e: seq<nat>,
                                       steps: seq<Step>)
    requires Bounded(s) && s.status == Running && Timely(code, s, steps)
    ensures Run(code, Prefixed(s, c, p, e), steps) == Prefixed(Run(code, s, steps), c, p, e)
    ensures Timely(code, Prefixed(s, c, p, e), steps)
    decreases |steps|
  {
    if steps != [] {
      StepPrefixed(code, s, c, p, e, steps[0]);
      StaysRunning(code, s, steps[0]);
      RunPrefixed(code, Next(code, s, steps[0]), c, p, e, steps[1..]);
    }
  }

  // ----- Whatever went before -----

  /** Where the half that is captured and played now starts. */
  function CurrentHalf(s: State): nat {
    if s.pos < s.input.size / 2 then 0 else s.input.size / 2
  }

  /** The samples of that half captured so far, as they are in the input buffer. */
  function CapturedPart(s: State): seq<Sample>
    requires Bounded(s) && CurrentHalf(s) <= s.pos <= MAX_SAMPLE_BUFFER_SIZE
  {
    s.input.mem[CurrentHalf(s)..s.pos]
  }

  /** What the two halves of the output hold: the current one first. */
  function OriginOf(s: State): Origin
    requires Bounded(s)
  {
    var h, c := s.input.size / 2, CurrentHalf(s);
    Origin(s.output.mem[c..c + h], s.output.mem[h - c..h - c + h], s.memory)
  }

  /** `s` with histories that reach back to the start of the current half. */
  function Opening(s: State): (r: State)
    requires Bounded(s) && CurrentHalf(s) <= s.pos <= MAX_SAMPLE_BUFFER_SIZE
    ensures Bounded(r)
  {
    s.(log := s.log.(captured := CapturedPart(s), played := s.output.mem[CurrentHalf(s)..s.pos], entries := []))
  }

  /** The decomposition that begins there. */
  function FirstTrace(s: State): Trace
    requires Bounded(s) && CurrentHalf(s) <= s.pos <= MAX_SAMPLE_BUFFER_SIZE
  {
    var o := OriginOf(s);
    Trace([], CapturedPart(s), [o.first, o.second], s.memory, CurrentHalf(s))
  }

  lemma OpeningMoves(h: nat, s: State)
    requires Bounded(s) && Steady(s, h) && 0 < h
    ensures FirstTrace(s) in Motions(h, Opening(s))
  {
    var t := FirstTrace(s);
    BeginPlay(h, t.current, s.output.mem, t.slots, s.pos - t.current);
  }

  lemma OpeningWorks(code: Code, h: nat, s: State)
    requires Bounded(s) && Steady(s, h) && Quiescent(s) && 0 < h
    ensures var t := FirstTrace(s);
            t in Workings(code, h - t.current, Half(s.input.mem, h, h - t.current), Opening(s))
  {
  }

  /** With nothing under way a session streams from where it is. */
  lemma OpeningStreams(code: Code, h: nat, s: State)
    requires Bounded(s) && Steady(s, h) && Quiescent(s) && 0 < h && h % 16 == 0
    ensures FirstTrace(s) in Traces(code, h, OriginOf(s), Opening(s))
  {
    OpeningMoves(h, s);
    OpeningWorks(code, h, s);
  }

  /** The part of a history that is new in `later`. */
  function News<T>(history: seq<T>, later: seq<T>): seq<T> {
    if |history| <= |later| then later[|history|..] else later
  }

  /** What goes on from `s` to `r`, counted from the start of the half current in `s`: the halves of the
      output as they were, then the signal captured, part of a block found in the input buffer included,
      processed block by block with the memory as it was, as far as time has come. */
  ghost predicate GoesOn(code: Code, s: State, r: State)
    requires Bounded(s) && 2 <= s.input.size && CurrentHalf(s) <= s.pos <= MAX_SAMPLE_BUFFER_SIZE
  {
    var h, o := s.input.size / 2, OriginOf(s);
    var captured := CapturedPart(s) + News(s.log.captured, r.log.captured);
    var played := s.output.mem[CurrentHalf(s)..s.pos] + News(s.log.played, r.log.played);
    var entries, blocks := News(s.log.entries, r.log.entries), Blocks(h, captured);
    && s.log.captured <= r.log.captured && s.log.played <= r.log.played && s.log.entries <= r.log.entries
    && |entries| <= |blocks|
    && played <= o.first + o.second + Flatten(Processed(code, o.memory, entries, blocks))
    && |played| == |captured|
  }

  /** Timeliness does not depend on history either. */
  lemma {:induction false} BareTimely(code: Code, s: State, c: seq<Sample>, p: seq<Sample>, e: seq<nat>,
                                      steps: seq<Step>)
    requires Bounded(s) && s.status == Running && Timely(code, Prefixed(s, c, p, e), steps)
    ensures Timely(code, s, steps)
    decreases |steps|
  {
    if steps != [] {
      StepPrefixed(code, s, c, p, e, steps[0]);
      StaysRunning(code, s, steps[0]);
      BareTimely(code, Next(code, s, steps[0]), c, p, e, steps[1..]);
    }
  }

  /** The histories of a run, taken apart. */
  lemma NewsOfRun(code: Code, s: State, steps: seq<Step>)
    requires Bounded(s) && s.status == Running && Timely(code, s, steps)
    requires CurrentHalf(s) <= s.pos <= MAX_SAMPLE_BUFFER_SIZE
    ensures Timely(code, Opening(s), steps)
    ensures var r, q := Run(code, s, steps), Run(code, Opening(s), steps);
            && s.log.captured <= r.log.captured && s.log.played <= r.log.played && s.log.entries <= r.log.entries
            && q.log.captured == CapturedPart(s) + News(s.log.captured, r.log.captured)
            && q.log.played == s.output.mem[CurrentHalf(s)..s.pos] + News(s.log.played, r.log.played)
            && q.log.entries == News(s.log.entries, r.log.entries)
  {
    var bare := s.(log := s.log.(captured := [], played := [], entries := []));
    assert Prefixed(bare, s.log.captured, s.log.played, s.log.entries) == s;
    assert Prefixed(bare, CapturedPart(s), s.output.mem[CurrentHalf(s)..s.pos], []) == Opening(s);
    BareTimely(code, bare, s.log.captured, s.log.played, s.log.entries, steps);
    RunPrefixed(code, bare, s.log.captured, s.log.played, s.log.entries, steps);
    RunPrefixed(code, bare, CapturedPart(s), s.output.mem[CurrentHalf(s)..s.pos], [], steps);
  }

  /** Recovery. In any state reached while converting, after whatever overruns, dropped events, faults
      and aborts, as soon as nothing is under way: while the session goes on in time, the device plays
      the rest of the current half of the output, then the other half, and from then on exactly the
      processed blocks, the first of which is the one being captured now. */
  lemma RecoveryTheorem(code: Code, s: State, steps: seq<Step>)
    requires Reachable(code, s) && Bounded(s) && Converting(s) && Quiescent(s) && (s.input.size / 2) % 16 == 0
    requires Timely(code, s, steps)
    ensures 2 <= s.input.size && CurrentHalf(s) <= s.pos <= MAX_SAMPLE_BUFFER_SIZE
    ensures GoesOn(code, s, Run(code, s, steps))
  {
    ReachableInvariants(code, s);
    var h := s.input.size / 2;
    assert Steady(s, h);
    OpeningStreams(code, h, s);
    NewsOfRun(code, s, steps);
    var t' := RunStreams(code, h, OriginOf(s), Opening(s), FirstTrace(s), steps);
    TraceStreams(code, h, OriginOf(s), Run(code, Opening(s), steps), t');
  }

  // ----- An overrun that interrupts the runner -----

  lemma ReachableRun(code: Code, s: State, more: seq<Step>)
    requires Bounded(s) && Reachable(code, s)
    ensures Reachable(code, Run(code, s, more))
  {
    var inMem: seq<Sample>, outMem: seq<Sample>, memory: seq<Byte>, steps: seq<Step> :|
      && |inMem| == |outMem| == MAX_SAMPLE_BUFFER_SIZE
      && s == Run(code, Boot(inMem, outMem, memory), steps);
    RunConcat(code, Boot(inMem, outMem, memory), steps, more);
  }

  lemma ReachableTick(code: Code, s: State, sample: Sample, onRunnerStack: bool)
    requires Bounded(s) && Reachable(code, s) && !s.halted
    ensures Reachable(code, TickStep(s, sample, onRunnerStack))
  {
    var step := Tick(sample, onRunnerStack);
    ReachableRun(code, s, [step]);
    assert [step][1..] == [];
    assert Run(code, s, [step]) == Next(code, s, step);
  }

  /** The event that finds the mailbox full while the runner is at work. */
  predicate Overruns(s: State) {
    CompletesHalf(s) && s.operation.ReadHandler? && |s.mailbox| == MAILBOX_SIZE
  }

  lemma TickLeavesHeld(s: State, sample: Sample, onRunnerStack: bool)
    requires Bounded(s)
    ensures TickStep(s, sample, onRunnerStack).held == s.held
  {
  }

  /** What the abort leaves: nothing queued, no algorithm, and a runner that waits. */
  lemma OverrunLeaves(s: State, sample: Sample)
    requires Bounded(s) && FlowInvariant(s) && Frozen(s) && Overruns(s)
    ensures var r := TickStep(s, sample, true);
            && Converting(r) && r.mailbox == [] && r.runner.Waiting? && r.entry == 0 && r.held == s.held
            && r.input.size == s.input.size
  {
    InterruptEffect(s, sample, true);
    TickLeavesHeld(s, sample, true);
    TickTicked(s, sample, true);
  }

  /** The message the monitor held meanwhile takes one pass. */
  function Settled(code: Code, s: State): (r: State)
    requires Bounded(s)
    ensures Bounded(r)
  {
    if s.held.None? then s else Pass(code, s, None)
  }

  lemma SettledIsQuiet(code: Code, s: State)
    requires Bounded(s) && Reachable(code, s) && Converting(s) && s.mailbox == [] && s.runner.Waiting?
    ensures var r := Settled(code, s);
            && Reachable(code, r) && Converting(r) && Quiescent(r) && r.input.size == s.input.size
  {
    if s.held.Some? {
      PassIsRun(code, s, None);
      ReachableRun(code, s, PassSteps(None));
      PassProcesses(code, s);
      PassLeavesQueue(code, s);
    }
  }

  /** An overrun that interrupts the runner takes it out of the algorithm, whatever that does and for however
      long. Once the message that the monitor may have held is dealt with, nothing is under way; and while the
      session goes on in time from there, what the device plays is exact again. */
  lemma OverrunRecovers(code: Code, s: State, sample: Sample, steps: seq<Step>)
    requires Bounded(s) && Reachable(code, s) && Overruns(s) && (s.input.size / 2) % 16 == 0
    requires Timely(code, Settled(code, TickStep(s, sample, true)), steps)
    ensures var r := Settled(code, TickStep(s, sample, true));
            && Converting(r) && Quiescent(r) && 2 <= r.input.size && CurrentHalf(r) <= r.pos <= MAX_SAMPLE_BUFFER_SIZE
            && GoesOn(code, r, Run(code, r, steps))
  {
    ReachableInvariants(code, s);
    OverrunLeaves(s, sample);
    ReachableTick(code, s, sample, true);
    SettledIsQuiet(code, TickStep(s, sample, true));
    RecoveryTheorem(code, Settled(code, TickStep(s, sample, true)), steps);
  }
}
