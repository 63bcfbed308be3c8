/** The conversion pipeline (source/conversion.cpp, source/periph/adc.cpp, source/handlers.cpp and
    the run-status guards of source/communication.cpp) as a step system. Every step is one atomic
    action of the timer, the ADC interrupt, one of the two conversion threads, or one host command;
    a run is any sequence of steps, so the actors interleave freely. A step whose actor is blocked
    changes nothing. */
module Pipeline {
  import opened Basics
  import opened Errors
  import opened SampleBuffers
  import opened Mailboxes

  // ----- Messages -----

  /** A mailbox message. `event` numbers the ADC event the message was posted for; the firmware does
      not store it. */
  datatype Message = Message(code: nat, event: nat)

  const MSG_CONVFIRST := 1
  const MSG_CONVSECOND := 2
  const MSG_CONVFIRST_MEASURE := 3
  const MSG_CONVSECOND_MEASURE := 4

  const MAILBOX_SIZE := 2

  /** `msg & 1`. */
  predicate ForFirst(code: nat) {
    code % 2 == 1
  }

  /** `msg > 2`. */
  predicate ForMeasure(code: nat) {
    code > 2
  }

  // ----- State -----

  datatype RunStatus = Idle | Running

  /** `ADC::m_operation`. */
  datatype Operation = NoOperation | ReadHandler | MeasureHandler

  /** Where the pointer an algorithm returns leads: to the block it was given, or to samples elsewhere. */
  datatype Result = InPlace | At(samples: seq<Sample>)

  /** What the loaded machine code does when entered at an address, with the memory it was loaded into
      and a block of samples: what it returns, and the block and the memory as it leaves them. Static
      variables of an algorithm are part of that memory. */
  datatype Outcome = Outcome(result: Result, block: seq<Sample>, memory: seq<Byte>)

  /** The pointer returned leads to enough samples to copy. */
  predicate Returns(o: Outcome, memory: seq<Byte>, block: seq<Sample>) {
    && |o.block| == |block| && |o.memory| == |memory|
    && (o.result.At? ==> CopyCount(|block|) <= |o.result.samples|)
  }

  /** Loaded code that returns. */
  type Code = f: (nat, seq<Byte>, seq<Sample>) -> Outcome
    | forall entry: nat, memory: seq<Byte>, block: seq<Sample> :: Returns(f(entry, memory, block), memory, block)
    witness (entry: nat, memory: seq<Byte>, block: seq<Sample>) => Outcome(InPlace, block, memory)

  /** What an algorithm that does not come to its end has done to its memory and its block by now. */
  datatype Leftover = Leftover(memory: seq<Byte>, block: seq<Sample>)

  /** `conversion_time_measurement.last`. Starting stores the time of the start in it and stopping
      replaces that by the time elapsed; `Garbage` is what stopping makes of anything else. The model
      keeps which events the start and the stop belong to. */
  datatype Stopwatch = Unused | Started(event: nat) | Elapsed(from: nat, until: nat) | Garbage

  /** Where a copy reads: the input buffer itself, or the samples the algorithm returned. */
  datatype Source = Live(base: nat) | Fixed(samples: seq<Sample>)

  /** How far the runner thread is with its current message. */
  datatype Runner =
    | Waiting
    | Accepted(msg: Message)
    | Entered(msg: Message, base: nat, size: nat, entry: nat, timing: bool)
    | Returned(msg: Message, size: nat, source: Source, timing: bool)
    | Ready(msg: Message, size: nat, source: Source)
    | Copying(source: Source, dest: nat, count: nat, done: nat)

  /** Requests, notes and measurements so far. */
  datatype Tally = Tally(
    measuresAccepted: nat,
    measuresPosted: nat,
    outNotified: nat,          // times the output buffer noted a half
    outTaken: nat,             // times the host was handed a noted output half
    inNotified: nat,           // likewise for the input buffer
    inTaken: nat,
    started: seq<nat>,         // events for whose blocks the stopwatch was started
    timed: seq<nat>)           // events for whose blocks it was stopped

  /** History kept to state properties; no step reads it. */
  datatype Log = Log(
    halves: seq<bool>,         // per ADC event: did the driver fill the second half?
    sessionStart: nat,         // number of events before the current session
    delivered: seq<Message>,   // messages the runner accepted
    overruns: nat,
    dropped: nat,              // measured messages that met a full mailbox
    tally: Tally,
    captured: seq<Sample>,     // samples converted in the current session
    played: seq<Sample>,       // samples put out in the current session
    entries: seq<nat>)         // entry point found for each message processed in the session

  datatype State = State(
    status: RunStatus,
    halted: bool,              // a kernel check stopped the device
    errors: seq<Error>,
    entry: nat,                // ELFManager::m_entry, 0 for null
    memory: seq<Byte>,         // where algorithms are loaded and keep their variables
    watch: Stopwatch,
    input: Buffer,
    output: Buffer,
    operation: Operation,
    adcBuffer: Option<nat>,    // m_current_buffer, an offset into the input buffer
    adcSize: nat,              // m_current_buffer_size
    pos: nat,                  // where ADC DMA stores next
    dacSize: nat,
    dacPos: nat,               // where DAC DMA reads next
    mailbox: seq<Message>,
    held: Option<Message>,     // fetched by the monitor, blocked in chMsgSend
    runner: Runner,
    log: Log)

  /** `main` leaves the device like this; memory holds whatever it held. */
  function Boot(inMem: seq<Sample>, outMem: seq<Sample>, memory: seq<Byte>): (s: State)
    requires |inMem| == |outMem| == MAX_SAMPLE_BUFFER_SIZE
    ensures Bounded(s)
  {
    State(Idle, false, [], 0, memory, Unused,
          Buffer(inMem, MAX_SAMPLE_BUFFER_SIZE, None), Buffer(outMem, MAX_SAMPLE_BUFFER_SIZE, None),
          NoOperation, None, 0, 0, 0, 0, [], None, Waiting,
          Log([], 0, [], 0, 0, Tally(0, 0, 0, 0, 0, 0, [], []), [], [], []))
  }

  predicate Converting(s: State) {
    s.status == Running && !s.halted
  }

  /** Every memory access of every step stays inside the 8192-sample buffers: DMA positions, the
      block handed to the algorithm, and both sides of a copy including its rounding. */
  predicate Bounded(s: State) {
    && s.input.Valid() && s.output.Valid()
    && (Converting(s) ==>
          && s.adcBuffer == Some(0)
          && 2 <= s.adcSize <= MAX_SAMPLE_BUFFER_SIZE && s.adcSize % 2 == 0 && s.pos < s.adcSize
          && s.dacSize <= MAX_SAMPLE_BUFFER_SIZE && s.dacPos < s.dacSize)
    && s.input.size % 2 == 0 && s.output.size == s.input.size
    && BoundedRunner(s.runner)
  }

  predicate BoundedRunner(r: Runner) {
    match r
    case Waiting => true
    case Accepted(_) => true
    case Entered(_, base, size, _, _) => base <= 4096 && size <= 4096
    case Returned(_, size, source, _) => size <= 4096 && Covers(source, CopyCount(size))
    case Ready(_, size, source) => size <= 4096 && Covers(source, CopyCount(size))
    case Copying(source, dest, count, done) =>
      && count % 16 == 0 && done % 16 == 0 && done < Moved(count)
      && dest + Moved(count) <= MAX_SAMPLE_BUFFER_SIZE
      && Covers(source, Moved(count))
  }

  /** The source holds `n` samples. */
  predicate Covers(source: Source, n: nat) {
    match source
    case Live(base) => base + n <= MAX_SAMPLE_BUFFER_SIZE
    case Fixed(samples) => n <= |samples|
  }

  // ----- Steps -----

  /** How far a load request gets: the announced size is refused, or the loader runs, with this result,
      header entry and memory afterwards. */
  datatype LoadRequest = TooBig | Attempted(loaded: bool, entry: nat, memory: seq<Byte>)

  datatype Command =
    | SetBufferSize(samples: nat)
    | LoadAlgorithm(request: LoadRequest)
    | UnloadAlgorithm
    | MeasureConversion
    | StartConversion
    | StopConversion
    | ReadStatus
    | ReadConversionResults
    | ReadConversionInput
    | WriteAdcBuffer(data: seq<Sample>)

  datatype Step =
    | Tick(sample: Sample, onRunnerStack: bool)
    | MonitorFetch
    | RunnerAccept
    | RunnerEnter
    | RunnerStartTimer
    | RunnerCompute
    | RunnerStopTimer
    | RunnerTest
    | RunnerScratch(left: Leftover)
    | RunnerFault
    | RunnerBeginCopy
    | RunnerCopyBlock
    | Host(command: Command)

  /** `ConversionManager::abort`: unload, report, and restart the runner thread if it is the one
      that was interrupted. */
  function Abort(s: State, onRunnerStack: bool): State {
    s.(entry := 0,
       errors := Push(s.errors, ConversionAborted),
       runner := if onRunnerStack then Waiting else s.runner)
  }

  /** `setModified` or `setMidmodified` of the input buffer. */
  function NoteInput(s: State, first: bool): (r: State)
    requires Bounded(s)
    ensures Bounded(r)
  {
    s.(input := s.input.(modified := Some(if first then 0 else s.input.Mid())),
       log := s.log.(tally := s.log.tally.(inNotified := s.log.tally.inNotified + 1)))
  }

  /** `chMBPostI` of a message for the current event. */
  function Post(s: State, code: nat): State
    requires |s.log.halves| > 0
  {
    s.(mailbox := Posted(s.mailbox, MAILBOX_SIZE, Message(code, |s.log.halves| - 1)))
  }

  /** The mailbox reset of an overrun. */
  function Emptied(s: State): State {
    s.(mailbox := [], log := s.log.(overruns := s.log.overruns + 1))
  }

  /** `adcReadHandler`. */
  function AdcReadHandler(s: State, buffer: nat, onRunnerStack: bool): (r: State)
    requires |s.log.halves| > 0 && Bounded(s)
    ensures Bounded(r)
  {
    if |s.mailbox| > 1 then Abort(Emptied(s), onRunnerStack)
    else Post(NoteInput(s, buffer == 0), if buffer == 0 then MSG_CONVFIRST else MSG_CONVSECOND)
  }

  /** `adcReadHandlerMeasure`, which puts the ordinary handler back. */
  function AdcReadHandlerMeasure(s: State, buffer: nat): (r: State)
    requires |s.log.halves| > 0 && Bounded(s)
    ensures Bounded(r)
  {
    var code := if buffer == 0 then MSG_CONVFIRST_MEASURE else MSG_CONVSECOND_MEASURE;
    MeasureHandled(Post(NoteInput(s, buffer == 0), code), |s.mailbox| < MAILBOX_SIZE)
  }

  function MeasureHandled(s: State, posted: bool): State {
    s.(operation := ReadHandler,
       log := if posted then s.log.(tally := s.log.tally.(measuresPosted := s.log.tally.measuresPosted + 1))
              else s.log.(dropped := s.log.dropped + 1))
  }

  /** `ADC::conversionCallback`, called with driver state ADC_COMPLETE for the second half. */
  function ConversionCallback(s: State, complete: bool, onRunnerStack: bool): (r: State)
    requires Converting(s) && Bounded(s)
    ensures Bounded(r)
  {
    var s1 := s.(log := s.log.(halves := s.log.halves + [complete]));
    var buffer := if complete then s.adcBuffer.value + s.adcSize / 2 else s.adcBuffer.value;
    match s.operation
    case NoOperation => s1
    case ReadHandler => AdcReadHandler(s1, buffer, onRunnerStack)
    case MeasureHandler => AdcReadHandlerMeasure(s1, buffer)
  }

  /** Does the next sample complete a half of the input buffer? */
  predicate CompletesHalf(s: State) {
    Converting(s) && (s.pos + 1 == s.adcSize / 2 || s.pos + 1 == s.adcSize)
  }

  /** The DMA part of a trigger of the sample clock: the DAC puts out a sample and the ADC stores
      one. Both transfers are circular. */
  function Sampled(s: State, sample: Sample): (r: State)
    requires Converting(s) && Bounded(s)
    ensures Converting(r) && Bounded(r)
  {
    s.(input := s.input.(mem := s.input.mem[s.pos := sample]),
       pos := if s.pos + 1 == s.adcSize then 0 else s.pos + 1,
       dacPos := if s.dacPos + 1 == s.dacSize then 0 else s.dacPos + 1,
       log := s.log.(captured := s.log.captured + [sample],
                     played := s.log.played + [s.output.mem[s.dacPos]]))
  }

  /** One trigger of the sample clock. When a half of the input buffer is complete the driver's
      interrupt runs, with driver state ADC_COMPLETE for the second half. */
  function TickStep(s: State, sample: Sample, onRunnerStack: bool): (r: State)
    requires Bounded(s)
    ensures Bounded(r)
  {
    if !Converting(s) then s
    else if CompletesHalf(s) then
      ConversionCallback(Sampled(s, sample), s.pos + 1 == s.adcSize, onRunnerStack)
    else Sampled(s, sample)
  }

  /** `threadMonitor`: fetch, then block in `chMsgSend` with the message. */
  function FetchStep(s: State): (r: State)
    requires Bounded(s)
    ensures Bounded(r)
  {
    if s.held.None? && s.mailbox != [] then
      s.(held := Some(s.mailbox[0]), mailbox := s.mailbox[1..])
    else s
  }

  /** System call 0: take the monitor's message and release the monitor. */
  function AcceptStep(s: State): (r: State)
    requires Bounded(s)
    ensures Bounded(r)
  {
    if s.runner.Waiting? && s.held.Some? then
      s.(runner := Accepted(s.held.value), held := None,
         log := s.log.(delivered := s.log.delivered + [s.held.value]))
    else s
  }

  /** The runner picks the half, the size and the loaded entry point. */
  function EnterStep(s: State): (r: State)
    requires Bounded(s)
    ensures Bounded(r)
  {
    if s.runner.Accepted? then
      var msg := s.runner.msg;
      var base := if ForFirst(msg.code) then 0 else s.input.Mid();
      var size := s.input.size / 2;
      CopyCountMonotone(size, MAX_SAMPLE_BUFFER_SIZE / 2);
      s.(runner := if s.entry != 0 then Entered(msg, base, size, s.entry, false)
                   else Ready(msg, size, Live(base)),
         log := s.log.(entries := s.log.entries + [s.entry]))
    else s
  }

  /** System call 2 before the call of a measured message. */
  function StartTimerStep(s: State): (r: State)
    requires Bounded(s)
    ensures Bounded(r)
  {
    if s.runner.Entered? && ForMeasure(s.runner.msg.code) && !s.runner.timing then
      var r := s.runner;
      s.(runner := Entered(r.msg, r.base, r.size, r.entry, true), watch := Started(r.msg.event),
         log := s.log.(tally := s.log.tally.(started := s.log.tally.started + [r.msg.event])))
    else s
  }

  /** Is control in the algorithm? A measured message has its stopwatch started first. */
  predicate InAlgorithm(r: Runner) {
    r.Entered? && ForMeasure(r.msg.code) == r.timing
  }

  /** The samples the pointer an algorithm returned leads to. */
  function SourceOf(o: Outcome, base: nat): Source {
    match o.result
    case InPlace => Live(base)
    case At(samples) => Fixed(samples)
  }

  /** The algorithm runs to its end. */
  function ComputeStep(code: Code, s: State): (r: State)
    requires Bounded(s)
    ensures Bounded(r)
  {
    if InAlgorithm(s.runner) then
      var r := s.runner;
      var outcome := code(r.entry, s.memory, s.input.mem[r.base..r.base + r.size]);
      CopyCountMonotone(r.size, MAX_SAMPLE_BUFFER_SIZE / 2);
      s.(runner := Returned(r.msg, r.size, SourceOf(outcome, r.base), r.timing),
         memory := outcome.memory,
         input := s.input.(mem := Overwrite(s.input.mem, r.base, outcome.block)))
    else s
  }

  /** `chTMStopMeasurementX`. */
  function Stopped(watch: Stopwatch, event: nat): Stopwatch {
    if watch.Started? then Elapsed(watch.event, event) else Garbage
  }

  /** System call 2 after the call of a measured message. */
  function StopTimerStep(s: State): (r: State)
    requires Bounded(s)
    ensures Bounded(r)
  {
    if s.runner.Returned? && s.runner.timing then
      var r := s.runner;
      s.(runner := Returned(r.msg, r.size, r.source, false), watch := Stopped(s.watch, r.msg.event),
         log := s.log.(tally := s.log.tally.(timed := s.log.tally.timed + [r.msg.event])))
    else s
  }

  /** The read through the returned pointer that finds it readable. */
  function TestStep(s: State): (r: State)
    requires Bounded(s)
    ensures Bounded(r)
  {
    if s.runner.Returned? && !s.runner.timing then
      s.(runner := Ready(s.runner.msg, s.runner.size, s.runner.source))
    else s
  }

  /** An algorithm that will fault or be aborted changes its memory and its block. */
  function ScratchStep(s: State, left: Leftover): (r: State)
    requires Bounded(s)
    ensures Bounded(r)
  {
    if InAlgorithm(s.runner) && |left.block| == s.runner.size && |left.memory| == |s.memory| then
      s.(memory := left.memory, input := s.input.(mem := Overwrite(s.input.mem, s.runner.base, left.block)))
    else s
  }

  /** The algorithm faults, or the pointer it returned cannot be read. */
  function FaultStep(s: State): (r: State)
    requires Bounded(s)
    ensures Bounded(r)
  {
    if InAlgorithm(s.runner) || (s.runner.Returned? && !s.runner.timing) then Abort(s, true) else s
  }

  /** The head of `modify` or `midmodify` on the output buffer. */
  function BeginCopyStep(s: State): (r: State)
    requires Bounded(s)
    ensures Bounded(r)
  {
    if s.runner.Ready? then
      var r := s.runner;
      var first := ForFirst(r.msg.code);
      var n := Min(r.size, if first then s.output.size else s.output.size / 2);
      CopyCountMonotone(n, r.size);
      CopyCountMonotone(n, MAX_SAMPLE_BUFFER_SIZE / 2);
      var dest := if first then 0 else s.output.Mid();
      s.(runner := Copying(r.source, dest, RoundUp16(n), 0),
         output := s.output.(modified := Some(dest)),
         log := s.log.(tally := s.log.tally.(outNotified := s.log.tally.outNotified + 1)))
    else s
  }

  /** The sixteen samples of a source from index `at` on. */
  function BlockOf(s: State, source: Source, at: nat): (block: seq<Sample>)
    requires |s.input.mem| == MAX_SAMPLE_BUFFER_SIZE && Covers(source, at + 16)
    ensures |block| == 16
  {
    match source
    case Live(base) => s.input.mem[base + at..base + at + 16]
    case Fixed(samples) => samples[at..at + 16]
  }

  /** One pass of the unrolled loop, then its test. */
  function CopyBlockStep(s: State): (r: State)
    requires Bounded(s)
    ensures Bounded(r)
  {
    if s.runner.Copying? then
      var r := s.runner;
      s.(output := s.output.(mem := Overwrite(s.output.mem, r.dest + r.done, BlockOf(s, r.source, r.done))),
         runner := if r.done + 16 < r.count then r.(done := r.done + 16) else Waiting)
    else s
  }

  /** How many halves `modified()` hands out now. */
  function Handed(b: Buffer): nat {
    if b.modified.Some? then 1 else 0
  }

  function HostStep(s: State, command: Command): (r: State)
    requires Bounded(s)
    ensures Bounded(r)
  {
    match command
    case SetBufferSize(samples) =>
      if s.status != Idle then s.(errors := Push(s.errors, NotIdle))
      else if 2 * samples > MAX_SAMPLE_BUFFER_SIZE then s.(errors := Push(s.errors, BadParam))
      else s.(input := s.input.(size := 2 * samples), output := s.output.(size := 2 * samples))
    case LoadAlgorithm(request) =>
      if s.status != Idle then s.(errors := Push(s.errors, NotIdle))
      else (match request
            case TooBig => s.(errors := Push(s.errors, BadUserCodeSize))
            case Attempted(loaded, entry, memory) =>
              s.(entry := if loaded then entry else 0, memory := memory,
                 errors := if loaded then s.errors else Push(s.errors, BadUserCodeLoad)))
    case UnloadAlgorithm => s.(entry := 0)
    case MeasureConversion =>
      if s.status != Running then s.(errors := Push(s.errors, NotRunning))
      else s.(operation := MeasureHandler,
              log := s.log.(tally := s.log.tally.(measuresAccepted := s.log.tally.measuresAccepted + 1)))
    case StartConversion =>
      if s.status != Idle then s.(errors := Push(s.errors, NotIdle)) else StartStep(s)
    case StopConversion =>
      if s.status != Running then s.(errors := Push(s.errors, NotRunning))
      else s.(status := Idle, operation := NoOperation, adcBuffer := None, adcSize := 0)
    case ReadStatus => s.(errors := Popped(s.errors))
    case ReadConversionResults =>
      s.(output := s.output.(modified := None),
         log := s.log.(tally := s.log.tally.(outTaken := s.log.tally.outTaken + Handed(s.output))))
    case ReadConversionInput =>
      s.(input := s.input.(modified := None),
         log := s.log.(tally := s.log.tally.(inTaken := s.log.tally.inTaken + Handed(s.input))))
    case WriteAdcBuffer(data) =>
      s.(input := s.input.(mem := Overwrite(s.input.mem, 0, data[..Min(|data|, s.input.size)])))
  }

  /** `startConversion` and `ConversionManager::start`. An empty buffer fails the kernel's check of
      the conversion depth, which stops the device. */
  function StartStep(s: State): (r: State)
    requires Bounded(s)
    ensures Bounded(r)
  {
    s.(status := Running,
       halted := s.input.size == 0,
       output := s.output.(mem := Overwrite(s.output.mem, 0, Repeat(MIDSCALE, s.output.size))),
       operation := ReadHandler,
       adcBuffer := Some(0), adcSize := s.input.size, pos := 0,
       dacSize := s.output.size, dacPos := 0,
       log := s.log.(sessionStart := |s.log.halves|, captured := [], played := [], entries := []))
  }

  /** One step of the device. */
  function Next(code: Code, s: State, step: Step): (r: State)
    requires Bounded(s)
    ensures Bounded(r)
  {
    if s.halted then s else
    match step
    case Tick(sample, onRunnerStack) => TickStep(s, sample, onRunnerStack)
    case MonitorFetch => FetchStep(s)
    case RunnerAccept => AcceptStep(s)
    case RunnerEnter => EnterStep(s)
    case RunnerStartTimer => StartTimerStep(s)
    case RunnerCompute => ComputeStep(code, s)
    case RunnerStopTimer => StopTimerStep(s)
    case RunnerTest => TestStep(s)
    case RunnerScratch(left) => ScratchStep(s, left)
    case RunnerFault => FaultStep(s)
    case RunnerBeginCopy => BeginCopyStep(s)
    case RunnerCopyBlock => CopyBlockStep(s)
    case Host(command) => HostStep(s, command)
  }

  /** The state after a whole run. */
  function Run(code: Code, s: State, steps: seq<Step>): (r: State)
    requires Bounded(s)
    ensures Bounded(r)
    decreases |steps|
  {
    if steps == [] then s else Run(code, Next(code, s, steps[0]), steps[1..])
  }

  /** A run in two parts. */
  lemma {:induction false} RunConcat(code: Code, s: State, first: seq<Step>, second: seq<Step>)
    requires Bounded(s)
    ensures Run(code, s, first + second) == Run(code, Run(code, s, first), second)
    decreases |first|
  {
    if first == [] {
      assert first + second == second;
    } else {
      assert (first + second)[1..] == first[1..] + second;
      RunConcat(code, Next(code, s, first[0]), first[1..], second);
    }
  }

  /** One more step of a run. */
  lemma RunSnoc(code: Code, s: State, steps: seq<Step>, step: Step)
    requires Bounded(s)
    ensures Run(code, s, steps + [step]) == Next(code, Run(code, s, steps), step)
  {
    RunConcat(code, s, steps, [step]);
    assert [step][1..] == [];
  }
}
