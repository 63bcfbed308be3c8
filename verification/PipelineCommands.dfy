/** What a command is for: what it makes of the runs that follow it, and what the host is told of one that
    is refused (source/communication.cpp). */
module PipelineCommands {
  import opened Basics
  import opened Errors
  import opened SampleBuffers
  import opened Pipeline
  import opened PipelineStream
  import opened PipelinePass

  lemma Commanded(code: Code, s: State, command: Command)
    requires Bounded(s) && !s.halted
    ensures Next(code, s, Host(command)) == HostStep(s, command)
  {
  }

  // ----- A session set up by the host -----

  /** A size, an algorithm and a start, for a device that is idle. */
  function SetUp(s: State, h: nat, entry: nat, memory: seq<Byte>): (r: State)
    requires Bounded(s)
    ensures Bounded(r)
  {
    var sized := HostStep(s, SetBufferSize(h));
    var loaded := HostStep(sized, LoadAlgorithm(Attempted(true, entry, memory)));
    HostStep(loaded, StartConversion)
  }

  lemma SetUpOpens(s: State, h: nat, entry: nat, memory: seq<Byte>)
    requires Bounded(s) && s.status == Idle && !s.halted && Quiescent(s) && 0 < h && 2 * h <= MAX_SAMPLE_BUFFER_SIZE
    ensures var r := SetUp(s, h, entry, memory);
            FreshSession(r, h) && r.entry == entry && r.memory == memory && r.errors == s.errors
  {
    var loaded := HostStep(HostStep(s, SetBufferSize(h)), LoadAlgorithm(Attempted(true, entry, memory)));
    assert loaded.input.size == 2 * h && loaded.status == Idle && Quiescent(loaded);
    StartOpensSession(loaded);
  }

  /** While a session goes on in time and nothing is unloaded, every message finds the same entry point. */
  ghost predicate SameEntry(s: State, entry: nat) {
    s.status == Running && s.entry == entry && forall e :: e in s.log.entries ==> e == entry
  }

  lemma CallbackKeepsEntry(s: State, complete: bool, onRunnerStack: bool)
    requires Bounded(s) && Converting(s) && s.mailbox == []
    ensures var r := ConversionCallback(s, complete, onRunnerStack);
            r.status == s.status && r.entry == s.entry && r.log.entries == s.log.entries
  {
  }

  lemma HostKeepsEntry(s: State, command: Command)
    requires Bounded(s) && s.status == Running && !command.StopConversion? && !command.UnloadAlgorithm?
    ensures var r := HostStep(s, command);
            r.status == s.status && r.entry == s.entry && r.log.entries == s.log.entries
  {
  }

  lemma StepKeepsEntry(code: Code, s: State, entry: nat, step: Step)
    requires Bounded(s) && SameEntry(s, entry) && TimelyStep(s, step) && step != Host(UnloadAlgorithm)
    ensures SameEntry(Next(code, s, step), entry)
  {
    match step
    case Tick(sample, onRunnerStack) =>
      if CompletesHalf(s) {
        CallbackKeepsEntry(Sampled(s, sample), s.pos + 1 == s.adcSize, onRunnerStack);
      }
    case Host(command) => HostKeepsEntry(s, command);
    case _ =>
  }

  lemma {:induction false} RunKeepsEntry(code: Code, s: State, entry: nat, steps: seq<Step>)
    requires Bounded(s) && SameEntry(s, entry) && Timely(code, s, steps) && Host(UnloadAlgorithm) !in steps
    ensures SameEntry(Run(code, s, steps), entry)
    decreases |steps|
  {
    if steps != [] {
      StepKeepsEntry(code, s, entry, steps[0]);
      RunKeepsEntry(code, Next(code, s, steps[0]), entry, steps[1..]);
    }
  }

  /** What the host gets for its commands. It sets a half size that is a positive multiple of sixteen, loads a
      file that leaves `memory` and the entry point `entry`, and starts. Then, while the session goes on in
      time and nothing is unloaded, the device plays one buffer of mid-scale and after it the captured signal,
      block by block of that size, as the algorithm at that entry point makes of it, beginning with that
      memory. */
  lemma SessionTheorem(code: Code, s: State, h: nat, entry: nat, memory: seq<Byte>, steps: seq<Step>)
    requires Bounded(s) && s.status == Idle && !s.halted && Quiescent(s)
    requires 0 < h && h % 16 == 0 && 2 * h <= MAX_SAMPLE_BUFFER_SIZE
    requires Timely(code, SetUp(s, h, entry, memory), steps) && Host(UnloadAlgorithm) !in steps
    ensures var r := Run(code, SetUp(s, h, entry, memory), steps);
            var blocks, n := Blocks(h, r.log.captured), |r.log.entries|;
            && n <= |blocks| && |r.log.played| == |r.log.captured|
            && r.log.played <= Repeat(MIDSCALE, 2 * h)
                               + Flatten(Processed(code, memory, Repeat(entry, n), blocks))
  {
    var start := SetUp(s, h, entry, memory);
    SetUpOpens(s, h, entry, memory);
    RunKeepsEntry(code, start, entry, steps);
    StreamTheorem(code, h, start, steps);
    var r := Run(code, start, steps);
    AllTheSame(r.log.entries, entry);
  }

  lemma AllTheSame(entries: seq<nat>, entry: nat)
    requires forall e :: e in entries ==> e == entry
    ensures entries == Repeat(entry, |entries|)
  {
    assert forall i :: 0 <= i < |entries| ==> entries[i] in entries;
  }

  // ----- Without an algorithm -----

  predicate NoLoadStep(step: Step) {
    step.Host? ==> !step.command.LoadAlgorithm? && !step.command.StartConversion?
  }

  /** Messages after the first `n` of the session pass through. */
  ghost predicate PassesOn(s: State, n: nat) {
    && s.entry == 0 && n <= |s.log.entries|
    && forall i :: n <= i < |s.log.entries| ==> s.log.entries[i] == 0
  }

  lemma CallbackPassesOn(s: State, n: nat, complete: bool, onRunnerStack: bool)
    requires Bounded(s) && Converting(s) && PassesOn(s, n)
    ensures PassesOn(ConversionCallback(s, complete, onRunnerStack), n)
  {
  }

  lemma HostPassesOn(s: State, n: nat, command: Command)
    requires Bounded(s) && PassesOn(s, n) && !command.LoadAlgorithm? && !command.StartConversion?
    ensures PassesOn(HostStep(s, command), n)
  {
  }

  lemma StepPassesOn(code: Code, s: State, n: nat, step: Step)
    requires Bounded(s) && PassesOn(s, n) && NoLoadStep(step)
    ensures PassesOn(Next(code, s, step), n)
  {
    match step
    case Tick(sample, onRunnerStack) =>
      if CompletesHalf(s) {
        CallbackPassesOn(Sampled(s, sample), n, s.pos + 1 == s.adcSize, onRunnerStack);
      }
    case Host(command) => HostPassesOn(s, n, command);
    case _ =>
  }

  lemma {:induction false} RunPassesOn(code: Code, s: State, n: nat, steps: seq<Step>)
    requires Bounded(s) && PassesOn(s, n) && forall step :: step in steps ==> NoLoadStep(step)
    ensures PassesOn(Run(code, s, steps), n)
    decreases |steps|
  {
    if steps != [] {
      assert steps[0] in steps;
      StepPassesOn(code, s, n, steps[0]);
      RunPassesOn(code, Next(code, s, steps[0]), n, steps[1..]);
    }
  }

  /** After an unload, and until something is loaded or another session is started, every message that the
      runner takes finds no algorithm: its block passes through. */
  lemma UnloadPasses(code: Code, s: State, steps: seq<Step>)
    requires Bounded(s) && !s.halted && forall step :: step in steps ==> NoLoadStep(step)
    ensures PassesOn(Run(code, Next(code, s, Host(UnloadAlgorithm)), steps), |s.log.entries|)
  {
    RunPassesOn(code, Next(code, s, Host(UnloadAlgorithm)), |s.log.entries|, steps);
  }

  // ----- A measurement asked for -----

  /** No event, and the session goes on. */
  predicate NoEvent(s: State, step: Step) {
    step != Host(StopConversion) && !(step.Tick? && CompletesHalf(s))
  }

  predicate NoEvents(code: Code, s: State, steps: seq<Step>)
    requires Bounded(s)
    decreases |steps|
  {
    steps == [] || (NoEvent(s, steps[0]) && NoEvents(code, Next(code, s, steps[0]), steps[1..]))
  }

  predicate Asked(s: State) {
    Converting(s) && s.operation.MeasureHandler?
  }

  lemma StepKeepsAsked(code: Code, s: State, step: Step)
    requires Bounded(s) && Asked(s) && NoEvent(s, step)
    ensures Asked(Next(code, s, step))
  {
  }

  lemma {:induction false} RunKeepsAsked(code: Code, s: State, steps: seq<Step>)
    requires Bounded(s) && Asked(s) && NoEvents(code, s, steps)
    ensures Asked(Run(code, s, steps))
    decreases |steps|
  {
    if steps != [] {
      StepKeepsAsked(code, s, steps[0]);
      RunKeepsAsked(code, Next(code, s, steps[0]), steps[1..]);
    }
  }

  /** A state in which a measurement is asked for marks the message of its event. */
  lemma AskedMarks(s: State, sample: Sample, onRunnerStack: bool)
    requires Bounded(s) && Asked(s) && CompletesHalf(s) && |s.mailbox| < MAILBOX_SIZE
    ensures var r := TickStep(s, sample, onRunnerStack);
            && |r.mailbox| == |s.mailbox| + 1 && r.mailbox[..|s.mailbox|] == s.mailbox
            && ForMeasure(r.mailbox[|s.mailbox|].code) && r.mailbox[|s.mailbox|].event == |s.log.halves|
            && r.operation.ReadHandler? && r.held == s.held && r.runner == s.runner && r.entry == s.entry
  {
  }

  /** A request is answered by the next event, and by that alone: after whatever other steps, as long as the
      session is not stopped, that event, if it finds room in the mailbox, posts a message marked for measuring
      and installs the ordinary handler again. */
  lemma RequestAnswered(code: Code, s: State, steps: seq<Step>, sample: Sample, onRunnerStack: bool)
    requires Bounded(s) && Converting(s)
    requires NoEvents(code, Next(code, s, Host(MeasureConversion)), steps)
    requires var asked := Run(code, Next(code, s, Host(MeasureConversion)), steps);
             CompletesHalf(asked) && |asked.mailbox| < MAILBOX_SIZE
    ensures var asked := Run(code, Next(code, s, Host(MeasureConversion)), steps);
            var r := TickStep(asked, sample, onRunnerStack);
            && |r.mailbox| == |asked.mailbox| + 1
            && ForMeasure(r.mailbox[|asked.mailbox|].code)
            && r.mailbox[|asked.mailbox|].event == |asked.log.halves|
            && r.operation.ReadHandler?
  {
    var asking := Next(code, s, Host(MeasureConversion));
    RunKeepsAsked(code, asking, steps);
    AskedMarks(Run(code, asking, steps), sample, onRunnerStack);
  }

  lemma FetchOne(s: State)
    requires Bounded(s) && |s.mailbox| == 1 && s.held.None?
    ensures var r := FetchStep(s); r.held == Some(s.mailbox[0]) && r.runner == s.runner && r.entry == s.entry
  {
  }

  /** And so the host gets its reading: when nothing else is under way and an algorithm is loaded, after the
      fetch and the pass of that message the stopwatch shows the time of its block. */
  lemma RequestMeasured(code: Code, s: State, steps: seq<Step>, sample: Sample, onRunnerStack: bool)
    requires Bounded(s) && Converting(s)
    requires NoEvents(code, Next(code, s, Host(MeasureConversion)), steps)
    requires var asked := Run(code, Next(code, s, Host(MeasureConversion)), steps);
             CompletesHalf(asked) && Quiescent(asked) && asked.entry != 0
    ensures var asked := Run(code, Next(code, s, Host(MeasureConversion)), steps);
            var event := |asked.log.halves|;
            Pass(code, FetchStep(TickStep(asked, sample, onRunnerStack)), None).watch == Elapsed(event, event)
  {
    var asking := Next(code, s, Host(MeasureConversion));
    var asked := Run(code, asking, steps);
    RunKeepsAsked(code, asking, steps);
    AskedMarks(asked, sample, onRunnerStack);
    var posted := TickStep(asked, sample, onRunnerStack);
    FetchOne(posted);
    PassProcesses(code, FetchStep(posted));
  }

  // ----- A stop -----

  /** What a session records. */
  function RecordOf(s: State): (seq<bool>, seq<Sample>, seq<Sample>) {
    (s.log.halves, s.log.captured, s.log.played)
  }

  lemma IdleStaysStill(code: Code, s: State, step: Step)
    requires Bounded(s) && s.status == Idle && step != Host(StartConversion)
    ensures var r := Next(code, s, step); r.status == Idle && RecordOf(r) == RecordOf(s)
  {
  }

  lemma {:induction false} IdleRun(code: Code, s: State, steps: seq<Step>)
    requires Bounded(s) && s.status == Idle && Host(StartConversion) !in steps
    ensures var r := Run(code, s, steps); r.status == Idle && RecordOf(r) == RecordOf(s)
    decreases |steps|
  {
    if steps != [] {
      IdleStaysStill(code, s, steps[0]);
      IdleRun(code, Next(code, s, steps[0]), steps[1..]);
    }
  }

  /** From a stop to the next start nothing is captured, nothing is put out and there is no event. */
  lemma StopSilences(code: Code, s: State, steps: seq<Step>)
    requires Bounded(s) && !s.halted && Host(StartConversion) !in steps
    ensures var r := Run(code, Next(code, s, Host(StopConversion)), steps);
            r.status == Idle && RecordOf(r) == RecordOf(s)
  {
    IdleRun(code, Next(code, s, Host(StopConversion)), steps);
  }

  /** An idle device has no ADC buffer and no handler. */
  predicate Parked(s: State) {
    s.status == Idle ==> s.operation.NoOperation? && s.adcBuffer.None? && s.adcSize == 0
  }

  lemma StepKeepsParked(code: Code, s: State, step: Step)
    requires Bounded(s) && Parked(s)
    ensures Parked(Next(code, s, step))
  {
  }

  /** Whatever was converted, asked for or aborted, none is left in place while the device is idle. */
  lemma {:induction false} RunKeepsParked(code: Code, s: State, steps: seq<Step>)
    requires Bounded(s) && Parked(s)
    ensures Parked(Run(code, s, steps))
    decreases |steps|
  {
    if steps != [] {
      StepKeepsParked(code, s, steps[0]);
      RunKeepsParked(code, Next(code, s, steps[0]), steps[1..]);
    }
  }

  // ----- Refusals and the status -----

  /** The error with which a command is refused, as the host is to find it. */
  function Refusal(s: State, command: Command): Option<Error> {
    match command
    case SetBufferSize(samples) =>
      if s.status == Running then Some(NotIdle) else if samples > 4096 then Some(BadParam) else None
    case LoadAlgorithm(request) =>
      if s.status == Running then Some(NotIdle) else if request.TooBig? then Some(BadUserCodeSize) else None
    case StartConversion => if s.status == Running then Some(NotIdle) else None
    case MeasureConversion => if s.status == Idle then Some(NotRunning) else None
    case StopConversion => if s.status == Idle then Some(NotRunning) else None
    case _ => None
  }

  /** A refused command changes nothing, and the next status the host reads names the reason; after that the
      device is as it was before. A full stack of errors has no room for the reason. */
  lemma RefusalReported(s: State, command: Command)
    requires Bounded(s) && Refusal(s, command).Some?
    ensures var r := HostStep(s, command);
            && r.(errors := s.errors) == s
            && (|s.errors| < MAX_ERROR_QUEUE_SIZE ==>
                  Top(r.errors) == Refusal(s, command).value && HostStep(r, ReadStatus) == s)
            && (|s.errors| == MAX_ERROR_QUEUE_SIZE ==> r == s)
  {
    var error := Refusal(s, command).value;
    assert Popped(s.errors + [error]) == s.errors;
  }

  /** A command that is not refused adds no error, except a load that fails: it is reported, and leaves no
      algorithm. */
  lemma AcceptedReportsNothing(s: State, command: Command)
    requires Bounded(s) && Refusal(s, command).None? && !command.ReadStatus?
    ensures var r := HostStep(s, command);
            if command.LoadAlgorithm? && !command.request.loaded then
              r.errors == Push(s.errors, BadUserCodeLoad) && r.entry == 0
            else r.errors == s.errors
  {
  }

  /** `n` times the status. */
  function Reads(n: nat): seq<Step> {
    Repeat(Host(ReadStatus), n)
  }

  /** The errors left after `n` are reported. */
  function Remaining(errors: seq<Error>, n: nat): seq<Error> {
    if n < |errors| then errors[..|errors| - n] else []
  }

  lemma OneReported(errors: seq<Error>, n: nat)
    requires n > 0
    ensures Remaining(Popped(errors), n - 1) == Remaining(errors, n)
  {
  }

  /** Each status the host reads takes away the error it reports and nothing else: after `n` of them the
      newest `n` errors are gone, so that all are reported, newest first, and then none. */
  lemma {:induction false} StatusDrains(code: Code, s: State, n: nat)
    requires Bounded(s) && !s.halted
    ensures var r := Run(code, s, Reads(n));
            && r == s.(errors := Remaining(s.errors, n))
            && Top(r.errors) == if n < |s.errors| then s.errors[|s.errors| - 1 - n] else NoError
    decreases n
  {
    if n > 0 {
      Commanded(code, s, ReadStatus);
      assert Reads(n)[1..] == Reads(n - 1) && Reads(n)[0] == Host(ReadStatus);
      OneReported(s.errors, n);
      StatusDrains(code, s.(errors := Popped(s.errors)), n - 1);
    }
  }

  // ----- Samples written and halves taken -----

  /** Samples that the host writes into the input buffer are what the half they fall into holds, up to the
      size of the buffer; the rest of it stays. */
  lemma WriteFills(s: State, data: seq<Sample>, i: nat)
    requires Bounded(s) && i < MAX_SAMPLE_BUFFER_SIZE
    ensures var r := HostStep(s, WriteAdcBuffer(data));
            && r.input.mem[i] == (if i < |data| && i < s.input.size then data[i] else s.input.mem[i])
            && r.input.size == s.input.size
  {
  }

  lemma WriteFillsBlock(s: State, data: seq<Sample>, m: Message)
    requires Bounded(s) && s.input.size <= |data|
    ensures var r, at, h := HostStep(s, WriteAdcBuffer(data)), HalfOf(m, s.input.size), s.input.size / 2;
            r.input.size == s.input.size && BlockFor(r, m) == Half(data, h, at)
  {
    var r, at, h := HostStep(s, WriteAdcBuffer(data)), HalfOf(m, s.input.size), s.input.size / 2;
    forall i | 0 <= i < h ensures BlockFor(r, m)[i] == Half(data, h, at)[i] {
      WriteFills(s, data, at + i);
    }
  }

  lemma WriteLeaves(s: State, data: seq<Sample>)
    requires Bounded(s)
    ensures var r := HostStep(s, WriteAdcBuffer(data));
            && r.output == s.output && r.entry == s.entry && r.memory == s.memory
            && r.held == s.held && r.runner == s.runner
  {
  }

  lemma PassMakes(code: Code, s: State, at: nat, h: nat, want: seq<Sample>)
    requires Bounded(s) && s.runner.Waiting? && s.held.Some?
    requires at == HalfOf(s.held.value, s.input.size) && h == s.input.size / 2
    requires want == Process(code, s.entry, s.memory, BlockFor(s, s.held.value))
    ensures Half(Pass(code, s, None).output.mem, h, at) == want
  {
    PassOutput(code, s, None);
  }

  /** With a whole buffer written, the pass of a message brings the half of the data that it names, as the
      algorithm makes of it, into the same half of the output. */
  lemma WrittenIsProcessed(code: Code, s: State, data: seq<Sample>)
    requires Bounded(s) && s.runner.Waiting? && s.held.Some? && s.input.size <= |data|
    ensures var at, h := HalfOf(s.held.value, s.input.size), s.input.size / 2;
            Half(Pass(code, HostStep(s, WriteAdcBuffer(data)), None).output.mem, h, at)
            == Process(code, s.entry, s.memory, Half(data, h, at))
  {
    var at, h := HalfOf(s.held.value, s.input.size), s.input.size / 2;
    WriteFillsBlock(s, data, s.held.value);
    WriteLeaves(s, data);
    PassMakes(code, HostStep(s, WriteAdcBuffer(data)), at, h, Process(code, s.entry, s.memory, Half(data, h, at)));
  }

  /** A half of the output that the host was handed is not handed out again before another copy begins, and
      one of the input not before another event. */
  lemma StepNotesNothing(code: Code, s: State, step: Step)
    requires Bounded(s)
    ensures step != RunnerBeginCopy && s.output.modified.None? ==> Next(code, s, step).output.modified.None?
    ensures !(step.Tick? && CompletesHalf(s)) && s.input.modified.None? ==> Next(code, s, step).input.modified.None?
  {
  }

  lemma {:induction false} NothingNoted(code: Code, s: State, steps: seq<Step>)
    requires Bounded(s) && s.output.modified.None? && RunnerBeginCopy !in steps
    ensures Run(code, s, steps).output.modified.None?
    decreases |steps|
  {
    if steps != [] {
      StepNotesNothing(code, s, steps[0]);
      NothingNoted(code, Next(code, s, steps[0]), steps[1..]);
    }
  }

  lemma ResultsOnce(code: Code, s: State, steps: seq<Step>)
    requires Bounded(s) && !s.halted && RunnerBeginCopy !in steps
    ensures Run(code, Next(code, s, Host(ReadConversionResults)), steps).output.modified.None?
  {
    NothingNoted(code, Next(code, s, Host(ReadConversionResults)), steps);
  }

  /** No step completes a half. */
  predicate Eventless(code: Code, s: State, steps: seq<Step>)
    requires Bounded(s)
    decreases |steps|
  {
    steps == []
    || (!(steps[0].Tick? && CompletesHalf(s)) && Eventless(code, Next(code, s, steps[0]), steps[1..]))
  }

  lemma {:induction false} NoInputNoted(code: Code, s: State, steps: seq<Step>)
    requires Bounded(s) && s.input.modified.None? && Eventless(code, s, steps)
    ensures Run(code, s, steps).input.modified.None?
    decreases |steps|
  {
    if steps != [] {
      StepNotesNothing(code, s, steps[0]);
      NoInputNoted(code, Next(code, s, steps[0]), steps[1..]);
    }
  }

  lemma InputOnce(code: Code, s: State, steps: seq<Step>)
    requires Bounded(s) && !s.halted && Eventless(code, Next(code, s, Host(ReadConversionInput)), steps)
    ensures Run(code, Next(code, s, Host(ReadConversionInput)), steps).input.modified.None?
  {
    NoInputNoted(code, Next(code, s, Host(ReadConversionInput)), steps);
  }

  // ----- After boot -----

  /** A device that has booted is idle, reports no error, has noted nothing, and passes blocks through until
      an algorithm is loaded. */
  lemma BootPasses(code: Code, inMem: seq<Sample>, outMem: seq<Sample>, memory: seq<Byte>)
    requires |inMem| == |outMem| == MAX_SAMPLE_BUFFER_SIZE
    ensures var s := Boot(inMem, outMem, memory);
            && s.status == Idle && !s.halted && Top(s.errors) == NoError && Quiescent(s)
            && s.output.modified.None? && s.input.modified.None? && PassesOn(s, 0)
            && Parked(s)
  {
  }
}
