/** The firmware itself: the interrupt handlers, one pass of each conversion thread and the conversion
    commands, over the real mailbox ring, sample arrays, error stack and ELF loader, with no record of
    where the runner is. A call is not interrupted; `Drive` shows that any sequence of calls is a run of
    the step system in `Pipeline`. */
module Conversion {
  import opened Basics
  import opened Errors
  import opened SampleBuffers
  import opened Mailboxes
  import opened ElfLoader
  import opened Pipeline
  import opened PipelineFlow
  import opened PipelineCopy
  import opened PipelineStream
  import opened PipelinePass

  /** The states of the ADC driver. */
  datatype AdcState = AdcReady | AdcActive | AdcComplete

  /** What happens to the device: a trigger of the sample clock, a thread that gets to run, or a command. A
      pass of the runner says whether its algorithm faults. */
  datatype Call =
    | ClockCall(sample: Sample)
    | MonitorCall
    | RunnerCall(fault: Option<Leftover>)
    | LoadCall(file: seq<Byte>)
    | CommandCall(command: Command)

  /** The steps a call amounts to; `request` is what became of the file when it loads one. */
  function StepsOf(call: Call, request: LoadRequest): seq<Step> {
    match call
    case ClockCall(sample) => [Tick(sample, false)]
    case MonitorCall => [MonitorFetch]
    case RunnerCall(fault) => PassSteps(fault)
    case LoadCall(_) => [Host(LoadAlgorithm(request))]
    case CommandCall(command) => [Host(command)]
  }

  function AllSteps(calls: seq<Call>, requests: seq<LoadRequest>): seq<Step>
    requires |calls| == |requests|
  {
    if calls == [] then [] else
      AllSteps(calls[..|calls| - 1], requests[..|calls| - 1])
      + StepsOf(calls[|calls| - 1], requests[|calls| - 1])
  }

  /** A file that the loader can be run on, whatever an earlier one has left behind it in the buffer. */
  ghost predicate Loadable(file: seq<Byte>, size: nat) {
    forall rest: seq<Byte> :: |file + rest| == MAX_ELF_FILE_SIZE ==> LoadsSafely(file + rest, size)
  }

  /** What becomes of a file that is sent while the file buffer holds `buffer`. An idle device refuses one that
      is too long; it runs the loader on any other, with what an earlier file left behind it, and there is an
      algorithm to enter, at the header's entry point, exactly when there is the signature and some loadable
      segment has contents. */
  ghost predicate FileAnswered(file: seq<Byte>, s: State, buffer: seq<Byte>, request: LoadRequest) {
    s.status == Idle && !s.halted ==>
      if |file| >= MAX_ELF_FILE_SIZE then request.TooBig?
      else
        && |buffer| == MAX_ELF_FILE_SIZE && request.Attempted?
        && WholeAnswered(file + buffer[|file|..], s.memory, request.loaded, request.entry, request.memory)
  }

  ghost predicate WholeAnswered(whole: seq<Byte>, before: seq<Byte>, loaded: bool, entry: nat, after: seq<Byte>) {
    && LoadsSafely(whole, |before|) && |after| == |before|
    && loaded == (whole[..4] == MAGIC && HasCode(Segments(whole)))
    && (loaded ==> entry == HeaderOf(whole).entry)
    && if whole[..4] == MAGIC then IsImage(Loader, whole, Segments(whole), before, after) else after == before
  }

  /** The state that call `j` finds. */
  ghost function Found(code: Code, s: State, calls: seq<Call>, requests: seq<LoadRequest>, j: nat): State
    requires Bounded(s) && j <= |requests| && j <= |calls|
  {
    Run(code, s, AllSteps(calls[..j], requests[..j]))
  }

  /** A request is what becomes of the file of a call that finds `s`, with something in the file buffer. */
  ghost predicate Answered(s: State, call: Call, request: LoadRequest) {
    call.LoadCall? ==> exists buffer: seq<Byte> :: FileAnswered(call.file, s, buffer, request)
  }

  ghost predicate AllAnswered(code: Code, s: State, calls: seq<Call>, requests: seq<LoadRequest>)
    requires Bounded(s) && |requests| <= |calls|
  {
    forall j :: 0 <= j < |requests| ==> Answered(Found(code, s, calls, requests, j), calls[j], requests[j])
  }

  lemma FoundBefore(code: Code, s: State, calls: seq<Call>, requests: seq<LoadRequest>, request: LoadRequest, j: nat)
    requires Bounded(s) && j <= |requests| < |calls|
    ensures Found(code, s, calls, requests + [request], j) == Found(code, s, calls, requests, j)
  {
    assert (requests + [request])[..j] == requests[..j];
  }

  lemma OneMoreAnswered(code: Code, s: State, calls: seq<Call>, requests: seq<LoadRequest>, request: LoadRequest)
    requires Bounded(s) && |requests| < |calls| && AllAnswered(code, s, calls, requests)
    requires Answered(Found(code, s, calls, requests, |requests|), calls[|requests|], request)
    ensures AllAnswered(code, s, calls, requests + [request])
  {
    forall j | 0 <= j <= |requests|
      ensures Answered(Found(code, s, calls, requests + [request], j), calls[j], (requests + [request])[j])
    {
      FoundBefore(code, s, calls, requests, request, j);
    }
  }

  /** What decides whether a file that is sent gets read: an idle device reads one that is not too long. */
  datatype Control = Control(status: RunStatus, halted: bool, size: nat)

  function ControlOf(s: State): Control {
    Control(s.status, s.halted, s.input.size)
  }

  function ControlAfter(c: Control, call: Call): Control {
    if c.halted then c
    else match call
         case CommandCall(SetBufferSize(samples)) =>
           if c.status == Idle && 2 * samples <= MAX_SAMPLE_BUFFER_SIZE then c.(size := 2 * samples) else c
         case CommandCall(StartConversion) =>
           if c.status == Idle then c.(status := Running, halted := c.size == 0) else c
         case CommandCall(StopConversion) => c.(status := Idle)
         case _ => c
  }

  /** A file that is read is loadable, and no command names the outcome of a load. */
  ghost predicate Callable(c: Control, call: Call, memory: nat) {
    match call
    case LoadCall(file) =>
      !c.halted && c.status == Idle && |file| < MAX_ELF_FILE_SIZE ==> Loadable(file, memory)
    case CommandCall(command) => !command.LoadAlgorithm?
    case _ => true
  }

  /** The same of a sequence of calls, each at its turn. */
  ghost predicate AllCallable(c: Control, calls: seq<Call>, memory: nat)
    decreases |calls|
  {
    calls == [] || (Callable(c, calls[0], memory) && AllCallable(ControlAfter(c, calls[0]), calls[1..], memory))
  }

  lemma TickKeepsControl(s: State, sample: Sample, onRunnerStack: bool)
    requires Bounded(s)
    ensures ControlOf(TickStep(s, sample, onRunnerStack)) == ControlOf(s)
  {
    if CompletesHalf(s) {
      CallbackLeaves(Sampled(s, sample), s.pos + 1 == s.adcSize, onRunnerStack);
    }
  }

  lemma ThreadKeepsControl(code: Code, s: State, step: Step)
    requires Bounded(s) && !step.Host? && !step.Tick?
    ensures ControlOf(Next(code, s, step)) == ControlOf(s)
  {
  }

  lemma StepKeepsControl(code: Code, s: State, step: Step)
    requires Bounded(s) && !step.Host?
    ensures ControlOf(Next(code, s, step)) == ControlOf(s)
  {
    if step.Tick? {
      TickKeepsControl(s, step.sample, step.onRunnerStack);
    } else {
      ThreadKeepsControl(code, s, step);
    }
  }

  lemma {:induction false} RunKeepsControl(code: Code, s: State, steps: seq<Step>)
    requires Bounded(s) && forall step :: step in steps ==> !step.Host?
    ensures ControlOf(Run(code, s, steps)) == ControlOf(s)
    decreases |steps|
  {
    if steps != [] {
      assert steps[0] in steps;
      StepKeepsControl(code, s, steps[0]);
      RunKeepsControl(code, Next(code, s, steps[0]), steps[1..]);
    }
  }

  lemma CommandControls(s: State, command: Command)
    requires Bounded(s) && !s.halted && !command.LoadAlgorithm?
    ensures ControlOf(HostStep(s, command)) == ControlAfter(ControlOf(s), CommandCall(command))
  {
  }

  lemma FileKeepsControl(s: State, request: LoadRequest)
    requires Bounded(s)
    ensures ControlOf(HostStep(s, LoadAlgorithm(request))) == ControlOf(s)
  {
  }

  lemma {:induction false} CopiesHaveNoCommand(n: nat)
    ensures forall step :: step in CopyBlocks(n) ==> !step.Host?
  {
    if n > 0 {
      CopiesHaveNoCommand(n - 1);
    }
  }

  lemma PassHasNoCommand(fault: Option<Leftover>)
    ensures forall step :: step in PassSteps(fault) ==> !step.Host?
  {
    CopiesHaveNoCommand(MAX_BLOCKS);
  }

  lemma QuietControls(code: Code, s: State, call: Call, request: LoadRequest)
    requires Bounded(s) && !call.CommandCall? && !call.LoadCall?
    ensures ControlOf(Run(code, s, StepsOf(call, request))) == ControlOf(s)
  {
    if call.RunnerCall? {
      PassHasNoCommand(call.fault);
    }
    RunKeepsControl(code, s, StepsOf(call, request));
  }

  /** A call does to the control what its steps do. */
  lemma CallControls(code: Code, s: State, call: Call, request: LoadRequest)
    requires Bounded(s) && (call.CommandCall? ==> !call.command.LoadAlgorithm?)
    ensures ControlOf(Run(code, s, StepsOf(call, request))) == ControlAfter(ControlOf(s), call)
  {
    if s.halted {
      HaltedRun(code, s, StepsOf(call, request));
    } else {
      match call
      case CommandCall(command) =>
        OneStep(code, s, Host(command));
        CommandControls(s, command);
      case LoadCall(_) =>
        OneStep(code, s, Host(LoadAlgorithm(request)));
        FileKeepsControl(s, request);
      case _ => QuietControls(code, s, call, request);
    }
  }

  lemma {:induction false} HaltedRun(code: Code, s: State, steps: seq<Step>)
    requires Bounded(s) && s.halted
    ensures Run(code, s, steps) == s
    decreases |steps|
  {
    if steps != [] {
      HaltedRun(code, s, steps[1..]);
    }
  }

  lemma OneStep(code: Code, s: State, step: Step)
    requires Bounded(s)
    ensures Run(code, s, [step]) == Next(code, s, step)
  {
    assert [step][1..] == [];
  }

  /** One more call. */
  lemma OneMoreCall(code: Code, s: State, calls: seq<Call>, i: nat, requests: seq<LoadRequest>, request: LoadRequest)
    requires Bounded(s) && i < |calls| && |requests| == i
    ensures Run(code, s, AllSteps(calls[..i + 1], requests + [request]))
         == Run(code, Run(code, s, AllSteps(calls[..i], requests)), StepsOf(calls[i], request))
  {
    assert calls[..i + 1][..i] == calls[..i] && (requests + [request])[..i] == requests;
    RunConcat(code, s, AllSteps(calls[..i], requests), StepsOf(calls[i], request));
  }

  class ConversionManager {
    const mailbox: Mailbox<Message>
    const input: SampleBuffer
    const output: SampleBuffer
    const errors: ErrorManager
    const elf: ElfManager
    var status: RunStatus
    var halted: bool
    var operation: Operation
    var adcState: AdcState
    var adcBuffer: Option<nat>
    var adcSize: nat
    var pos: nat
    var dacSize: nat
    var dacPos: nat
    var held: Option<Message>
    var watch: Stopwatch
    var log: Log  // history, not part of the firmware

    ghost function Repr(): set<object>
    {
      {this, mailbox, mailbox.buffer, input, input.buffer, output, output.buffer, errors, errors.queue,
       elf, elf.memory, elf.fileBuffer}
    }

    ghost predicate Valid()
      reads Repr()
    {
      && mailbox.Valid() && mailbox.buffer.Length == MAILBOX_SIZE && !mailbox.reset
      && input.Valid() && output.Valid() && errors.Valid() && elf.Valid()
      && input != output && input.buffer != output.buffer
      && Bounded(View())
    }

    /** Between calls the driver is active exactly while a conversion runs. */
    ghost predicate Driven()
      reads this
    {
      !halted ==> adcState == if status == Running then AdcActive else AdcReady
    }

    /** The state the fields and arrays stand for while the runner is at `runner`. */
    ghost function At(runner: Runner): State
      requires mailbox.Valid() && errors.Valid()
      reads this, mailbox, mailbox.buffer, input, input.buffer, output, output.buffer, errors, errors.queue,
            elf, elf.memory
    {
      State(status, halted, errors.Retained(), elf.entry, elf.memory[..], watch, input.Value(), output.Value(),
            operation, adcBuffer, adcSize, pos, dacSize, dacPos, mailbox.Queue(), held, runner, log)
    }

    /** Between calls the runner waits for a message. */
    ghost function View(): State
      requires mailbox.Valid() && errors.Valid()
      reads this, mailbox, mailbox.buffer, input, input.buffer, output, output.buffer, errors, errors.queue,
            elf, elf.memory
    {
      At(Waiting)
    }

    constructor (inMemory: array<Sample>, outMemory: array<Sample>, memory: array<Byte>)
      requires inMemory != outMemory
      requires inMemory.Length == outMemory.Length == MAX_SAMPLE_BUFFER_SIZE
      ensures Valid() && Driven() && View() == Boot(inMemory[..], outMemory[..], memory[..])
      ensures elf.memory == memory
    {
      mailbox := new Mailbox(MAILBOX_SIZE);
      input := new SampleBuffer(inMemory);
      output := new SampleBuffer(outMemory);
      errors := new ErrorManager();
      elf := new ElfManager(memory);
      status, halted, operation, adcState := Idle, false, NoOperation, AdcReady;
      adcBuffer, adcSize, pos, dacSize, dacPos := None, 0, 0, 0, 0;
      held, watch := None, Unused;
      log := Log([], 0, [], 0, 0, Tally(0, 0, 0, 0, 0, 0, [], []), [], [], []);
    }

    // ----- One component at a time -----

    method PostMessage(code: nat) returns (posted: Status)
      requires Valid() && |log.halves| > 0
      modifies mailbox, mailbox.buffer
      ensures Valid() && View() == Post(old(View()), code)
      ensures posted == if |old(View()).mailbox| < MAILBOX_SIZE then Status.Ok else TimedOut
    {
      posted := mailbox.PostI(Message(code, |log.halves| - 1));
    }

    method ResetMailbox()
      requires Valid()
      modifies mailbox
      ensures Valid() && View() == old(View()).(mailbox := [])
    {
      mailbox.ResetI();
      mailbox.ResumeX();
    }

    method MarkInput(first: bool)
      requires Valid()
      modifies input`modified
      ensures Valid()
      ensures View() == old(View()).(input := old(View()).input.(
                          modified := Some(if first then 0 else old(View()).input.Mid())))
    {
      if first {
        input.SetModified();
      } else {
        input.SetMidmodified();
      }
    }

    /** History goes on. */
    method Record(entry: Log)
      requires Valid()
      modifies this`log
      ensures Valid() && log == entry && View() == old(View()).(log := entry)
    {
      log := entry;
    }

    method NoteInput(first: bool)
      requires Valid()
      modifies input`modified, this`log
      ensures Valid() && View() == Pipeline.NoteInput(old(View()), first)
    {
      MarkInput(first);
      Record(log.(tally := log.tally.(inNotified := log.tally.inNotified + 1)));
    }

    method SetDriver(state: AdcState)
      requires Valid()
      modifies this`adcState
      ensures Valid() && adcState == state && View() == old(View())
    {
      adcState := state;
    }

    method Assert(condition: bool, error: Error) returns (ok: bool)
      requires Valid()
      modifies errors, errors.queue
      ensures Valid() && ok == condition
      ensures View() == if condition then old(View())
                        else old(View()).(errors := Push(old(View()).errors, error))
    {
      ok := errors.Assert(condition, error);
    }

    // ----- Interrupts -----

    /** `abort` while the runner is at `runner`; it waits again afterwards if it was interrupted. */
    method Abort(ghost runner: Runner)
      requires Valid() && BoundedRunner(runner)
      modifies errors, errors.queue, elf
      ensures Valid()
      ensures At(Waiting) == Pipeline.Abort(old(At(runner)), true)
    {
      elf.Unload();
      errors.Add(ConversionAborted);
    }

    method AdcReadHandler(buffer: nat)
      requires Valid() && |log.halves| > 0
      modifies mailbox, mailbox.buffer, input`modified, this`log, errors, errors.queue, elf
      ensures Valid() && View() == Pipeline.AdcReadHandler(old(View()), buffer, false)
    {
      if mailbox.cnt > 1 {
        ResetMailbox();
        Record(log.(overruns := log.overruns + 1));
        Abort(Waiting);
      } else if buffer == 0 {
        NoteInput(true);
        var _ := PostMessage(MSG_CONVFIRST);
      } else {
        NoteInput(false);
        var _ := PostMessage(MSG_CONVSECOND);
      }
    }

    method AdcReadHandlerMeasure(buffer: nat)
      requires Valid() && |log.halves| > 0
      modifies mailbox, mailbox.buffer, input`modified, this`log, this`operation
      ensures Valid() && View() == Pipeline.AdcReadHandlerMeasure(old(View()), buffer)
    {
      var posted;
      if buffer == 0 {
        NoteInput(true);
        posted := PostMessage(MSG_CONVFIRST_MEASURE);
      } else {
        NoteInput(false);
        posted := PostMessage(MSG_CONVSECOND_MEASURE);
      }
      InstallReadHandler(posted);
    }

    /** The measuring handler takes itself out again. */
    method InstallReadHandler(posted: Status)
      requires Valid()
      modifies this`operation, this`log
      ensures Valid() && View() == MeasureHandled(old(View()), posted.Ok?)
    {
      operation := ReadHandler;
      log := if posted.Ok? then log.(tally := log.tally.(measuresPosted := log.tally.measuresPosted + 1))
             else log.(dropped := log.dropped + 1);
    }

    /** The callback of the driver, which it shows ADC_COMPLETE for the second half. */
    method ConversionCallback()
      requires Valid() && Converting(View())
      modifies mailbox, mailbox.buffer, input`modified, this`log, this`operation, errors, errors.queue, elf
      ensures Valid()
      ensures View() == Pipeline.ConversionCallback(old(View()), adcState.AdcComplete?, false)
    {
      Record(log.(halves := log.halves + [adcState == AdcComplete]));
      if operation != NoOperation {
        var half := adcSize / 2;
        var buffer := if adcState == AdcComplete then adcBuffer.value + half else adcBuffer.value;
        Operate(buffer);
      }
    }

    /** The call through `m_operation`. */
    method Operate(buffer: nat)
      requires Valid() && |log.halves| > 0 && operation != NoOperation
      modifies mailbox, mailbox.buffer, input`modified, this`log, this`operation, errors, errors.queue, elf
      ensures Valid()
      ensures View() == if old(operation).ReadHandler? then Pipeline.AdcReadHandler(old(View()), buffer, false)
                        else Pipeline.AdcReadHandlerMeasure(old(View()), buffer)
    {
      if operation == ReadHandler {
        AdcReadHandler(buffer);
      } else {
        AdcReadHandlerMeasure(buffer);
      }
    }

    /** `_adc_isr_half_code`. */
    method AdcIsrHalf()
      requires Valid() && Converting(View()) && adcState == AdcActive
      modifies mailbox, mailbox.buffer, input`modified, this`log, this`operation, errors, errors.queue, elf
      ensures Valid() && View() == Pipeline.ConversionCallback(old(View()), false, false)
    {
      ConversionCallback();
    }

    /** `_adc_isr_full_code` of a circular conversion. */
    method AdcIsrFull()
      requires Valid() && Converting(View()) && adcState == AdcActive
      modifies mailbox, mailbox.buffer, input`modified, this`log, this`operation, this`adcState,
               errors, errors.queue, elf
      ensures Valid() && adcState == AdcActive
      ensures View() == Pipeline.ConversionCallback(old(View()), true, false)
    {
      SetDriver(AdcComplete);
      ConversionCallback();
      if adcState == AdcComplete {
        SetDriver(AdcActive);
      }
    }

    /** The two DMA transfers of one trigger. */
    method Transfer(sample: Sample)
      requires Valid() && Converting(View())
      modifies input.buffer, this`pos, this`dacPos, this`log
      ensures Valid() && View() == Sampled(old(View()), sample)
    {
      StoreInput(sample);
      var heard := output.buffer[dacPos];
      Advance();
      Record(log.(captured := log.captured + [sample], played := log.played + [heard]));
    }

    method StoreInput(sample: Sample)
      requires Valid() && Converting(View())
      modifies input.buffer
      ensures Valid()
      ensures View() == old(View()).(input := old(View()).input.(mem := old(View()).input.mem[pos := sample]))
    {
      input.buffer[pos] := sample;
    }

    method Advance()
      requires Valid() && Converting(View())
      modifies this`pos, this`dacPos
      ensures Valid()
      ensures View() == old(View()).(pos := if old(pos) + 1 == adcSize then 0 else old(pos) + 1,
                                     dacPos := if old(dacPos) + 1 == dacSize then 0 else old(dacPos) + 1)
    {
      pos := if pos + 1 == adcSize then 0 else pos + 1;
      dacPos := if dacPos + 1 == dacSize then 0 else dacPos + 1;
    }

    /** One trigger of the sample clock: the transfers, and the interrupt at the middle and at the end of
        the input buffer. */
    method OnTick(sample: Sample)
      requires Valid() && Driven()
      modifies Repr()
      ensures Valid() && Driven() && View() == TickStep(old(View()), sample, false)
    {
      if status == Running && !halted {
        Transfer(sample);
        if pos == adcSize / 2 {
          AdcIsrHalf();
        } else if pos == 0 {
          AdcIsrFull();
        }
      }
    }

    // ----- Threads -----

    /** `threadMonitor` up to where it blocks in `chMsgSend`. */
    method ThreadMonitor()
      requires Valid()
      modifies mailbox, this`held
      ensures Valid() && View() == FetchStep(old(View()))
    {
      if held.None? {
        held := mailbox.Fetch();
      }
    }

    /** System call 0: the monitor's message, and the monitor released. */
    method Receive() returns (message: Message)
      requires Valid() && held.Some?
      modifies this`held, this`log
      ensures Valid() && held.None?
      ensures message == old(held).value && At(Accepted(message)) == AcceptStep(old(View()))
    {
      message := held.value;
      held := None;
      log := log.(delivered := log.delivered + [message]);
    }

    /** Half, size and entry point for a message. */
    method Choose(message: Message) returns (samples: nat, size: nat, entry: nat)
      requires Valid()
      modifies this`log
      ensures Valid()
      ensures samples == HalfOf(message, input.size) && size == input.size / 2 && entry == elf.entry
      ensures At(if entry != 0 then Entered(message, samples, size, entry, false)
                 else Ready(message, size, Live(samples))) == EnterStep(old(At(Accepted(message))))
    {
      samples := if ForFirst(message.code) then 0 else input.size / 2;
      size := input.size / 2;
      entry := elf.entry;
      log := log.(entries := log.entries + [entry]);
    }

    /** System call 2 with zero. */
    method StartMeasurement(message: Message, ghost base: nat, ghost size: nat, ghost entry: nat)
      requires Valid() && ForMeasure(message.code)
      requires BoundedRunner(Entered(message, base, size, entry, false))
      modifies this`watch, this`log
      ensures Valid()
      ensures At(Entered(message, base, size, entry, true))
           == StartTimerStep(old(At(Entered(message, base, size, entry, false))))
    {
      watch := Started(message.event);
      log := log.(tally := log.tally.(started := log.tally.started + [message.event]));
    }

    /** System call 2 with one. */
    method StopMeasurement(message: Message, ghost size: nat, ghost source: Source)
      requires Valid() && BoundedRunner(Returned(message, size, source, true))
      modifies this`watch, this`log
      ensures Valid()
      ensures At(Returned(message, size, source, false))
           == StopTimerStep(old(At(Returned(message, size, source, true))))
    {
      watch := Stopped(watch, message.event);
      log := log.(tally := log.tally.(timed := log.tally.timed + [message.event]));
    }

    /** The algorithm leaves its block changed. */
    method StoreBlock(base: nat, block: seq<Sample>)
      requires Valid() && base + |block| <= MAX_SAMPLE_BUFFER_SIZE
      modifies input.buffer
      ensures Valid()
      ensures input.buffer[..] == Overwrite(old(input.buffer[..]), base, block)
    {
      forall i | 0 <= i < |block| {
        input.buffer[base + i] := block[i];
      }
      assert input.buffer[..] == Overwrite(old(input.buffer[..]), base, block);
    }

    /** The algorithm leaves its memory changed. */
    method StoreMemory(memory: seq<Byte>)
      requires Valid() && |memory| == elf.memory.Length
      modifies elf.memory
      ensures Valid() && elf.memory[..] == memory
    {
      forall i | 0 <= i < |memory| {
        elf.memory[i] := memory[i];
      }
      assert elf.memory[..] == memory;
    }

    /** What an algorithm does, whether it comes to its end or not. */
    method Change(base: nat, left: Leftover, ghost runner: Runner)
      requires Valid() && base + |left.block| <= MAX_SAMPLE_BUFFER_SIZE && |left.memory| == elf.memory.Length
      modifies input.buffer, elf.memory
      ensures Valid()
      ensures At(runner) == old(At(runner)).(memory := left.memory, input := old(At(runner)).input.(
                              mem := Overwrite(old(At(runner)).input.mem, base, left.block)))
    {
      StoreBlock(base, left.block);
      StoreMemory(left.memory);
    }

    /** `entry(samples, size)`. */
    method CallEntry(code: Code, message: Message, samples: nat, size: nat, entry: nat, ghost timing: bool)
      returns (source: Source)
      requires Valid() && BoundedRunner(Entered(message, samples, size, entry, timing))
      requires ForMeasure(message.code) == timing
      modifies input.buffer, elf.memory
      ensures Valid() && BoundedRunner(Returned(message, size, source, timing))
      ensures At(Returned(message, size, source, timing))
           == ComputeStep(code, old(At(Entered(message, samples, size, entry, timing))))
    {
      var outcome := code(entry, elf.memory[..], input.buffer[..][samples..samples + size]);
      CopyCountMonotone(size, MAX_SAMPLE_BUFFER_SIZE / 2);
      Change(samples, Leftover(outcome.memory, outcome.block), Entered(message, samples, size, entry, timing));
      source := SourceOf(outcome, samples);
    }

    /** The samples a source provides, at the returned offset of the returned array. */
    method SourceArray(source: Source, ghost s: State, ghost n: nat) returns (data: array<Sample>, start: nat)
      requires Valid() && s.input.mem == input.buffer[..] && Pipeline.Covers(source, n)
      ensures data != output.buffer
      ensures start + n <= data.Length && data[start..start + n] == SamplesOf(s, source, n)
    {
      match source
      case Live(base) =>
        data, start := input.buffer, base;
      case Fixed(samples) =>
        data, start := new Sample[|samples|](i requires 0 <= i < |samples| => samples[i]), 0;
    }

    /** `modify` or `midmodify` of the output buffer. */
    method WriteOutput(message: Message, size: nat, data: array<Sample>, start: nat, ghost ready: State)
      requires output.Valid() && data != output.buffer && Bounded(ready) && ready.output == output.Value()
      requires ready.runner.Ready? && ready.runner.msg == message && ready.runner.size == size
      requires start + CopyCount(size) <= data.Length
      requires data[start..start + CopyCount(size)] == SamplesOf(ready, ready.runner.source, CopyCount(size))
      modifies output`modified, output.buffer
      ensures output.Valid() && output.Value() == WholeCopy(ready)
    {
      assert data[start..][..CopyCount(size)] == data[start..start + CopyCount(size)];
      WholeCopyOf(ready, data[start..]);
      if ForFirst(message.code) {
        output.Modify(data, start, size);
      } else {
        output.MidModify(data, start, size);
      }
    }

    /** The copy, with the runner at `ready`. */
    method CopyOut(message: Message, size: nat, source: Source, ghost ready: State)
      requires Valid() && BoundedRunner(Ready(message, size, source)) && ready == At(Ready(message, size, source))
      modifies output`modified, output.buffer
      ensures Valid() && View() == ready.(runner := Waiting, output := WholeCopy(ready))
    {
      var data, start := SourceArray(source, ready, CopyCount(size));
      WriteOutput(message, size, data, start, ready);
    }

    /** The last statement of the loop. */
    method UpdateOutput(message: Message, size: nat, source: Source, ghost ready: State)
      requires Valid() && BoundedRunner(Ready(message, size, source)) && ready == At(Ready(message, size, source))
      modifies output`modified, output.buffer, this`log
      ensures Valid() && View() == Copied(ready)
    {
      CopyOut(message, size, source, ready);
      Record(log.(tally := log.tally.(outNotified := log.tally.outNotified + 1)));
    }

    /** The call of a loaded algorithm, with the stopwatch around it when the message is marked. */
    method RunAlgorithm(code: Code, message: Message, samples: nat, size: nat, entry: nat) returns (source: Source)
      requires Valid() && BoundedRunner(Entered(message, samples, size, entry, false))
      modifies input.buffer, elf.memory, this`watch, this`log
      ensures Valid() && BoundedRunner(Ready(message, size, source))
      ensures At(Ready(message, size, source))
           == Decided(code, StartTimerStep(old(At(Entered(message, samples, size, entry, false)))))
    {
      if !ForMeasure(message.code) {
        source := CallEntry(code, message, samples, size, entry, false);
      } else {
        StartMeasurement(message, samples, size, entry);
        source := CallEntry(code, message, samples, size, entry, true);
        StopMeasurement(message, size, source);
      }
    }

    /** What an algorithm did that did not come to its end. */
    method Scratch(message: Message, samples: nat, size: nat, ghost entry: nat, left: Leftover)
      requires Valid() && BoundedRunner(Entered(message, samples, size, entry, ForMeasure(message.code)))
      modifies input.buffer, elf.memory
      ensures Valid()
      ensures At(Entered(message, samples, size, entry, ForMeasure(message.code)))
           == ScratchStep(old(At(Entered(message, samples, size, entry, ForMeasure(message.code)))), left)
    {
      if |left.block| == size && |left.memory| == elf.memory.Length {
        Change(samples, left, Entered(message, samples, size, entry, ForMeasure(message.code)));
      }
    }

    /** A call that ends in a fault: what the algorithm did until then, and the fault handler. */
    method FaultAlgorithm(message: Message, samples: nat, size: nat, ghost entry: nat, left: Leftover)
      requires Valid() && BoundedRunner(Entered(message, samples, size, entry, false))
      modifies input.buffer, elf.memory, this`watch, this`log, errors, errors.queue, elf
      ensures Valid()
      ensures View() == FaultStep(ScratchStep(StartTimerStep(old(At(Entered(message, samples, size, entry, false)))),
                                              left))
    {
      if ForMeasure(message.code) {
        StartMeasurement(message, samples, size, entry);
      }
      Scratch(message, samples, size, entry, left);
      Abort(Entered(message, samples, size, entry, ForMeasure(message.code)));
    }

    /** What is to be copied: what the algorithm returned, or the samples themselves when none is loaded. */
    method Evaluate(code: Code, message: Message, samples: nat, size: nat, entry: nat, ghost chosen: State)
      returns (source: Source)
      requires Valid() && BoundedRunner(Entered(message, samples, size, entry, false))
      requires BoundedRunner(Ready(message, size, Live(samples))) && Bounded(chosen)
      requires chosen == At(if entry != 0 then Entered(message, samples, size, entry, false)
                            else Ready(message, size, Live(samples)))
      modifies input.buffer, elf.memory, this`watch, this`log
      ensures Valid() && BoundedRunner(Ready(message, size, source))
      ensures At(Ready(message, size, source)) == Decided(code, StartTimerStep(chosen))
    {
      source := Live(samples);
      if entry != 0 {
        source := RunAlgorithm(code, message, samples, size, entry);
      } else {
        DecidedRunner(code, chosen);
      }
    }

    /** The rest of a pass whose algorithm does not fault. */
    method RunMessage(code: Code, message: Message, samples: nat, size: nat, entry: nat, ghost chosen: State)
      requires Valid() && BoundedRunner(Entered(message, samples, size, entry, false))
      requires BoundedRunner(Ready(message, size, Live(samples))) && Bounded(chosen)
      requires chosen == At(if entry != 0 then Entered(message, samples, size, entry, false)
                            else Ready(message, size, Live(samples)))
      modifies this`watch, this`log, input.buffer, elf.memory, output`modified, output.buffer
      ensures Valid()
      ensures var d := Decided(code, StartTimerStep(chosen)); d.runner.Ready? && View() == Copied(d)
    {
      var source := Evaluate(code, message, samples, size, entry, chosen);
      UpdateOutput(message, size, source, At(Ready(message, size, source)));
    }

    /** The loop body of the runner. */
    method RunnerBody(code: Code, fault: Option<Leftover>)
      requires Valid() && !halted
      modifies this`held, this`watch, this`log, input.buffer, output`modified, output.buffer,
               errors, errors.queue, elf, elf.memory
      ensures Valid() && View() == Pass(code, old(View()), fault)
    {
      if held.None? {
        return;
      }
      ghost var before := View();
      var message := Receive();
      var samples, size, entry := Choose(message);
      if entry != 0 && fault.Some? {
        FaultAlgorithm(message, samples, size, entry, fault.value);
      } else {
        RunMessage(code, message, samples, size, entry, EnterStep(AcceptStep(before)));
        PassCopies(code, before, fault);
      }
    }

    /** One pass of the runner. With a message, and unless its algorithm faults, the half of the output that
        the message names comes to hold the block that it names as the algorithm makes of it, and the other
        half stays. */
    method ThreadRunner(code: Code, fault: Option<Leftover>)
      requires Valid() && !halted
      modifies this`held, this`watch, this`log, input.buffer, output`modified, output.buffer,
               errors, errors.queue, elf, elf.memory
      ensures Valid() && View() == Pass(code, old(View()), fault)
      ensures old(held).Some? && (fault.None? || old(elf.entry) == 0) ==>
                HalfWritten(old(output.Value()), output.Value(), HalfOf(old(held).value, input.size),
                            Process(code, old(elf.entry), old(elf.memory[..]),
                                    old(BlockFor(View(), held.value))))
    {
      ghost var before := View();
      RunnerBody(code, fault);
      if before.held.Some? && (fault.None? || before.entry == 0) {
        PassOutput(code, before, fault);
      }
    }

    // ----- Commands -----

    method Resize(count: nat)
      requires Valid() && status == Idle && count % 2 == 0 && count <= MAX_SAMPLE_BUFFER_SIZE
      modifies input`size, output`size
      ensures Valid()
      ensures View() == old(View()).(input := old(View()).input.(size := count),
                                     output := old(View()).output.(size := count))
    {
      input.SetSize(count);
      output.SetSize(count);
    }

    method SetBufferSize(samples: nat)
      requires Valid() && !halted
      modifies errors, errors.queue, input`size, output`size
      ensures Valid() && View() == HostStep(old(View()), Command.SetBufferSize(samples))
    {
      var idle := Assert(status == Idle, NotIdle);
      if idle {
        var count := samples * 2;
        var fits := Assert(count <= MAX_SAMPLE_BUFFER_SIZE, BadParam);
        if fits {
          Resize(count);
        }
      }
    }

    /** The bytes of a file arrive at the start of the file buffer. */
    method ReceiveFile(file: seq<Byte>)
      requires Valid() && |file| < MAX_ELF_FILE_SIZE
      modifies elf.fileBuffer
      ensures Valid() && elf.fileBuffer[..] == file + old(elf.fileBuffer[|file|..])
    {
      forall i | 0 <= i < |file| {
        elf.fileBuffer[i] := file[i];
      }
      assert elf.fileBuffer[..] == file + old(elf.fileBuffer[|file|..]);
    }

    /** Runs the loader on the file buffer. */
    method Load() returns (loaded: bool)
      requires Valid() && LoadsSafely(elf.fileBuffer[..], elf.memory.Length)
      modifies elf, elf.memory
      ensures Valid() && elf.fileBuffer[..] == old(elf.fileBuffer[..])
      ensures View() == old(View()).(entry := elf.entry, memory := elf.memory[..])
      ensures WholeAnswered(elf.fileBuffer[..], old(elf.memory[..]), loaded, elf.entry, elf.memory[..])
      ensures !loaded ==> elf.entry == 0
    {
      loaded := elf.LoadFromInternalBuffer();
    }

    /** What is done with a file that is not refused. */
    method LoadFile(file: seq<Byte>) returns (ghost request: LoadRequest)
      requires Valid() && status == Idle && !halted && |file| < MAX_ELF_FILE_SIZE && Loadable(file, elf.memory.Length)
      modifies errors, errors.queue, elf, elf.memory, elf.fileBuffer
      ensures Valid() && View() == HostStep(old(View()), Command.LoadAlgorithm(request))
      ensures FileAnswered(file, old(View()), old(elf.fileBuffer[..]), request)
      ensures elf.fileBuffer[..] == file + old(elf.fileBuffer[..])[|file|..]
    {
      ReceiveFile(file);
      var loaded := Load();
      request := Attempted(loaded, elf.entry, elf.memory[..]);
      var _ := Assert(loaded, BadUserCodeLoad);
    }

    /** The host sends a file. */
    method LoadAlgorithm(file: seq<Byte>) returns (ghost request: LoadRequest)
      requires Valid() && !halted
      requires status == Idle && |file| < MAX_ELF_FILE_SIZE ==> Loadable(file, elf.memory.Length)
      modifies errors, errors.queue, elf, elf.memory, elf.fileBuffer
      ensures Valid() && View() == HostStep(old(View()), Command.LoadAlgorithm(request))
      ensures FileAnswered(file, old(View()), old(elf.fileBuffer[..]), request)
      ensures elf.fileBuffer[..] == if status == Idle && |file| < MAX_ELF_FILE_SIZE
                                    then file + old(elf.fileBuffer[..])[|file|..] else old(elf.fileBuffer[..])
    {
      request := TooBig;
      var idle := Assert(status == Idle, NotIdle);
      if idle {
        var fits := Assert(|file| < MAX_ELF_FILE_SIZE, BadUserCodeSize);
        if fits {
          request := LoadFile(file);
        }
      }
    }

    method UnloadAlgorithm()
      requires Valid() && !halted
      modifies elf
      ensures Valid() && View() == HostStep(old(View()), Command.UnloadAlgorithm) && elf.entry == 0
    {
      elf.Unload();
    }

    /** `startMeasurement`. */
    method StartMeasuring()
      requires Valid()
      modifies this`operation, this`log
      ensures Valid()
      ensures View() == old(View()).(operation := MeasureHandler, log := old(log).(
                          tally := old(log).tally.(measuresAccepted := old(log).tally.measuresAccepted + 1)))
    {
      operation := MeasureHandler;
      log := log.(tally := log.tally.(measuresAccepted := log.tally.measuresAccepted + 1));
    }

    method MeasureConversion()
      requires Valid() && !halted
      modifies errors, errors.queue, this`operation, this`log
      ensures Valid() && View() == HostStep(old(View()), Command.MeasureConversion)
      ensures status == Running ==> operation == MeasureHandler
    {
      var running := Assert(status == Running, NotRunning);
      if running {
        StartMeasuring();
      }
    }

    method ClearOutput()
      requires Valid()
      modifies output.buffer
      ensures Valid()
      ensures View() == old(View()).(output := old(View()).output.(
                          mem := Overwrite(old(View()).output.mem, 0, Repeat(MIDSCALE, output.size))))
    {
      output.Clear();
    }

    /** `ADC::start` on the input buffer. */
    method AdcStart()
      requires Valid() && status == Idle
      modifies this`adcBuffer, this`adcSize, this`operation, this`pos
      ensures Valid()
      ensures View() == old(View()).(operation := ReadHandler, adcBuffer := Some(0),
                                     adcSize := input.size, pos := 0)
    {
      adcBuffer := Some(0);
      adcSize := input.size;
      operation := ReadHandler;
      pos := 0;
    }

    /** `DAC::start` of channel 0 on the output buffer. */
    method DacStart()
      requires Valid() && status == Idle
      modifies this`dacSize, this`dacPos
      ensures Valid() && View() == old(View()).(dacSize := output.size, dacPos := 0)
    {
      dacSize := output.size;
      dacPos := 0;
    }

    /** The status the host sees; an empty buffer has failed a kernel check by now. */
    method OpenSession()
      requires Valid() && adcBuffer == Some(0) && adcSize == dacSize == input.size && pos == dacPos == 0
      modifies this`status, this`halted, this`log
      ensures Valid()
      ensures View() == old(View()).(
                status := Running, halted := input.size == 0,
                log := old(log).(sessionStart := |old(log).halves|, captured := [], played := [], entries := []))
    {
      status := Running;
      halted := input.size == 0;
      log := log.(sessionStart := |log.halves|, captured := [], played := [], entries := []);
    }

    /** `ConversionManager::start` with the status set around it. */
    method Start()
      requires Valid() && status == Idle
      modifies output.buffer, this`status, this`halted, this`adcState, this`adcBuffer, this`adcSize,
               this`operation, this`pos, this`dacSize, this`dacPos, this`log
      ensures Valid() && adcState == AdcActive && status == Running && View() == StartStep(old(View()))
    {
      ClearOutput();
      AdcStart();
      DacStart();
      OpenSession();
      SetDriver(AdcActive);
    }

    method StartConversion()
      requires Valid() && !halted && Driven()
      modifies errors, errors.queue, output.buffer, this`status, this`halted, this`adcState, this`adcBuffer,
               this`adcSize, this`operation, this`pos, this`dacSize, this`dacPos, this`log
      ensures Valid() && Driven() && View() == HostStep(old(View()), Command.StartConversion)
    {
      var idle := Assert(status == Idle, NotIdle);
      if idle {
        Start();
      }
    }

    /** `ADC::stop`, after which the device is idle. */
    method AdcStop()
      requires Valid()
      modifies this`adcBuffer, this`adcSize, this`operation, this`status
      ensures Valid()
      ensures View() == old(View()).(status := Idle, operation := NoOperation, adcBuffer := None, adcSize := 0)
    {
      status := Idle;
      adcBuffer := None;
      adcSize := 0;
      operation := NoOperation;
    }

    method StopConversion()
      requires Valid() && !halted && Driven()
      modifies errors, errors.queue, this`status, this`adcState, this`adcBuffer, this`adcSize, this`operation
      ensures Valid() && Driven() && View() == HostStep(old(View()), Command.StopConversion)
    {
      var running := Assert(status == Running, NotRunning);
      if running {
        AdcStop();
        SetDriver(AdcReady);
      }
    }

    method ReadStatus() returns (reported: (RunStatus, Error))
      requires Valid() && !halted
      modifies errors
      ensures Valid() && View() == HostStep(old(View()), Command.ReadStatus)
      ensures reported == (status, Top(old(errors.Retained())))
    {
      var error := errors.Pop();
      reported := (status, error);
    }

    /** The first line of `readConversionResults`: the half noted last, once. */
    method TakeResults() returns (half: Option<nat>)
      requires Valid() && !halted
      modifies output`modified, this`log
      ensures Valid() && View() == HostStep(old(View()), Command.ReadConversionResults)
      ensures half == old(output.modified)
    {
      half := output.TakeModified();
      log := log.(tally := log.tally.(outTaken := log.tally.outTaken + if half.Some? then 1 else 0));
    }

    /** The first line of `readConversionInput`. */
    method TakeInput() returns (half: Option<nat>)
      requires Valid() && !halted
      modifies input`modified, this`log
      ensures Valid() && View() == HostStep(old(View()), Command.ReadConversionInput)
      ensures half == old(input.modified)
    {
      half := input.TakeModified();
      log := log.(tally := log.tally.(inTaken := log.tally.inTaken + if half.Some? then 1 else 0));
    }

    /** `USBSerial::read` into the input buffer, of no more than its size. */
    method WriteAdcBuffer(data: seq<Sample>)
      requires Valid() && !halted
      modifies input.buffer
      ensures Valid() && View() == HostStep(old(View()), Command.WriteAdcBuffer(data))
    {
      StoreBlock(0, data[..if |data| < input.size then |data| else input.size]);
    }

    // ----- Any sequence of calls -----

    method Obey(command: Command)
      requires Valid() && Driven() && !halted && !command.LoadAlgorithm?
      modifies Repr()
      ensures Valid() && Driven() && View() == HostStep(old(View()), command)
    {
      match command
      case SetBufferSize(samples) => SetBufferSize(samples);
      case UnloadAlgorithm => UnloadAlgorithm();
      case MeasureConversion => MeasureConversion();
      case StartConversion => StartConversion();
      case StopConversion => StopConversion();
      case ReadStatus => var _ := ReadStatus();
      case ReadConversionResults => var _ := TakeResults();
      case ReadConversionInput => var _ := TakeInput();
      case WriteAdcBuffer(data) => WriteAdcBuffer(data);
      case LoadAlgorithm(_) => assert false;
    }

    /** The clock and the monitor. */
    method Proceed(code: Code, call: Call)
      requires Valid() && Driven() && !halted && (call.ClockCall? || call.MonitorCall?)
      modifies Repr()
      ensures Valid() && Driven() && View() == Run(code, old(View()), StepsOf(call, TooBig))
    {
      ghost var before := View();
      match call
      case ClockCall(sample) =>
        OnTick(sample);
        OneStep(code, before, Tick(sample, false));
      case MonitorCall =>
        ThreadMonitor();
        OneStep(code, before, MonitorFetch);
    }

    method ServeFile(code: Code, file: seq<Byte>) returns (ghost request: LoadRequest)
      requires Valid() && Driven() && !halted && Callable(ControlOf(View()), LoadCall(file), elf.memory.Length)
      modifies errors, errors.queue, elf, elf.memory, elf.fileBuffer
      ensures Valid() && Driven() && View() == Run(code, old(View()), StepsOf(LoadCall(file), request))
      ensures FileAnswered(file, old(View()), old(elf.fileBuffer[..]), request)
    {
      ghost var before := View();
      request := LoadAlgorithm(file);
      OneStep(code, before, Host(Command.LoadAlgorithm(request)));
    }

    method ServeCommand(code: Code, command: Command)
      requires Valid() && Driven() && !halted && !command.LoadAlgorithm?
      modifies Repr()
      ensures Valid() && Driven() && View() == Run(code, old(View()), StepsOf(CommandCall(command), TooBig))
    {
      ghost var before := View();
      Obey(command);
      OneStep(code, before, Host(command));
    }

    /** A pass of the runner. */
    method ServeRunner(code: Code, fault: Option<Leftover>)
      requires Valid() && Driven() && !halted
      modifies Repr()
      ensures Valid() && Driven() && View() == Run(code, old(View()), PassSteps(fault))
    {
      PassIsRun(code, View(), fault);
      ThreadRunner(code, fault);
    }

    /** One call, which a stopped device ignores. */
    method Respond(code: Code, call: Call) returns (ghost request: LoadRequest)
      requires Valid() && Driven() && Callable(ControlOf(View()), call, elf.memory.Length)
      modifies Repr()
      ensures Valid() && Driven() && View() == Run(code, old(View()), StepsOf(call, request))
      ensures Answered(old(View()), call, request)
    {
      request := TooBig;
      if halted {
        HaltedRun(code, View(), StepsOf(call, request));
        assert call.LoadCall? ==> FileAnswered(call.file, View(), elf.fileBuffer[..], request);
      } else {
        match call
        case RunnerCall(fault) => ServeRunner(code, fault);
        case LoadCall(file) => request := ServeFile(code, file);
        case CommandCall(command) => ServeCommand(code, command);
        case _ => Proceed(code, call);
      }
    }

    /** Call number `i` after a run of those before it. */
    method RespondNext(code: Code, calls: seq<Call>, i: nat, ghost start: State, ghost requests: seq<LoadRequest>)
      returns (ghost more: seq<LoadRequest>)
      requires Valid() && Driven() && i < |calls| && |requests| == i && Bounded(start)
      requires View() == Run(code, start, AllSteps(calls[..i], requests)) && AllAnswered(code, start, calls, requests)
      requires AllCallable(ControlOf(View()), calls[i..], elf.memory.Length)
      modifies Repr()
      ensures Valid() && Driven() && |more| == i + 1
      ensures View() == Run(code, start, AllSteps(calls[..i + 1], more)) && AllAnswered(code, start, calls, more)
      ensures AllCallable(ControlOf(View()), calls[i + 1..], elf.memory.Length)
    {
      ghost var before := View();
      ghost var request := Respond(code, calls[i]);
      assert requests[..i] == requests;
      OneMoreAnswered(code, start, calls, requests, request);
      CallControls(code, before, calls[i], request);
      assert calls[i..][1..] == calls[i + 1..];
      OneMoreCall(code, start, calls, i, requests, request);
      more := requests + [request];
    }

    method RespondAll(code: Code, calls: seq<Call>) returns (ghost requests: seq<LoadRequest>)
      requires Valid() && Driven() && AllCallable(ControlOf(View()), calls, elf.memory.Length)
      modifies Repr()
      ensures Valid() && Driven() && |requests| == |calls|
      ensures View() == Run(code, old(View()), AllSteps(calls, requests))
      ensures AllAnswered(code, old(View()), calls, requests)
    {
      requests := [];
      ghost var start := View();
      var i := 0;
      while i < |calls|
        invariant 0 <= i <= |calls| && |requests| == i
        invariant Valid() && Driven()
        invariant View() == Run(code, start, AllSteps(calls[..i], requests))
        invariant AllAnswered(code, start, calls, requests)
        invariant AllCallable(ControlOf(View()), calls[i..], elf.memory.Length)
      {
        requests := RespondNext(code, calls, i, start, requests);
        i := i + 1;
      }
      assert calls[..|calls|] == calls;
    }

    /** Any sequence of calls is a run of the step system, in which every file sent has become what it has to,
        and so keeps the accounting of events, their
        order, the agreement of halves and everything else that holds over runs. */
    method Drive(code: Code, calls: seq<Call>) returns (ghost requests: seq<LoadRequest>)
      requires Valid() && Driven() && FlowInvariant(View()) && SessionInvariant(View())
      requires AllCallable(ControlOf(View()), calls, elf.memory.Length)
      modifies Repr()
      ensures Valid() && Driven() && FlowInvariant(View()) && SessionInvariant(View())
      ensures |requests| == |calls| && View() == Run(code, old(View()), AllSteps(calls, requests))
      ensures AllAnswered(code, old(View()), calls, requests)
    {
      requests := RespondAll(code, calls);
      RunKeepsFlow(code, old(View()), AllSteps(calls, requests));
      RunKeepsSession(code, old(View()), AllSteps(calls, requests));
    }
  }
}
