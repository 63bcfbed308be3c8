/** What happens to ADC events: conservation, order, agreement of halves, and one-shot measurement,
    over every run of the pipeline. */
module PipelineFlow {
  import opened Basics
  import opened Errors
  import opened SampleBuffers
  import opened Mailboxes
  import opened Pipeline

  function Held(s: State): seq<Message> {
    if s.held.Some? then [s.held.value] else []
  }

  /** Every message still known: accepted by the runner, held by the monitor, or queued. */
  function Pending(s: State): seq<Message> {
    s.log.delivered + Held(s) + s.mailbox
  }

  // ----- Conservation, order and bounds -----

  /** Each ADC event is accepted, held, queued, part of an overrun (which discards the two queued
      messages and the event that found them), or a measured event that met a full mailbox. */
  ghost predicate Conserved(s: State) {
    |s.log.halves| == |Pending(s)| + 3 * s.log.overruns + s.log.dropped
  }

  ghost predicate InOrder(messages: seq<Message>) {
    forall i, j :: 0 <= i < j < |messages| ==> messages[i].event < messages[j].event
  }

  /** A message was posted for the half the driver filled in its event. */
  predicate Agrees(m: Message, halves: seq<bool>) {
    && 1 <= m.code <= 4
    && m.event < |halves|
    && ForFirst(m.code) == !halves[m.event]
  }

  ghost predicate AllAgree(messages: seq<Message>, halves: seq<bool>) {
    forall m :: m in messages ==> Agrees(m, halves)
  }

  ghost predicate FlowInvariant(s: State) {
    && Conserved(s)
    && |s.mailbox| <= MAILBOX_SIZE
    && InOrder(Pending(s))
    && AllAgree(Pending(s), s.log.halves)
    && (Converting(s) ==> !s.operation.NoOperation?)
  }

  // ----- The interrupt -----

  lemma AgreesLater(messages: seq<Message>, halves: seq<bool>, complete: bool)
    requires AllAgree(messages, halves)
    ensures AllAgree(messages, halves + [complete])
  {
    forall m | m in messages ensures Agrees(m, halves + [complete]) {
      assert Agrees(m, halves);
    }
  }

  lemma AppendInOrder(messages: seq<Message>, m: Message, halves: seq<bool>)
    requires InOrder(messages) && AllAgree(messages, halves)
    requires m.event == |halves|
    ensures InOrder(messages + [m])
  {
    forall i | 0 <= i < |messages| ensures messages[i].event < m.event {
      assert messages[i] in messages;
    }
  }

  lemma PrefixKeepsOrder(messages: seq<Message>, n: nat, halves: seq<bool>)
    requires n <= |messages|
    requires InOrder(messages) && AllAgree(messages, halves)
    ensures InOrder(messages[..n]) && AllAgree(messages[..n], halves)
  {
    assert forall m :: m in messages[..n] ==> m in messages;
  }

  /** An overrun: both queued messages and the event itself go. */
  lemma OverrunKeepsFlow(s: State, r: State, complete: bool)
    requires FlowInvariant(s) && |s.mailbox| == 2
    requires r.log.halves == s.log.halves + [complete]
    requires r.log == s.log.(halves := r.log.halves, overruns := s.log.overruns + 1)
    requires r.held == s.held && r.mailbox == [] && !r.operation.NoOperation?
    ensures FlowInvariant(r)
  {
    var kept := s.log.delivered + Held(s);
    assert Pending(r) == kept == Pending(s)[..|kept|];
    PrefixKeepsOrder(Pending(s), |kept|, s.log.halves);
    AgreesLater(kept, s.log.halves, complete);
  }

  /** A message posted for the new event, or a measured one that found the mailbox full. */
  lemma PostKeepsFlow(s: State, r: State, complete: bool, m: Message)
    requires FlowInvariant(s)
    requires r.log.halves == s.log.halves + [complete]
    requires r.log.delivered == s.log.delivered && r.log.overruns == s.log.overruns
    requires r.log.dropped == if |s.mailbox| < MAILBOX_SIZE then s.log.dropped else s.log.dropped + 1
    requires r.held == s.held && r.mailbox == Posted(s.mailbox, MAILBOX_SIZE, m)
    requires Agrees(m, r.log.halves) && m.event == |s.log.halves| && !r.operation.NoOperation?
    ensures FlowInvariant(r)
  {
    AgreesLater(Pending(s), s.log.halves, complete);
    if |s.mailbox| < MAILBOX_SIZE {
      assert Pending(r) == Pending(s) + [m];
      AppendInOrder(Pending(s), m, s.log.halves);
    } else {
      assert Pending(r) == Pending(s);
    }
  }

  /** The interrupt keeps the invariant: the post of the ordinary handler never meets a full
      mailbox, and the half it encodes is the one the driver just filled. */
  lemma CallbackKeepsFlow(s: State, complete: bool, onRunnerStack: bool)
    requires Bounded(s) && Converting(s) && FlowInvariant(s)
    ensures FlowInvariant(ConversionCallback(s, complete, onRunnerStack))
  {
    var r := ConversionCallback(s, complete, onRunnerStack);
    if s.operation.ReadHandler? && |s.mailbox| > 1 {
      OverrunKeepsFlow(s, r, complete);
    } else if s.operation.ReadHandler? {
      PostKeepsFlow(s, r, complete, Message(if complete then MSG_CONVSECOND else MSG_CONVFIRST, |s.log.halves|));
    } else {
      PostKeepsFlow(s, r, complete, Message(if complete then MSG_CONVSECOND_MEASURE else MSG_CONVFIRST_MEASURE,
                                            |s.log.halves|));
    }
  }

  // ----- All steps -----

  lemma ThreadsKeepFlow(s: State)
    requires Bounded(s) && FlowInvariant(s)
    ensures FlowInvariant(FetchStep(s))
    ensures FlowInvariant(AcceptStep(s))
  {
    if s.held.None? && s.mailbox != [] {
      assert s.mailbox == [s.mailbox[0]] + s.mailbox[1..];
      assert Pending(FetchStep(s)) == Pending(s);
    }
    assert Pending(AcceptStep(s)) == Pending(s);
  }

  /** The parts of the state the message flow lives in. */
  function FlowOf(s: State): (seq<bool>, seq<Message>, Option<Message>, seq<Message>, nat, nat) {
    (s.log.halves, s.log.delivered, s.held, s.mailbox, s.log.overruns, s.log.dropped)
  }

  lemma HostLeavesFlow(s: State, command: Command)
    requires Bounded(s)
    ensures FlowOf(HostStep(s, command)) == FlowOf(s)
  {
  }

  lemma HostLeavesHandler(s: State, command: Command)
    requires Bounded(s) && (Converting(s) ==> !s.operation.NoOperation?)
    ensures var r := HostStep(s, command); Converting(r) ==> !r.operation.NoOperation?
  {
  }

  lemma SameFlow(s: State, r: State)
    requires FlowInvariant(s) && FlowOf(r) == FlowOf(s) && (Converting(r) ==> !r.operation.NoOperation?)
    ensures FlowInvariant(r)
  {
    assert Pending(r) == Pending(s);
  }

  /** No command touches the message flow. */
  lemma HostKeepsFlow(s: State, command: Command)
    requires Bounded(s) && FlowInvariant(s)
    ensures FlowInvariant(HostStep(s, command))
  {
    HostLeavesFlow(s, command);
    HostLeavesHandler(s, command);
    SameFlow(s, HostStep(s, command));
  }

  lemma StepKeepsFlow(code: Code, s: State, step: Step)
    requires Bounded(s) && FlowInvariant(s)
    ensures FlowInvariant(Next(code, s, step))
  {
    match step
    case Tick(sample, onRunnerStack) =>
      if CompletesHalf(s) {
        CallbackKeepsFlow(Sampled(s, sample), s.pos + 1 == s.adcSize, onRunnerStack);
      }
    case MonitorFetch => ThreadsKeepFlow(s);
    case RunnerAccept => ThreadsKeepFlow(s);
    case Host(command) => HostKeepsFlow(s, command);
    case _ => SameFlow(s, Next(code, s, step));
  }

  /** Conservation, order and bounds over every run: from boot, in whatever order interrupts,
      threads and commands interleave, events are accounted for exactly, what was accepted, is held
      or is queued is strictly increasing in event number, at most two messages are queued, and
      every message names the half that was filled. */
  lemma {:induction false} RunKeepsFlow(code: Code, s: State, steps: seq<Step>)
    requires Bounded(s) && FlowInvariant(s)
    ensures FlowInvariant(Run(code, s, steps))
    decreases |steps|
  {
    if steps != [] {
      StepKeepsFlow(code, s, steps[0]);
      RunKeepsFlow(code, Next(code, s, steps[0]), steps[1..]);
    }
  }

  // ----- Sessions -----

  /** Within a session the driver fills first and second halves in turn, and its position tells
      which comes next. */
  ghost predicate Alternating(s: State) {
    && s.log.sessionStart <= |s.log.halves|
    && (forall i :: s.log.sessionStart <= i < |s.log.halves| ==>
          s.log.halves[i] == ((i - s.log.sessionStart) % 2 == 1))
    && (Converting(s) ==> (s.pos < s.adcSize / 2) == ((|s.log.halves| - s.log.sessionStart) % 2 == 0))
  }

  /** Buffer sizes are frozen while converting, and input and output move in step. */
  ghost predicate Frozen(s: State) {
    Converting(s) ==> s.adcSize == s.dacSize == s.input.size && s.dacPos == s.pos
  }

  /** Each measured message was asked for: accepted requests cover those posted, those dropped and
      the one still armed. */
  ghost predicate MeasuredOnce(s: State) {
    s.log.tally.measuresPosted + s.log.dropped + (if s.operation.MeasureHandler? then 1 else 0)
      <= s.log.tally.measuresAccepted
  }

  /** Each half of either buffer handed to the host was noted before, and at most once. */
  ghost predicate NotedOnce(s: State) {
    && s.log.tally.outTaken + (if s.output.modified.Some? then 1 else 0) <= s.log.tally.outNotified
    && s.log.tally.inTaken + (if s.input.modified.Some? then 1 else 0) <= s.log.tally.inNotified
  }

  ghost predicate ErrorsReal(s: State) {
    |s.errors| <= MAX_ERROR_QUEUE_SIZE && NoError !in s.errors
  }

  ghost predicate SessionInvariant(s: State) {
    Alternating(s) && Frozen(s) && MeasuredOnce(s) && NotedOnce(s) && ErrorsReal(s)
  }

  lemma PushKeepsReal(errors: seq<Error>, error: Error)
    requires |errors| <= MAX_ERROR_QUEUE_SIZE && NoError !in errors && error != NoError
    ensures |Push(errors, error)| <= MAX_ERROR_QUEUE_SIZE && NoError !in Push(errors, error)
  {
  }

  /** What a sample trigger does to positions and to the count of events. */
  ghost predicate Ticked(s: State, r: State) {
    if !Converting(s) then r == s
    else
      && Converting(r) && r.adcSize == s.adcSize && r.dacSize == s.dacSize && r.input.size == s.input.size
      && r.pos == (if s.pos + 1 == s.adcSize then 0 else s.pos + 1)
      && r.dacPos == (if s.dacPos + 1 == s.dacSize then 0 else s.dacPos + 1)
      && r.log.sessionStart == s.log.sessionStart
      && r.log.halves == if CompletesHalf(s) then s.log.halves + [s.pos + 1 == s.adcSize] else s.log.halves
  }

  /** The state a handler finds. */
  function Called(s: State, complete: bool): State {
    s.(log := s.log.(halves := s.log.halves + [complete]))
  }

  /** What the interrupt leaves alone. */
  ghost predicate CallLeaves(s: State, r: State, complete: bool) {
    && Converting(r) && r.adcSize == s.adcSize && r.dacSize == s.dacSize && r.input.size == s.input.size
    && r.pos == s.pos && r.dacPos == s.dacPos && r.log.sessionStart == s.log.sessionStart
    && r.log.halves == s.log.halves + [complete]
  }

  lemma HandlersLeave(s: State, complete: bool, buffer: nat, onRunnerStack: bool)
    requires Bounded(s) && Converting(s)
    ensures CallLeaves(s, AdcReadHandler(Called(s, complete), buffer, onRunnerStack), complete)
    ensures CallLeaves(s, AdcReadHandlerMeasure(Called(s, complete), buffer), complete)
  {
  }

  lemma CallbackLeaves(s: State, complete: bool, onRunnerStack: bool)
    requires Bounded(s) && Converting(s)
    ensures CallLeaves(s, ConversionCallback(s, complete, onRunnerStack), complete)
  {
    HandlersLeave(s, complete, if complete then s.adcBuffer.value + s.adcSize / 2 else s.adcBuffer.value,
                  onRunnerStack);
  }

  lemma TickTicked(s: State, sample: Sample, onRunnerStack: bool)
    requires Bounded(s)
    ensures Ticked(s, TickStep(s, sample, onRunnerStack))
  {
    if CompletesHalf(s) {
      CallbackLeaves(Sampled(s, sample), s.pos + 1 == s.adcSize, onRunnerStack);
    }
  }

  lemma TickKeepsAlternating(s: State, r: State)
    requires Bounded(s) && Alternating(s) && Frozen(s) && Ticked(s, r)
    ensures Alternating(r) && Frozen(r)
  {
  }

  lemma HandlerKeepsCounts(s: State, complete: bool, buffer: nat, onRunnerStack: bool)
    requires Bounded(s) && MeasuredOnce(s) && NotedOnce(s) && s.operation.ReadHandler?
    ensures var r := AdcReadHandler(Called(s, complete), buffer, onRunnerStack); MeasuredOnce(r) && NotedOnce(r)
  {
  }

  lemma MeasureKeepsCounts(s: State, complete: bool, buffer: nat)
    requires Bounded(s) && MeasuredOnce(s) && NotedOnce(s) && s.operation.MeasureHandler?
    ensures var r := AdcReadHandlerMeasure(Called(s, complete), buffer); MeasuredOnce(r) && NotedOnce(r)
  {
  }

  lemma CallbackKeepsCounts(s: State, complete: bool, onRunnerStack: bool)
    requires Bounded(s) && Converting(s) && MeasuredOnce(s) && NotedOnce(s)
    ensures var r := ConversionCallback(s, complete, onRunnerStack);
            MeasuredOnce(r) && NotedOnce(r)
  {
    var buffer := if complete then s.adcBuffer.value + s.adcSize / 2 else s.adcBuffer.value;
    if s.operation.ReadHandler? {
      HandlerKeepsCounts(s, complete, buffer, onRunnerStack);
    } else if s.operation.MeasureHandler? {
      MeasureKeepsCounts(s, complete, buffer);
    }
  }

  lemma TickKeepsCounts(s: State, sample: Sample, onRunnerStack: bool)
    requires Bounded(s) && MeasuredOnce(s) && NotedOnce(s)
    ensures var r := TickStep(s, sample, onRunnerStack);
            MeasuredOnce(r) && NotedOnce(r)
  {
    if CompletesHalf(s) {
      CallbackKeepsCounts(Sampled(s, sample), s.pos + 1 == s.adcSize, onRunnerStack);
    }
  }

  lemma TickKeepsErrors(s: State, sample: Sample, onRunnerStack: bool)
    requires Bounded(s) && ErrorsReal(s)
    ensures ErrorsReal(TickStep(s, sample, onRunnerStack))
  {
    PushKeepsReal(s.errors, ConversionAborted);
  }

  lemma HostKeepsErrors(s: State, command: Command)
    requires Bounded(s) && ErrorsReal(s)
    ensures ErrorsReal(HostStep(s, command))
  {
    PushKeepsReal(s.errors, NotIdle);
    PushKeepsReal(s.errors, BadParam);
    PushKeepsReal(s.errors, BadUserCodeSize);
    PushKeepsReal(s.errors, BadUserCodeLoad);
    PushKeepsReal(s.errors, NotRunning);
  }

  /** The parts of the state that sessions are about. */
  function SessionOf(s: State): (bool, (nat, nat, nat), (nat, nat), nat, seq<bool>) {
    (Converting(s), (s.adcSize, s.dacSize, s.input.size), (s.pos, s.dacPos), s.log.sessionStart, s.log.halves)
  }

  lemma SameSession(s: State, r: State)
    requires Alternating(s) && Frozen(s) && SessionOf(r) == SessionOf(s)
    ensures Alternating(r) && Frozen(r)
  {
  }

  /** Commands leave the session alone, but for those that start one, end one or set the size for the next. */
  lemma HostLeavesSession(s: State, command: Command)
    requires Bounded(s) && !command.StartConversion? && !command.StopConversion? && !command.SetBufferSize?
    ensures SessionOf(HostStep(s, command)) == SessionOf(s)
  {
  }

  lemma IdleKeepsAlternating(s: State, command: Command)
    requires Bounded(s) && Alternating(s) && Frozen(s)
    requires command.StartConversion? || command.StopConversion? || command.SetBufferSize?
    ensures Alternating(HostStep(s, command)) && Frozen(HostStep(s, command))
  {
  }

  lemma HostKeepsAlternating(s: State, command: Command)
    requires Bounded(s) && Alternating(s) && Frozen(s)
    ensures Alternating(HostStep(s, command)) && Frozen(HostStep(s, command))
  {
    if command.StartConversion? || command.StopConversion? || command.SetBufferSize? {
      IdleKeepsAlternating(s, command);
    } else {
      HostLeavesSession(s, command);
      SameSession(s, HostStep(s, command));
    }
  }

  lemma HostKeepsMeasured(s: State, command: Command)
    requires Bounded(s) && MeasuredOnce(s)
    ensures MeasuredOnce(HostStep(s, command))
  {
  }

  lemma HostKeepsNoted(s: State, command: Command)
    requires Bounded(s) && NotedOnce(s)
    ensures NotedOnce(HostStep(s, command))
  {
  }

  lemma HostKeepsSession(s: State, command: Command)
    requires Bounded(s) && SessionInvariant(s)
    ensures SessionInvariant(HostStep(s, command))
  {
    HostKeepsErrors(s, command);
    HostKeepsAlternating(s, command);
    HostKeepsMeasured(s, command);
    HostKeepsNoted(s, command);
  }

  lemma TickKeepsSession(s: State, sample: Sample, onRunnerStack: bool)
    requires Bounded(s) && SessionInvariant(s)
    ensures SessionInvariant(TickStep(s, sample, onRunnerStack))
  {
    TickTicked(s, sample, onRunnerStack);
    TickKeepsAlternating(s, TickStep(s, sample, onRunnerStack));
    TickKeepsCounts(s, sample, onRunnerStack);
    TickKeepsErrors(s, sample, onRunnerStack);
  }

  lemma ThreadLeavesSession(code: Code, s: State, step: Step)
    requires Bounded(s) && !step.Tick? && !step.Host?
    ensures SessionOf(Next(code, s, step)) == SessionOf(s)
  {
  }

  lemma ThreadKeepsAlternating(code: Code, s: State, step: Step)
    requires Bounded(s) && Alternating(s) && Frozen(s) && !step.Tick? && !step.Host?
    ensures Alternating(Next(code, s, step)) && Frozen(Next(code, s, step))
  {
    ThreadLeavesSession(code, s, step);
    SameSession(s, Next(code, s, step));
  }

  lemma ThreadKeepsCounts(code: Code, s: State, step: Step)
    requires Bounded(s) && MeasuredOnce(s) && NotedOnce(s) && !step.Tick? && !step.Host?
    ensures MeasuredOnce(Next(code, s, step)) && NotedOnce(Next(code, s, step))
  {
  }

  lemma ThreadKeepsErrors(code: Code, s: State, step: Step)
    requires Bounded(s) && ErrorsReal(s) && !step.Tick? && !step.Host?
    ensures ErrorsReal(Next(code, s, step))
  {
    PushKeepsReal(s.errors, ConversionAborted);
  }

  lemma ThreadKeepsSession(code: Code, s: State, step: Step)
    requires Bounded(s) && SessionInvariant(s) && !step.Tick? && !step.Host?
    ensures SessionInvariant(Next(code, s, step))
  {
    ThreadKeepsAlternating(code, s, step);
    ThreadKeepsCounts(code, s, step);
    ThreadKeepsErrors(code, s, step);
  }

  lemma StepKeepsSession(code: Code, s: State, step: Step)
    requires Bounded(s) && SessionInvariant(s)
    ensures SessionInvariant(Next(code, s, step))
  {
    match step
    case Tick(sample, onRunnerStack) => TickKeepsSession(s, sample, onRunnerStack);
    case Host(command) => HostKeepsSession(s, command);
    case _ => ThreadKeepsSession(code, s, step);
  }

  lemma {:induction false} RunKeepsSession(code: Code, s: State, steps: seq<Step>)
    requires Bounded(s) && SessionInvariant(s)
    ensures SessionInvariant(Run(code, s, steps))
    decreases |steps|
  {
    if steps != [] {
      StepKeepsSession(code, s, steps[0]);
      RunKeepsSession(code, Next(code, s, steps[0]), steps[1..]);
    }
  }

  // ----- Consequences in every reachable state -----

  /** Some run leads from boot to `s`. */
  ghost predicate Reachable(code: Code, s: State) {
    exists inMem: seq<Sample>, outMem: seq<Sample>, memory: seq<Byte>, steps: seq<Step> ::
      && |inMem| == |outMem| == MAX_SAMPLE_BUFFER_SIZE
      && s == Run(code, Boot(inMem, outMem, memory), steps)
  }

  lemma ReachableInvariants(code: Code, s: State)
    requires Reachable(code, s)
    ensures Bounded(s) && FlowInvariant(s) && SessionInvariant(s)
  {
    var inMem: seq<Sample>, outMem: seq<Sample>, memory: seq<Byte>, steps: seq<Step> :|
      && |inMem| == |outMem| == MAX_SAMPLE_BUFFER_SIZE
      && s == Run(code, Boot(inMem, outMem, memory), steps);
    RunKeepsFlow(code, Boot(inMem, outMem, memory), steps);
    RunKeepsSession(code, Boot(inMem, outMem, memory), steps);
  }

  /** The start of the half that the ADC callback passes to its handler. */
  function CallbackBuffer(s: State): nat
    requires Bounded(s) && Converting(s)
  {
    s.adcBuffer.value + if s.pos + 1 == s.adcSize then s.adcSize / 2 else 0
  }

  lemma HalvesAgree(s: State, r: State)
    requires Bounded(s) && Alternating(s) && Frozen(s) && CompletesHalf(s) && Ticked(s, r)
    ensures var complete := (|s.log.halves| - s.log.sessionStart) % 2 == 1;
            && 0 < s.input.Mid()
            && CallbackBuffer(s) == (if complete then s.input.Mid() else 0)
            && r.log.halves == s.log.halves + [complete]
  {
  }

  /** Half agreement: the pointer the ADC callback passes is the start or the middle of the input
      buffer as the buffer itself reports it, these differ, and which of the two it is follows the
      parity of the event, as does the half the driver reports filled. */
  lemma HalfAgreement(code: Code, s: State, sample: Sample, onRunnerStack: bool)
    requires Reachable(code, s) && Bounded(s) && CompletesHalf(s)
    ensures var complete := (|s.log.halves| - s.log.sessionStart) % 2 == 1;
            && 0 < s.input.Mid()
            && CallbackBuffer(s) == (if complete then s.input.Mid() else 0)
            && TickStep(s, sample, onRunnerStack).log.halves == s.log.halves + [complete]
  {
    ReachableInvariants(code, s);
    TickTicked(s, sample, onRunnerStack);
    HalvesAgree(s, TickStep(s, sample, onRunnerStack));
  }

  /** How a handler called with the half at `buffer` leaves `r`, when it finds `s`. */
  ghost predicate Handled(s: State, buffer: nat, onRunnerStack: bool, r: State) {
    && r.operation == ReadHandler
    && if |s.mailbox| < MAILBOX_SIZE then
         && |r.mailbox| == |s.mailbox| + 1 && r.mailbox[..|s.mailbox|] == s.mailbox
         && ForFirst(r.mailbox[|s.mailbox|].code) == (buffer == 0)
         && ForMeasure(r.mailbox[|s.mailbox|].code) == s.operation.MeasureHandler?
         && r.mailbox[|s.mailbox|].event == |s.log.halves|
         && r.input.modified == Some(buffer)
         && r.entry == s.entry && r.errors == s.errors && r.runner == s.runner
       else if s.operation == ReadHandler then
         && r.mailbox == [] && r.entry == 0 && r.errors == Push(s.errors, ConversionAborted)
         && r.runner == if onRunnerStack then Waiting else s.runner
       else
         r.mailbox == s.mailbox && r.entry == s.entry && r.errors == s.errors && r.runner == s.runner
  }

  lemma OrdinaryHandled(s: State, complete: bool, buffer: nat, onRunnerStack: bool)
    requires Bounded(s) && s.operation.ReadHandler? && |s.mailbox| <= MAILBOX_SIZE
    requires buffer == 0 || buffer == s.input.Mid()
    ensures Handled(s, buffer, onRunnerStack, AdcReadHandler(Called(s, complete), buffer, onRunnerStack))
  {
  }

  lemma MeasuringHandled(s: State, complete: bool, buffer: nat, onRunnerStack: bool)
    requires Bounded(s) && s.operation.MeasureHandler? && |s.mailbox| <= MAILBOX_SIZE
    requires buffer == 0 || buffer == s.input.Mid()
    ensures Handled(s, buffer, onRunnerStack, AdcReadHandlerMeasure(Called(s, complete), buffer))
  {
  }

  lemma CallbackHandled(s: State, complete: bool, onRunnerStack: bool)
    requires Bounded(s) && Converting(s) && !s.operation.NoOperation? && s.input.size == s.adcSize
    requires |s.mailbox| <= MAILBOX_SIZE
    ensures Handled(s, if complete then s.input.Mid() else 0, onRunnerStack,
                    ConversionCallback(s, complete, onRunnerStack))
  {
    var buffer := if complete then s.input.Mid() else 0;
    if s.operation.ReadHandler? {
      OrdinaryHandled(s, complete, buffer, onRunnerStack);
    } else {
      MeasuringHandled(s, complete, buffer, onRunnerStack);
    }
  }

  /** What the interrupt leaves: the ordinary handler is installed whichever ran, and with room in
      the mailbox exactly one message was posted, for the half that was filled, which is also the
      half noted for the host, and marked when a measurement was asked for. A full mailbox is emptied
      by the ordinary handler, which unloads the algorithm, reports the abort and makes the runner wait
      again if it was the runner that was interrupted, and is left alone by the measuring one. */
  lemma InterruptEffect(s: State, sample: Sample, onRunnerStack: bool)
    requires Bounded(s) && FlowInvariant(s) && Frozen(s) && CompletesHalf(s)
    ensures Handled(s, CallbackBuffer(s), onRunnerStack, TickStep(s, sample, onRunnerStack))
  {
    CallbackHandled(Sampled(s, sample), s.pos + 1 == s.adcSize, onRunnerStack);
  }

  /** Strictly increasing event numbers below a bound that equals their count are consecutive. */
  lemma {:induction false} Consecutive(messages: seq<Message>, i: nat, halves: seq<bool>)
    requires InOrder(messages) && AllAgree(messages, halves) && |messages| == |halves|
    requires i < |messages|
    ensures messages[i].event == i
  {
    AtLeast(messages, i);
    AtMost(messages, i, halves);
  }

  lemma {:induction false} AtLeast(messages: seq<Message>, i: nat)
    requires InOrder(messages) && i < |messages|
    ensures i <= messages[i].event
  {
    if i > 0 {
      AtLeast(messages, i - 1);
    }
  }

  lemma {:induction false} AtMost(messages: seq<Message>, i: nat, halves: seq<bool>)
    requires InOrder(messages) && AllAgree(messages, halves) && |messages| == |halves|
    requires i < |messages|
    ensures messages[i].event <= i
    decreases |messages| - i
  {
    assert messages[i] in messages;
    if i + 1 < |messages| {
      AtMost(messages, i + 1, halves);
    }
  }

  lemma MessagesAlternate(s: State, i: nat)
    requires FlowInvariant(s) && s.log.overruns == 0 && s.log.dropped == 0 && i < |s.log.halves|
    ensures |Pending(s)| == |s.log.halves| && Pending(s)[i].event == i
    ensures ForFirst(Pending(s)[i].code) == !s.log.halves[i]
  {
    Consecutive(Pending(s), i, s.log.halves);
    assert Pending(s)[i] in Pending(s);
  }

  lemma SessionAlternates(s: State, i: nat)
    requires FlowInvariant(s) && Alternating(s) && s.log.overruns == 0 && s.log.dropped == 0
    requires s.log.sessionStart <= i < |s.log.halves|
    ensures |Pending(s)| == |s.log.halves|
    ensures ForFirst(Pending(s)[i].code) == ((i - s.log.sessionStart) % 2 == 0)
  {
    MessagesAlternate(s, i);
    assert s.log.halves[i] == ((i - s.log.sessionStart) % 2 == 1);
  }

  /** Without an overrun or a dropped measurement every event has its message, in order, and the
      messages of the current session name the first and the second half strictly in turn. */
  lemma LosslessAlternates(code: Code, s: State, i: nat)
    requires Reachable(code, s)
    requires s.log.overruns == 0 && s.log.dropped == 0
    requires i < |s.log.halves|
    ensures |Pending(s)| == |s.log.halves| && Pending(s)[i].event == i
    ensures s.log.sessionStart <= i ==>
              ForFirst(Pending(s)[i].code) == ((i - s.log.sessionStart) % 2 == 0)
  {
    ReachableInvariants(code, s);
    MessagesAlternate(s, i);
    if s.log.sessionStart <= i {
      SessionAlternates(s, i);
    }
  }

  /** A half noted before the size changed may still be read after: its start plus the half length
      now announced stays inside the physical buffer. For the output and for the input buffer halves
      handed out never exceed halves noted, and measured messages never exceed accepted requests. */
  lemma HostViewSafe(code: Code, s: State)
    requires Reachable(code, s)
    ensures s.output.modified.Some? ==> s.output.modified.value + s.output.size / 2 <= |s.output.mem|
    ensures s.input.modified.Some? ==> s.input.modified.value + s.input.size / 2 <= |s.input.mem|
    ensures s.log.tally.outTaken <= s.log.tally.outNotified && s.log.tally.inTaken <= s.log.tally.inNotified
    ensures s.log.tally.measuresPosted <= s.log.tally.measuresAccepted
    ensures s.errors != [] <==> Top(s.errors) != NoError
  {
    ReachableInvariants(code, s);
  }
}
