/** The signal a conversion session puts out, as a function of the signal it takes in. */
module PipelineStream {
  import opened Basics
  import opened SampleBuffers
  import opened HalfBuffers
  import opened Pipeline
  import opened PipelineFlow

  // ----- Reference definition -----

  /** What the algorithm found at `entry` makes of a block; without one the block passes through. */
  function Process(code: Code, entry: nat, memory: seq<Byte>, block: seq<Sample>): (r: seq<Sample>)
    ensures |r| == |block|
  {
    if entry == 0 then block else
    var outcome := code(entry, memory, block);
    match outcome.result
    case InPlace => outcome.block
    case At(samples) => samples[..|block|]
  }

  /** The algorithm's memory after that. */
  function After(code: Code, entry: nat, memory: seq<Byte>, block: seq<Sample>): (r: seq<Byte>)
    ensures |r| == |memory|
  {
    if entry == 0 then memory else code(entry, memory, block).memory
  }

  /** The consecutive complete blocks of `h` samples in a signal. */
  function Blocks(h: nat, signal: seq<Sample>): seq<seq<Sample>>
    requires 0 < h
    decreases |signal|
  {
    if |signal| < h then [] else [signal[..h]] + Blocks(h, signal[h..])
  }

  /** The algorithm as a machine: each of the first blocks processed once and in order, with its entry
      point and with the memory that the blocks before it left. */
  function Processed(code: Code, memory: seq<Byte>, entries: seq<nat>, blocks: seq<seq<Sample>>): seq<seq<Sample>>
    requires |entries| <= |blocks|
    decreases |entries|
  {
    if entries == [] then []
    else [Process(code, entries[0], memory, blocks[0])]
         + Processed(code, After(code, entries[0], memory, blocks[0]), entries[1..], blocks[1..])
  }

  /** The memory it ends up with. */
  function MemoryAfter(code: Code, memory: seq<Byte>, entries: seq<nat>, blocks: seq<seq<Sample>>): seq<Byte>
    requires |entries| <= |blocks|
    decreases |entries|
  {
    if entries == [] then memory
    else MemoryAfter(code, After(code, entries[0], memory, blocks[0]), entries[1..], blocks[1..])
  }

  lemma {:induction false} ProcessedSnoc(code: Code, memory: seq<Byte>, entries: seq<nat>, blocks: seq<seq<Sample>>,
                                         entry: nat)
    requires |entries| < |blocks|
    ensures var m, block := MemoryAfter(code, memory, entries, blocks), blocks[|entries|];
            && Processed(code, memory, entries + [entry], blocks)
               == Processed(code, memory, entries, blocks) + [Process(code, entry, m, block)]
            && MemoryAfter(code, memory, entries + [entry], blocks) == After(code, entry, m, block)
    decreases |entries|
  {
    if entries == [] {
      assert (entries + [entry])[1..] == [];
    } else {
      assert (entries + [entry])[1..] == entries[1..] + [entry];
      ProcessedSnoc(code, After(code, entries[0], memory, blocks[0]), entries[1..], blocks[1..], entry);
    }
  }

  /** Blocks not processed yet do not matter. */
  lemma {:induction false} ProcessedSome(code: Code, memory: seq<Byte>, entries: seq<nat>, blocks: seq<seq<Sample>>,
                                         block: seq<Sample>)
    requires |entries| <= |blocks|
    ensures Processed(code, memory, entries, blocks + [block]) == Processed(code, memory, entries, blocks)
    ensures MemoryAfter(code, memory, entries, blocks + [block]) == MemoryAfter(code, memory, entries, blocks)
    decreases |entries|
  {
    if entries != [] {
      assert (blocks + [block])[1..] == blocks[1..] + [block];
      ProcessedSome(code, After(code, entries[0], memory, blocks[0]), entries[1..], blocks[1..], block);
    }
  }

  /** What a session should have put out: one buffer of mid-scale, then the captured signal processed
      block by block, starting with the memory as the session found it, as far as time has come. */
  ghost predicate StreamExact(code: Code, h: nat, memory: seq<Byte>, s: State)
    requires 0 < h
  {
    var blocks := Blocks(h, s.log.captured);
    && |s.log.entries| <= |blocks|
    && s.log.played <= Repeat(MIDSCALE, 2 * h) + Flatten(Processed(code, memory, s.log.entries, blocks))
    && |s.log.played| == |s.log.captured|
  }

  // ----- Sessions -----

  /** Nothing queued, held or being processed. */
  predicate Quiescent(s: State) {
    s.mailbox == [] && s.held.None? && s.runner.Waiting?
  }

  /** The parts of the state that the two transfers live in. */
  datatype Clock = Clock(converting: bool, armed: bool, adcSize: nat, dacSize: nat, size: nat, pos: nat, dacPos: nat)

  function ClockOf(s: State): Clock {
    Clock(Converting(s), !s.operation.NoOperation?, s.adcSize, s.dacSize, s.input.size, s.pos, s.dacPos)
  }

  /** Converting with half size `h` and both transfers in step. */
  predicate Steady(s: State, h: nat) {
    ClockOf(s) == Clock(true, true, 2 * h, 2 * h, 2 * h, s.pos, s.pos)
  }

  /** A session of half size `h` that just started. */
  ghost predicate FreshSession(s: State, h: nat) {
    && Bounded(s) && Steady(s, h) && Quiescent(s) && 0 < h && s.pos == 0
    && s.output.mem[..2 * h] == Repeat(MIDSCALE, 2 * h)
    && s.log.captured == [] && s.log.played == [] && s.log.entries == []
  }

  /** Starting from idle with a nonempty buffer and a drained pipeline opens such a session. */
  lemma StartOpensSession(s: State)
    requires Bounded(s) && s.status == Idle && Quiescent(s) && s.input.size > 0
    ensures FreshSession(StartStep(s), s.input.size / 2)
  {
  }

  /** A step of a session that goes on, without faults or samples written by the host, and whose runner
      is done with each block before the next one is complete. */
  predicate TimelyStep(s: State, step: Step) {
    && step != Host(StopConversion) && !(step.Host? && step.command.WriteAdcBuffer?)
    && !step.RunnerFault? && !step.RunnerScratch?
    && (step.Tick? && CompletesHalf(s) ==> Quiescent(s))
  }

  predicate Timely(code: Code, s: State, steps: seq<Step>)
    requires Bounded(s)
    decreases |steps|
  {
    steps == [] || (TimelyStep(s, steps[0]) && Timely(code, Next(code, s, steps[0]), steps[1..]))
  }

  lemma RoomIsLossless(s: State, complete: bool, onRunnerStack: bool)
    requires Bounded(s) && Converting(s) && s.mailbox == []
    ensures var r := ConversionCallback(s, complete, onRunnerStack);
            r.log.overruns == s.log.overruns && r.log.dropped == s.log.dropped
  {
  }

  lemma StepIsLossless(code: Code, s: State, step: Step)
    requires Bounded(s) && TimelyStep(s, step)
    ensures var r := Next(code, s, step); r.log.overruns == s.log.overruns && r.log.dropped == s.log.dropped
  {
    match step
    case Tick(sample, onRunnerStack) =>
      if CompletesHalf(s) {
        RoomIsLossless(Sampled(s, sample), s.pos + 1 == s.adcSize, onRunnerStack);
      }
    case Host(command) => HostLeavesFlow(s, command);
    case _ =>
  }

  /** In a timely session no event is lost: the overrun branch and the full mailbox are never met. */
  lemma {:induction false} TimelyIsLossless(code: Code, s: State, steps: seq<Step>)
    requires Bounded(s) && Timely(code, s, steps)
    ensures var r := Run(code, s, steps);
            r.log.overruns == s.log.overruns && r.log.dropped == s.log.dropped
    decreases |steps|
  {
    if steps != [] {
      StepIsLossless(code, s, steps[0]);
      TimelyIsLossless(code, Next(code, s, steps[0]), steps[1..]);
    }
  }

  // ----- Invariant of a timely session -----

  /** What a stretch of a session begins with: the contents of the current half of the output and of the
      other one, and the algorithm's memory. */
  datatype Origin = Origin(first: seq<Sample>, second: seq<Sample>, memory: seq<Byte>)

  /** A decomposition of the session so far: the complete blocks captured and the rest of the captured
      signal; the contents planned for each half-buffer period of the output, the algorithm's memory
      once all of them are made, and where the current half starts. */
  datatype Trace = Trace(blocks: seq<seq<Sample>>, rest: seq<Sample>, slots: seq<seq<Sample>>,
                         memory: seq<Byte>, current: nat)

  /** Every block has `h` samples. */
  ghost predicate Sized(h: nat, blocks: seq<seq<Sample>>) {
    blocks == [] || (|blocks[0]| == h && Sized(h, blocks[1..]))
  }

  /** The contents planned are the two halves of the origin and the blocks as the algorithm makes of them. */
  ghost predicate Planned(code: Code, h: nat, o: Origin, entries: seq<nat>, t: Trace) {
    && |t.slots| == 2 + |entries|
    && |entries| <= |t.blocks| <= |entries| + 1
    && Sized(h, t.blocks)
    && t.slots == [o.first, o.second] + Processed(code, o.memory, entries, t.blocks)
    && t.memory == MemoryAfter(code, o.memory, entries, t.blocks)
  }

  /** The clock is on and both DMA transfers are at the same place. */
  ghost predicate Clocked(h: nat, s: State, t: Trace) {
    && Steady(s, h) && (t.current == 0 || t.current == h)
    && |t.rest| < h && s.pos == t.current + |t.rest|
  }

  /** What was captured, and that the part of it not yet complete sits in the half from `c` on. */
  ghost predicate Capturing(h: nat, c: nat, mem: seq<Sample>, captured: seq<Sample>, blocks: seq<seq<Sample>>,
                            rest: seq<Sample>)
  {
    && c + h <= |mem| && |rest| <= h
    && mem[c..c + |rest|] == rest
    && captured == Flatten(blocks) + rest
  }

  /** The transfers: captured and played so far, and what is in the current halves. */
  ghost predicate Moving(h: nat, s: State, t: Trace) {
    && Clocked(h, s, t)
    && Capturing(h, t.current, s.input.mem, s.log.captured, t.blocks, t.rest)
    && Playing(h, t.current, s.output.mem, s.log.played, t.slots, |t.blocks|, |t.rest|)
    && |s.log.played| == |s.log.captured|
  }

  /** A message for the half that starts at `other`. */
  predicate For(m: Message, other: nat) {
    ForFirst(m.code) == (other == 0)
  }

  /** `half` is the block captured last. */
  ghost predicate LastBlock(half: seq<Sample>, t: Trace) {
    t.blocks != [] && half == t.blocks[|t.blocks| - 1]
  }

  /** The source of a copy holds `slot`; `half` is in the input buffer from `other` on. */
  ghost predicate Supplies(source: Source, other: nat, half: seq<Sample>, slot: seq<Sample>) {
    match source
    case Live(base) => base == other && half == slot
    case Fixed(samples) => |half| == |slot| <= |samples| && samples[..|slot|] == slot
  }

  /** The one message on its way, for a block nothing is planned for yet. */
  ghost predicate UnderWay(other: nat, s: State) {
    || (|s.mailbox| == 1 && For(s.mailbox[0], other) && s.held.None? && s.runner.Waiting?)
    || (s.mailbox == [] && s.held.Some? && For(s.held.value, other) && s.runner.Waiting?)
    || (s.mailbox == [] && s.held.None? && s.runner.Accepted? && For(s.runner.msg, other))
  }

  /** How far the runner is with the contents planned next. */
  ghost predicate AtWork(code: Code, other: nat, runner: Runner, memory: seq<Byte>, half: seq<Sample>,
                         outMem: seq<Sample>, t: Trace)
    requires |t.slots| == |t.blocks| + 2
  {
    var slot := t.slots[|t.blocks| + 1];
    match runner
    case Waiting => memory == t.memory && other + |half| <= |outMem| && outMem[other..other + |half|] == slot
    case Accepted(_) => false
    case Entered(msg, base, size, entry, _) =>
      && For(msg, other) && base == other && size == |half| && LastBlock(half, t) && entry != 0
      && slot == Process(code, entry, memory, half) && t.memory == After(code, entry, memory, half)
    case Returned(msg, size, source, _) =>
      memory == t.memory && For(msg, other) && size == |half| && Supplies(source, other, half, slot)
    case Ready(msg, size, source) =>
      memory == t.memory && For(msg, other) && size == |half| && Supplies(source, other, half, slot)
    case Copying(source, dest, count, done) =>
      && memory == t.memory && dest == other && count == |half| && Supplies(source, other, half, slot)
      && done <= |slot| && dest + done <= |outMem| && outMem[dest..dest + done] == slot[..done]
  }

  /** Where the processing of the last block stands, with the input half that starts at `other`. */
  ghost predicate Processing(code: Code, other: nat, half: seq<Sample>, s: State, t: Trace) {
    if |t.slots| == |t.blocks| + 1 then
      s.memory == t.memory && LastBlock(half, t) && UnderWay(other, s)
    else
      && |t.slots| == |t.blocks| + 2 && s.mailbox == [] && s.held.None?
      && AtWork(code, other, s.runner, s.memory, half, s.output.mem, t)
  }

  /** The half of a buffer from `at` on. */
  function Half(mem: seq<Sample>, h: nat, at: nat): seq<Sample> {
    if at + h <= |mem| then mem[at..at + h] else []
  }

  /** `t` is a decomposition of the session up to `s` that began with `o`. */
  ghost predicate Streaming(code: Code, h: nat, o: Origin, s: State, t: Trace) {
    && 0 < h && h % 16 == 0 && 2 * h <= MAX_SAMPLE_BUFFER_SIZE && t.current <= h
    && Planned(code, h, o, s.log.entries, t)
    && Moving(h, s, t)
    && Processing(code, h - t.current, Half(s.input.mem, h, h - t.current), s, t)
  }

  /** The decompositions of a state, those of its transfers, and those of its processing. */
  ghost function Traces(code: Code, h: nat, o: Origin, s: State): iset<Trace> {
    iset t: Trace | Streaming(code, h, o, s, t)
  }

  ghost function Motions(h: nat, s: State): iset<Trace> {
    iset t: Trace | Moving(h, s, t)
  }

  ghost function Workings(code: Code, other: nat, half: seq<Sample>, s: State): iset<Trace> {
    iset t: Trace | Processing(code, other, half, s, t)
  }

  lemma TraceParts(code: Code, h: nat, o: Origin, s: State, t: Trace)
    requires t in Traces(code, h, o, s)
    ensures t in Motions(h, s) && t in Workings(code, h - t.current, Half(s.input.mem, h, h - t.current), s)
  {
  }

  // ----- Steps that move samples -----

  /** The current block is complete and the other half becomes current. */
  function Closed(t: Trace, block: seq<Sample>): Trace {
    t.(blocks := t.blocks + [block], rest := [], current := if t.current == 0 then |block| else 0)
  }

  lemma {:induction false} SizedSnoc(h: nat, blocks: seq<seq<Sample>>, block: seq<Sample>)
    requires Sized(h, blocks) && |block| == h
    ensures Sized(h, blocks + [block])
  {
    if blocks == [] {
      assert (blocks + [block])[1..] == [];
    } else {
      assert (blocks + [block])[1..] == blocks[1..] + [block];
      SizedSnoc(h, blocks[1..], block);
    }
  }

  lemma PlanMoreBlocks(code: Code, h: nat, o: Origin, entries: seq<nat>, t: Trace, block: seq<Sample>)
    requires Planned(code, h, o, entries, t) && |entries| == |t.blocks| && |block| == h
    ensures Planned(code, h, o, entries, Closed(t, block))
  {
    SizedSnoc(h, t.blocks, block);
    ProcessedSome(code, o.memory, entries, t.blocks, block);
  }

  /** One more sample captured inside a half. */
  lemma CaptureOne(h: nat, c: nat, mem: seq<Sample>, captured: seq<Sample>, blocks: seq<seq<Sample>>,
                   rest: seq<Sample>, sample: Sample)
    requires Capturing(h, c, mem, captured, blocks, rest) && |rest| < h
    ensures Capturing(h, c, mem[c + |rest| := sample], captured + [sample], blocks, rest + [sample])
  {
    var n := |rest|;
    assert mem[c + n := sample][c..c + n + 1] == mem[c..c + n] + [sample];
    assert Flatten(blocks) + rest + [sample] == Flatten(blocks) + (rest + [sample]);
  }

  /** A full rest becomes a block. */
  lemma CloseCapture(h: nat, c: nat, d: nat, mem: seq<Sample>, captured: seq<Sample>, blocks: seq<seq<Sample>>,
                     rest: seq<Sample>)
    requires Capturing(h, c, mem, captured, blocks, rest) && |rest| == h && d + h <= |mem|
    ensures Capturing(h, d, mem, captured, blocks + [rest], []) && mem[c..c + h] == rest
  {
    FlattenSnoc(blocks, rest);
  }

  /** One more sample of the current block. */
  function Grown(t: Trace, sample: Sample): Trace {
    t.(rest := t.rest + [sample])
  }

  lemma QuietMoves(h: nat, s: State, t: Trace, sample: Sample)
    requires Bounded(s) && t in Motions(h, s) && !CompletesHalf(s) && t.current <= h
    ensures Grown(t, sample) in Motions(h, Sampled(s, sample))
    ensures Half(Sampled(s, sample).input.mem, h, h - t.current) == Half(s.input.mem, h, h - t.current)
  {
    CaptureOne(h, t.current, s.input.mem, s.log.captured, t.blocks, t.rest, sample);
    PlayOne(h, t.current, s.output.mem, s.log.played, t.slots, |t.blocks|, |t.rest|);
  }

  /** Processing does not depend on what is captured or played meanwhile. */
  lemma ProcessingFrame(code: Code, other: nat, half: seq<Sample>, s: State, t: Trace, r: State, t': Trace)
    requires t in Workings(code, other, half, s)
    requires t'.blocks == t.blocks && t'.slots == t.slots && t'.memory == t.memory && r.memory == s.memory
    requires r.mailbox == s.mailbox && r.held == s.held && r.runner == s.runner
    requires r.output.mem == s.output.mem
    ensures t' in Workings(code, other, half, r)
  {
  }

  lemma QuietTick(code: Code, h: nat, o: Origin, s: State, t: Trace, sample: Sample)
    requires Bounded(s) && t in Traces(code, h, o, s) && !CompletesHalf(s)
    ensures Grown(t, sample) in Traces(code, h, o, Sampled(s, sample))
  {
    TraceParts(code, h, o, s, t);
    QuietMoves(h, s, t, sample);
    ProcessingFrame(code, h - t.current, Half(s.input.mem, h, h - t.current), s, t,
                    Sampled(s, sample), Grown(t, sample));
  }

  /** `r` is the state after the interrupt that follows the DMA transfers leading to `d`. */
  ghost predicate Signalled(d: State, r: State, complete: bool) {
    && |r.mailbox| == 1 && ForFirst(r.mailbox[0].code) == !complete
    && r == d.(mailbox := r.mailbox, operation := ReadHandler, log := r.log,
               input := d.input.(modified := r.input.modified))
    && r.log.captured == d.log.captured && r.log.played == d.log.played
    && r.log.entries == d.log.entries
  }

  /** The handler's effect on a drained pipeline: one message for the half just filled. */
  lemma DrainedCallback(s: State, complete: bool, onRunnerStack: bool)
    requires Bounded(s) && Converting(s) && !s.operation.NoOperation? && s.mailbox == []
    ensures Signalled(s, ConversionCallback(s, complete, onRunnerStack), complete)
  {
  }

  lemma BlockCaptured(h: nat, c: nat, d: nat, mem: seq<Sample>, captured: seq<Sample>, blocks: seq<seq<Sample>>,
                      rest: seq<Sample>, sample: Sample)
    requires Capturing(h, c, mem, captured, blocks, rest) && |rest| + 1 == h && d + h <= |mem|
    ensures var mem' := mem[c + |rest| := sample];
            && Capturing(h, d, mem', captured + [sample], blocks + [rest + [sample]], [])
            && mem'[c..c + h] == rest + [sample]
  {
    CaptureOne(h, c, mem, captured, blocks, rest, sample);
    CloseCapture(h, c, d, mem[c + |rest| := sample], captured + [sample], blocks, rest + [sample]);
  }

  lemma BlockMoves(h: nat, s: State, t: Trace, sample: Sample, r: State)
    requires Bounded(s) && Moving(h, s, t) && |t.rest| + 1 == h && t.current <= h
    requires |t.blocks| + 1 < |t.slots| && 2 * h <= MAX_SAMPLE_BUFFER_SIZE
    requires s.output.mem[h - t.current..h - t.current + h] == t.slots[|t.blocks| + 1]
    requires Signalled(Sampled(s, sample), r, s.pos + 1 == s.adcSize)
    ensures Closed(t, t.rest + [sample]) in Motions(h, r)
  {
    BlockCaptured(h, t.current, h - t.current, s.input.mem, s.log.captured, t.blocks, t.rest, sample);
    TurnPlayed(h, t.current, h - t.current, s.output.mem, s.log.played, t.slots, |t.blocks|);
  }

  lemma BlockComplete(h: nat, s: State, t: Trace, sample: Sample, r: State)
    requires Bounded(s) && t in Motions(h, s) && |t.rest| + 1 == h && t.current + h <= MAX_SAMPLE_BUFFER_SIZE
    requires Signalled(Sampled(s, sample), r, s.pos + 1 == s.adcSize)
    ensures Half(r.input.mem, h, t.current) == t.rest + [sample]
  {
    CaptureOne(h, t.current, s.input.mem, s.log.captured, t.blocks, t.rest, sample);
  }

  /** The message just posted is all there is to do. */
  lemma BlockUnderWay(code: Code, other: nat, r: State, t: Trace, block: seq<Sample>)
    requires |r.mailbox| == 1 && For(r.mailbox[0], other) && r.held.None? && r.runner.Waiting?
    requires |t.slots| == |t.blocks| + 1 && LastBlock(block, t) && r.memory == t.memory
    ensures t in Workings(code, other, block, r)
  {
  }

  /** With nothing under way the half not being played holds what is planned next. */
  lemma DrainedProcessing(code: Code, other: nat, half: seq<Sample>, s: State, t: Trace)
    requires t in Workings(code, other, half, s) && Quiescent(s)
    ensures |t.slots| == |t.blocks| + 2 && s.memory == t.memory
    ensures other + |half| <= |s.output.mem| && s.output.mem[other..other + |half|] == t.slots[|t.blocks| + 1]
  {
  }

  /** The tick that completes a block finds the pipeline drained, so the half about to be played is
      the one planned, and leaves one message for the block in the mailbox. */
  lemma BlockTick(code: Code, h: nat, o: Origin, s: State, t: Trace, sample: Sample, r: State)
    requires Bounded(s) && t in Traces(code, h, o, s) && CompletesHalf(s) && Quiescent(s)
    requires Signalled(Sampled(s, sample), r, s.pos + 1 == s.adcSize)
    ensures Closed(t, t.rest + [sample]) in Traces(code, h, o, r)
  {
    var t' := Closed(t, t.rest + [sample]);
    TraceParts(code, h, o, s, t);
    DrainedProcessing(code, h - t.current, Half(s.input.mem, h, h - t.current), s, t);
    PlanMoreBlocks(code, h, o, s.log.entries, t, t.rest + [sample]);
    BlockMoves(h, s, t, sample, r);
    BlockComplete(h, s, t, sample, r);
    BlockUnderWay(code, t.current, r, t', t.rest + [sample]);
  }

  // ----- Steps of the two threads -----

  /** What steps of the threads leave alone: positions, signals and the halves from `c` on. */
  function Fixed(h: nat, c: nat, s: State): (Clock, seq<Sample>, seq<Sample>, seq<Sample>, seq<Sample>) {
    (ClockOf(s), s.log.captured, s.log.played, Half(s.input.mem, h, c), Half(s.output.mem, h, c))
  }

  lemma FixedMoves(h: nat, s: State, t: Trace, r: State)
    requires t in Motions(h, s) && Fixed(h, t.current, r) == Fixed(h, t.current, s)
    requires |r.input.mem| == |s.input.mem| && |r.output.mem| == |s.output.mem|
    ensures t in Motions(h, r)
  {
    var c, n := t.current, |t.rest|;
    assert s.input.mem[c..c + n] == Half(s.input.mem, h, c)[..n];
    assert r.input.mem[c..c + n] == Half(r.input.mem, h, c)[..n];
  }

  /** A step off the clock that takes no new block needs only to leave the work in order. */
  lemma FixedStreams(code: Code, h: nat, o: Origin, s: State, t: Trace, r: State)
    requires t in Traces(code, h, o, s) && Fixed(h, t.current, r) == Fixed(h, t.current, s)
    requires r.log.entries == s.log.entries
    requires |r.input.mem| == |s.input.mem| && |r.output.mem| == |s.output.mem|
    requires t in Workings(code, h - t.current, Half(r.input.mem, h, h - t.current), r)
    ensures t in Traces(code, h, o, r)
  {
    FixedMoves(h, s, t, r);
  }

  /** What steps that do not touch the buffers leave alone. */
  function Untouched(s: State): (Clock, seq<Sample>, seq<Sample>, seq<nat>, seq<Sample>, seq<Sample>) {
    (ClockOf(s), s.log.captured, s.log.played, s.log.entries, s.input.mem, s.output.mem)
  }

  lemma UntouchedMoves(h: nat, s: State, t: Trace, r: State)
    requires t in Motions(h, s) && Untouched(r) == Untouched(s)
    ensures t in Motions(h, r)
  {
  }

  lemma UntouchedStreams(code: Code, h: nat, o: Origin, s: State, t: Trace, r: State)
    requires t in Traces(code, h, o, s) && Untouched(r) == Untouched(s)
    requires t in Workings(code, h - t.current, Half(s.input.mem, h, h - t.current), r)
    ensures t in Traces(code, h, o, r)
  {
    UntouchedMoves(h, s, t, r);
  }

  lemma HandOverProcesses(code: Code, other: nat, half: seq<Sample>, s: State, t: Trace)
    requires Bounded(s) && t in Workings(code, other, half, s)
    ensures t in Workings(code, other, half, FetchStep(s))
    ensures t in Workings(code, other, half, AcceptStep(s))
  {
  }

  lemma TimerProcesses(code: Code, other: nat, half: seq<Sample>, s: State, t: Trace)
    requires Bounded(s) && t in Workings(code, other, half, s)
    ensures t in Workings(code, other, half, StartTimerStep(s))
    ensures t in Workings(code, other, half, StopTimerStep(s))
    ensures t in Workings(code, other, half, TestStep(s))
  {
  }

  /** A message moves on, from the mailbox to the monitor or from there to the runner. */
  lemma HandOverStreams(code: Code, h: nat, o: Origin, s: State, t: Trace, r: State)
    requires Bounded(s) && t in Traces(code, h, o, s)
    requires r == FetchStep(s) || r == AcceptStep(s)
    ensures t in Traces(code, h, o, r)
  {
    HandOverProcesses(code, h - t.current, Half(s.input.mem, h, h - t.current), s, t);
    UntouchedStreams(code, h, o, s, t, r);
  }

  lemma StartTimerStreams(code: Code, h: nat, o: Origin, s: State, t: Trace)
    requires Bounded(s) && t in Traces(code, h, o, s)
    ensures t in Traces(code, h, o, StartTimerStep(s))
  {
    TimerProcesses(code, h - t.current, Half(s.input.mem, h, h - t.current), s, t);
    UntouchedStreams(code, h, o, s, t, StartTimerStep(s));
  }

  lemma StopTimerStreams(code: Code, h: nat, o: Origin, s: State, t: Trace)
    requires Bounded(s) && t in Traces(code, h, o, s)
    ensures t in Traces(code, h, o, StopTimerStep(s))
  {
    TimerProcesses(code, h - t.current, Half(s.input.mem, h, h - t.current), s, t);
    UntouchedStreams(code, h, o, s, t, StopTimerStep(s));
  }

  lemma TestStreams(code: Code, h: nat, o: Origin, s: State, t: Trace)
    requires Bounded(s) && t in Traces(code, h, o, s)
    ensures t in Traces(code, h, o, TestStep(s))
  {
    TimerProcesses(code, h - t.current, Half(s.input.mem, h, h - t.current), s, t);
    UntouchedStreams(code, h, o, s, t, TestStep(s));
  }

  /** The plan made when the runner picks the entry point for the last block. */
  function Extended(code: Code, entry: nat, t: Trace): Trace
    requires t.blocks != []
  {
    var block := t.blocks[|t.blocks| - 1];
    t.(slots := t.slots + [Process(code, entry, t.memory, block)], memory := After(code, entry, t.memory, block))
  }

  lemma PlanMoreSlots(code: Code, h: nat, o: Origin, entries: seq<nat>, t: Trace, entry: nat)
    requires Planned(code, h, o, entries, t) && |entries| < |t.blocks|
    ensures Planned(code, h, o, entries + [entry], Extended(code, entry, t))
  {
    ProcessedSnoc(code, o.memory, entries, t.blocks, entry);
  }

  lemma EnterProcesses(code: Code, h: nat, other: nat, half: seq<Sample>, s: State, t: Trace)
    requires Bounded(s) && s.input.size == 2 * h && |half| == h && (other == 0 || other == h)
    requires |t.slots| == |t.blocks| + 1 && s.runner.Accepted? && t in Workings(code, other, half, s)
    ensures Extended(code, s.entry, t) in Workings(code, other, half, EnterStep(s))
  {
    var msg, block := s.runner.msg, t.blocks[|t.blocks| - 1];
    var base := if ForFirst(msg.code) then 0 else s.input.Mid();
    assert base == other && half == block;
    assert Extended(code, s.entry, t).slots[|t.blocks| + 1] == Process(code, s.entry, t.memory, block);
  }

  lemma EnterStreams(code: Code, h: nat, o: Origin, s: State, t: Trace)
    requires Bounded(s) && t in Traces(code, h, o, s) && s.runner.Accepted?
    ensures t.blocks != [] && Extended(code, s.entry, t) in Traces(code, h, o, EnterStep(s))
  {
    PlanMoreSlots(code, h, o, s.log.entries, t, s.entry);
    PlayMoreSlots(h, t.current, s.output.mem, s.log.played, t.slots, |t.blocks|, |t.rest|,
                  Process(code, s.entry, t.memory, t.blocks[|t.blocks| - 1]));
    EnterProcesses(code, h, h - t.current, Half(s.input.mem, h, h - t.current), s, t);
  }

  lemma ComputeFixed(code: Code, h: nat, c: nat, s: State)
    requires Bounded(s) && Steady(s, h) && (c == 0 || c == h) && InAlgorithm(s.runner)
    requires s.runner.base == h - c && s.runner.size == h
    ensures Fixed(h, c, ComputeStep(code, s)) == Fixed(h, c, s)
  {
    var r := s.runner;
    BesideWritten(h, s.input.mem, c, r.base, code(r.entry, s.memory, s.input.mem[r.base..r.base + r.size]).block);
  }

  lemma ComputeProcesses(code: Code, other: nat, half: seq<Sample>, s: State, t: Trace)
    requires Bounded(s) && other + |half| <= MAX_SAMPLE_BUFFER_SIZE && half == s.input.mem[other..other + |half|]
    requires InAlgorithm(s.runner) && t in Workings(code, other, half, s)
    ensures var r := ComputeStep(code, s);
            t in Workings(code, other, Half(r.input.mem, |half|, other), r)
  {
    var outcome := code(s.runner.entry, s.memory, half);
    assert Overwrite(s.input.mem, other, outcome.block)[other..other + |half|] == outcome.block;
  }

  lemma ComputeStreams(code: Code, h: nat, o: Origin, s: State, t: Trace)
    requires Bounded(s) && t in Traces(code, h, o, s) && InAlgorithm(s.runner)
    ensures t in Traces(code, h, o, ComputeStep(code, s))
  {
    ComputeFixed(code, h, t.current, s);
    ComputeProcesses(code, h - t.current, Half(s.input.mem, h, h - t.current), s, t);
    FixedStreams(code, h, o, s, t, ComputeStep(code, s));
  }

  lemma BeginCopyProcesses(code: Code, other: nat, half: seq<Sample>, s: State, t: Trace)
    requires Bounded(s) && s.output.size == 2 * |half| && |half| % 16 == 0 && (other == 0 || other == |half|)
    requires s.runner.Ready? && t in Workings(code, other, half, s)
    ensures t in Workings(code, other, half, BeginCopyStep(s))
  {
  }

  lemma BeginCopyStreams(code: Code, h: nat, o: Origin, s: State, t: Trace)
    requires Bounded(s) && t in Traces(code, h, o, s) && s.runner.Ready?
    ensures t in Traces(code, h, o, BeginCopyStep(s))
  {
    BeginCopyProcesses(code, h - t.current, Half(s.input.mem, h, h - t.current), s, t);
    UntouchedStreams(code, h, o, s, t, BeginCopyStep(s));
  }

  lemma NextBlockFits(done: nat, h: nat)
    requires done % 16 == 0 && h % 16 == 0 && done < h
    ensures done + 16 <= h
  {
  }

  /** Sixteen more samples of the planned contents arrive. */
  lemma BlockArrives(s: State, other: nat, half: seq<Sample>, source: Source, slot: seq<Sample>, done: nat)
    requires |s.input.mem| == MAX_SAMPLE_BUFFER_SIZE && other + |half| <= MAX_SAMPLE_BUFFER_SIZE
    requires half == s.input.mem[other..other + |half|]
    requires Supplies(source, other, half, slot) && done + 16 <= |slot| && Covers(source, done + 16)
    ensures BlockOf(s, source, done) == slot[done..done + 16]
  {
    match source
    case Live(base) => SliceOfSlice(s.input.mem, base, |half|, done, done + 16);
    case Fixed(samples) => SliceOfSlice(samples, 0, |slot|, done, done + 16);
  }

  lemma CopyArrives(mem: seq<Sample>, dest: nat, done: nat, block: seq<Sample>, slot: seq<Sample>)
    requires dest + done + 16 <= |mem| && |block| == 16 && done + 16 <= |slot|
    requires mem[dest..dest + done] == slot[..done] && block == slot[done..done + 16]
    ensures Overwrite(mem, dest + done, block)[dest..dest + done + 16] == slot[..done + 16]
  {
    var mem' := Overwrite(mem, dest + done, block);
    assert mem'[dest..dest + done] == mem[dest..dest + done];
    assert mem'[dest + done..dest + done + 16] == block;
    assert mem'[dest..dest + done + 16] == mem'[dest..dest + done] + mem'[dest + done..dest + done + 16];
    assert slot[..done + 16] == slot[..done] + slot[done..done + 16];
  }

  /** Every pass of the copy brings sixteen more planned samples into the half not being played, and the
      last pass completes it. */
  lemma CopyWorks(code: Code, other: nat, half: seq<Sample>, s: State, t: Trace, r: State, block: seq<Sample>)
    requires t in Workings(code, other, half, s) && s.runner.Copying? && |t.slots| == |t.blocks| + 2
    requires var c, slot := s.runner, t.slots[|t.blocks| + 1];
             && c.done + 16 <= |half| && c.dest + c.done + 16 <= |s.output.mem|
             && |slot| == |half| && block == slot[c.done..c.done + 16]
             && r.output.mem == Overwrite(s.output.mem, c.dest + c.done, block)
             && r.runner == if c.done + 16 < c.count then c.(done := c.done + 16) else Waiting
    requires r.mailbox == s.mailbox && r.held == s.held && r.memory == s.memory
    ensures t in Workings(code, other, half, r)
  {
    var c, slot := s.runner, t.slots[|t.blocks| + 1];
    CopyArrives(s.output.mem, c.dest, c.done, block, slot);
    assert slot[..|slot|] == slot;
  }

  lemma CopyProcesses(code: Code, other: nat, half: seq<Sample>, s: State, t: Trace)
    requires Bounded(s) && other + |half| <= MAX_SAMPLE_BUFFER_SIZE && half == s.input.mem[other..other + |half|]
    requires 0 < |half| && |half| % 16 == 0 && s.runner.Copying? && t in Workings(code, other, half, s)
    ensures t in Workings(code, other, half, CopyBlockStep(s))
  {
    var c, slot := s.runner, t.slots[|t.blocks| + 1];
    NextBlockFits(c.done, |half|);
    BlockArrives(s, other, half, c.source, slot, c.done);
    CopyWorks(code, other, half, s, t, CopyBlockStep(s), BlockOf(s, c.source, c.done));
  }

  lemma CopyFixed(code: Code, h: nat, o: Origin, s: State, t: Trace)
    requires Bounded(s) && t in Traces(code, h, o, s) && s.runner.Copying?
    ensures Fixed(h, t.current, CopyBlockStep(s)) == Fixed(h, t.current, s)
  {
    NextBlockFits(s.runner.done, h);
    var r := s.runner;
    BesideWritten(h, s.output.mem, t.current, r.dest + r.done, BlockOf(s, r.source, r.done));
  }

  lemma CopyBlockStreams(code: Code, h: nat, o: Origin, s: State, t: Trace)
    requires Bounded(s) && t in Traces(code, h, o, s) && s.runner.Copying?
    ensures t in Traces(code, h, o, CopyBlockStep(s))
  {
    CopyProcesses(code, h - t.current, Half(s.input.mem, h, h - t.current), s, t);
    CopyFixed(code, h, o, s, t);
    FixedStreams(code, h, o, s, t, CopyBlockStep(s));
  }

  // ----- Commands -----

  lemma HostUntouched(s: State, command: Command)
    requires Bounded(s) && Converting(s) && !s.operation.NoOperation?
    requires !command.StopConversion? && !command.WriteAdcBuffer?
    ensures var r := HostStep(s, command);
            && Untouched(r) == Untouched(s) && r.memory == s.memory
            && r.mailbox == s.mailbox && r.held == s.held && r.runner == s.runner
  {
  }

  lemma HostStreams(code: Code, h: nat, o: Origin, s: State, t: Trace, command: Command)
    requires Bounded(s) && t in Traces(code, h, o, s)
    requires !command.StopConversion? && !command.WriteAdcBuffer?
    ensures t in Traces(code, h, o, HostStep(s, command))
  {
    var r := HostStep(s, command);
    HostUntouched(s, command);
    ProcessingFrame(code, h - t.current, Half(s.input.mem, h, h - t.current), s, t, r, t);
    UntouchedStreams(code, h, o, s, t, r);
  }

  // ----- Runs -----

  lemma TickStreams(code: Code, h: nat, o: Origin, s: State, t: Trace, sample: Sample, onRunnerStack: bool)
    returns (t': Trace)
    requires Bounded(s) && t in Traces(code, h, o, s) && (CompletesHalf(s) ==> Quiescent(s))
    ensures t' in Traces(code, h, o, TickStep(s, sample, onRunnerStack))
  {
    if CompletesHalf(s) {
      var d := Sampled(s, sample);
      DrainedCallback(d, s.pos + 1 == s.adcSize, onRunnerStack);
      t' := Closed(t, t.rest + [sample]);
      BlockTick(code, h, o, s, t, sample, ConversionCallback(d, s.pos + 1 == s.adcSize, onRunnerStack));
    } else {
      t' := Grown(t, sample);
      QuietTick(code, h, o, s, t, sample);
    }
  }

  lemma TimersStream(code: Code, h: nat, o: Origin, s: State, t: Trace, step: Step)
    requires Bounded(s) && t in Traces(code, h, o, s)
    requires step.RunnerStartTimer? || step.RunnerStopTimer? || step.RunnerTest?
    ensures t in Traces(code, h, o, Next(code, s, step))
  {
    match step
    case RunnerStartTimer => StartTimerStreams(code, h, o, s, t);
    case RunnerStopTimer => StopTimerStreams(code, h, o, s, t);
    case RunnerTest => TestStreams(code, h, o, s, t);
  }

  lemma WorkStreams(code: Code, h: nat, o: Origin, s: State, t: Trace, step: Step) returns (t': Trace)
    requires Bounded(s) && t in Traces(code, h, o, s)
    requires step.RunnerEnter? || step.RunnerCompute? || step.RunnerBeginCopy? || step.RunnerCopyBlock?
    ensures t' in Traces(code, h, o, Next(code, s, step))
  {
    t' := t;
    match step
    case RunnerEnter =>
      if s.runner.Accepted? {
        EnterStreams(code, h, o, s, t);
        t' := Extended(code, s.entry, t);
      }
    case RunnerCompute => if InAlgorithm(s.runner) { ComputeStreams(code, h, o, s, t); }
    case RunnerBeginCopy => if s.runner.Ready? { BeginCopyStreams(code, h, o, s, t); }
    case RunnerCopyBlock => if s.runner.Copying? { CopyBlockStreams(code, h, o, s, t); }
  }

  /** Each step of a timely session extends the plan that what is captured, buffered and played follows. */
  lemma StepStreams(code: Code, h: nat, o: Origin, s: State, t: Trace, step: Step) returns (t': Trace)
    requires Bounded(s) && t in Traces(code, h, o, s) && TimelyStep(s, step)
    ensures t' in Traces(code, h, o, Next(code, s, step))
  {
    t' := t;
    match step
    case Tick(sample, onRunnerStack) => t' := TickStreams(code, h, o, s, t, sample, onRunnerStack);
    case MonitorFetch => HandOverStreams(code, h, o, s, t, FetchStep(s));
    case RunnerAccept => HandOverStreams(code, h, o, s, t, AcceptStep(s));
    case Host(command) => HostStreams(code, h, o, s, t, command);
    case RunnerStartTimer => TimersStream(code, h, o, s, t, step);
    case RunnerStopTimer => TimersStream(code, h, o, s, t, step);
    case RunnerTest => TimersStream(code, h, o, s, t, step);
    case _ => t' := WorkStreams(code, h, o, s, t, step);
  }

  lemma {:induction false} RunStreams(code: Code, h: nat, o: Origin, s: State, t: Trace, steps: seq<Step>)
    returns (t': Trace)
    requires Bounded(s) && t in Traces(code, h, o, s) && Timely(code, s, steps)
    ensures t' in Traces(code, h, o, Run(code, s, steps))
    decreases |steps|
  {
    if steps == [] {
      t' := t;
    } else {
      t' := StepStreams(code, h, o, s, t, steps[0]);
      t' := RunStreams(code, h, o, Next(code, s, steps[0]), t', steps[1..]);
    }
  }

  // ----- From the decomposition back to the signals -----

  lemma {:induction false} BlocksOfFlat(h: nat, blocks: seq<seq<Sample>>, rest: seq<Sample>)
    requires 0 < h && Sized(h, blocks) && |rest| < h
    ensures Blocks(h, Flatten(blocks) + rest) == blocks
  {
    var signal := Flatten(blocks) + rest;
    if blocks != [] {
      assert signal == blocks[0] + (Flatten(blocks[1..]) + rest);
      assert signal[h..] == Flatten(blocks[1..]) + rest;
      BlocksOfFlat(h, blocks[1..], rest);
    }
  }

  lemma FlattenTwo(a: seq<Sample>, b: seq<Sample>, rest: seq<seq<Sample>>)
    ensures Flatten([a, b] + rest) == a + b + Flatten(rest)
  {
    assert ([a, b] + rest)[1..] == [b] + rest;
    assert ([b] + rest)[1..] == rest;
    assert a + b + Flatten(rest) == a + (b + Flatten(rest));
  }

  /** What a stretch of a session that began with `o` and with this much captured should have put out:
      the two halves of the output as they were, then the signal captured since the current half began
      processed block by block, starting with the memory as it was, as far as time has come. */
  ghost predicate StreamsFrom(code: Code, h: nat, o: Origin, s: State)
    requires 0 < h
  {
    var blocks := Blocks(h, s.log.captured);
    && |s.log.entries| <= |blocks|
    && s.log.played <= o.first + o.second + Flatten(Processed(code, o.memory, s.log.entries, blocks))
    && |s.log.played| == |s.log.captured|
  }

  lemma TraceStreams(code: Code, h: nat, o: Origin, s: State, t: Trace)
    requires 0 < h && t in Traces(code, h, o, s)
    ensures StreamsFrom(code, h, o, s)
  {
    BlocksOfFlat(h, t.blocks, t.rest);
    PlayedIsPrefix(h, t.current, s.output.mem, s.log.played, t.slots, |t.blocks|, |t.rest|);
    FlattenTwo(o.first, o.second, Processed(code, o.memory, s.log.entries, t.blocks));
  }

  lemma FreshStreams(code: Code, h: nat, s: State) returns (t: Trace)
    requires FreshSession(s, h) && h % 16 == 0
    ensures t in Traces(code, h, Origin(Repeat(MIDSCALE, h), Repeat(MIDSCALE, h), s.memory), s)
  {
    t := Trace([], [], [Repeat(MIDSCALE, h), Repeat(MIDSCALE, h)], s.memory, 0);
    assert s.output.mem[..h] == s.output.mem[..2 * h][..h] == Repeat(MIDSCALE, h);
    assert s.output.mem[h..2 * h] == s.output.mem[..2 * h][h..] == Repeat(MIDSCALE, h);
    assert Flatten(t.slots[..0]) == [];
  }

  /** The end-to-end stream. In every session of a half size that is a positive multiple of sixteen,
      whatever the algorithm computes and keeps in its memory and whichever commands arrive, as long as
      the runner is done with each block before the next is complete, the signal put out is one buffer of
      mid-scale followed by the captured signal processed block by block, each block exactly once and in
      order. */
  lemma StreamTheorem(code: Code, h: nat, s: State, steps: seq<Step>)
    requires FreshSession(s, h) && h % 16 == 0
    requires Timely(code, s, steps)
    ensures StreamExact(code, h, s.memory, Run(code, s, steps))
  {
    var silence := Repeat(MIDSCALE, h);
    var o := Origin(silence, silence, s.memory);
    var t := FreshStreams(code, h, s);
    var t' := RunStreams(code, h, o, s, t, steps);
    TraceStreams(code, h, o, Run(code, s, steps), t');
    assert silence + silence == Repeat(MIDSCALE, 2 * h);
  }
}
