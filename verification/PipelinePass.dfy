/** One pass of the runner's loop without interruption: the steps it amounts to, and what it makes of the
    block. */
module PipelinePass {
  import opened Basics
  import opened Errors
  import opened SampleBuffers
  import opened Pipeline
  import opened PipelineCopy
  import opened PipelineStream

  const ENTER: seq<Step> := [RunnerAccept, RunnerEnter, RunnerStartTimer]
  const LEAVE: seq<Step> := [RunnerCompute, RunnerStopTimer, RunnerTest]

  /** The steps of one pass. An algorithm that is going to fault scratches its block and faults; what then
      follows finds nothing to do. */
  function PassSteps(fault: Option<Leftover>): seq<Step> {
    (if fault.Some? then ENTER + [RunnerScratch(fault.value), RunnerFault] else [])
    + (ENTER + LEAVE + ([RunnerBeginCopy] + CopyBlocks(MAX_BLOCKS)))
  }

  /** The state once the algorithm is about to be called, or passed over. */
  function Chosen(s: State): (r: State)
    requires Bounded(s)
    ensures Bounded(r)
  {
    StartTimerStep(EnterStep(AcceptStep(s)))
  }

  /** The state once the runner knows what to copy. */
  function Decided(code: Code, s: State): (r: State)
    requires Bounded(s)
    ensures Bounded(r)
  {
    TestStep(StopTimerStep(ComputeStep(code, s)))
  }

  /** The body of the loop: nothing without a message; an algorithm that faults is aborted and leaves no
      output; otherwise one call of `modify` or `midmodify` ends it. */
  function Pass(code: Code, s: State, fault: Option<Leftover>): (r: State)
    requires Bounded(s)
    ensures Bounded(r)
  {
    if s.held.None? then s
    else if fault.Some? && s.entry != 0 then FaultStep(ScratchStep(Chosen(s), fault.value))
    else
      var d := Decided(code, Chosen(s));
      if d.runner.Ready? then Copied(d) else d
  }

  // ----- The pass is a run -----

  lemma StepsTwo(code: Code, s: State, a: Step, b: Step)
    requires Bounded(s)
    ensures Run(code, s, [a, b]) == Next(code, Next(code, s, a), b)
  {
    assert [a, b][1..] == [b] && [b][1..] == [];
    assert Run(code, Next(code, s, a), [b]) == Next(code, Next(code, s, a), b);
  }

  lemma StepsThree(code: Code, s: State, a: Step, b: Step, c: Step)
    requires Bounded(s)
    ensures Run(code, s, [a, b, c]) == Next(code, Next(code, Next(code, s, a), b), c)
  {
    assert [a, b, c][1..] == [b, c];
    StepsTwo(code, Next(code, s, a), b, c);
  }

  lemma NextEnters(code: Code, s: State)
    requires Bounded(s) && !s.halted
    ensures Next(code, s, RunnerAccept) == AcceptStep(s) && !AcceptStep(s).halted
    ensures Next(code, s, RunnerEnter) == EnterStep(s) && !EnterStep(s).halted
    ensures Next(code, s, RunnerStartTimer) == StartTimerStep(s) && !StartTimerStep(s).halted
  {
  }

  lemma NextLeaves(code: Code, s: State)
    requires Bounded(s) && !s.halted
    ensures Next(code, s, RunnerCompute) == ComputeStep(code, s) && !ComputeStep(code, s).halted
    ensures Next(code, s, RunnerStopTimer) == StopTimerStep(s) && !StopTimerStep(s).halted
    ensures Next(code, s, RunnerTest) == TestStep(s) && !TestStep(s).halted
  {
  }

  lemma EnterIsRun(code: Code, s: State)
    requires Bounded(s) && !s.halted
    ensures Run(code, s, ENTER) == Chosen(s) && !Chosen(s).halted
  {
    StepsThree(code, s, RunnerAccept, RunnerEnter, RunnerStartTimer);
    NextEnters(code, s);
    NextEnters(code, AcceptStep(s));
    NextEnters(code, EnterStep(AcceptStep(s)));
  }

  lemma LeaveIsRun(code: Code, s: State)
    requires Bounded(s) && !s.halted
    ensures Run(code, s, LEAVE) == Decided(code, s) && !Decided(code, s).halted
  {
    StepsThree(code, s, RunnerCompute, RunnerStopTimer, RunnerTest);
    NextLeaves(code, s);
    NextLeaves(code, ComputeStep(code, s));
    NextLeaves(code, StopTimerStep(ComputeStep(code, s)));
  }

  /** How far a message gets. */
  lemma ChosenRunner(s: State)
    requires Bounded(s) && s.runner.Waiting?
    ensures s.held.None? ==> Chosen(s) == s
    ensures s.held.Some? ==> Chosen(s).held.None?
    ensures s.held.Some? && s.entry != 0 ==> InAlgorithm(Chosen(s).runner)
    ensures s.held.Some? && s.entry == 0 ==> Chosen(s).runner.Ready?
  {
  }

  lemma DecidedRunner(code: Code, s: State)
    requires Bounded(s)
    ensures InAlgorithm(s.runner) || s.runner.Ready? ==> Decided(code, s).runner.Ready?
    ensures s.runner.Waiting? || s.runner.Ready? ==> Decided(code, s) == s
  {
  }

  lemma NothingToBegin(code: Code, s: State, n: nat)
    requires Bounded(s) && s.runner.Waiting?
    ensures Run(code, s, [RunnerBeginCopy] + CopyBlocks(n)) == s
  {
    var steps := [RunnerBeginCopy] + CopyBlocks(n);
    assert steps[1..] == CopyBlocks(n) && steps[0] == RunnerBeginCopy;
    assert Next(code, s, RunnerBeginCopy) == s;
    NothingToCopy(code, s, n);
  }

  /** Steps from the call on. */
  lemma WholeIsRun(code: Code, s: State)
    requires Bounded(s) && !s.halted && s.runner.Waiting?
    ensures Run(code, s, ENTER + LEAVE + ([RunnerBeginCopy] + CopyBlocks(MAX_BLOCKS))) == Pass(code, s, None)
  {
    EnterIsRun(code, s);
    LeaveIsRun(code, Chosen(s));
    ChosenRunner(s);
    DecidedRunner(code, Chosen(s));
    RunConcat(code, s, ENTER, LEAVE);
    RunConcat(code, s, ENTER + LEAVE, [RunnerBeginCopy] + CopyBlocks(MAX_BLOCKS));
    if s.held.Some? {
      CopyToEndAndWait(code, Decided(code, Chosen(s)));
    } else {
      NothingToBegin(code, s, MAX_BLOCKS);
    }
  }

  lemma NextFaults(code: Code, s: State, left: Leftover)
    requires Bounded(s) && !s.halted
    ensures Next(code, s, RunnerScratch(left)) == ScratchStep(s, left) && !ScratchStep(s, left).halted
    ensures Next(code, s, RunnerFault) == FaultStep(s)
  {
  }

  lemma ScratchIsRun(code: Code, s: State, left: Leftover)
    requires Bounded(s) && !s.halted
    ensures Run(code, s, [RunnerScratch(left), RunnerFault]) == FaultStep(ScratchStep(s, left))
  {
    StepsTwo(code, s, RunnerScratch(left), RunnerFault);
    NextFaults(code, s, left);
    NextFaults(code, ScratchStep(s, left), left);
  }

  lemma FaultIsRun(code: Code, s: State, left: Leftover)
    requires Bounded(s) && !s.halted
    ensures Run(code, s, ENTER + [RunnerScratch(left), RunnerFault]) == FaultStep(ScratchStep(Chosen(s), left))
  {
    EnterIsRun(code, s);
    ScratchIsRun(code, Chosen(s), left);
    RunConcat(code, s, ENTER, [RunnerScratch(left), RunnerFault]);
  }

  /** After the steps of a fault: the runner waits again, or there was no algorithm to fault. */
  lemma FaultedRunner(s: State, left: Leftover)
    requires Bounded(s) && s.runner.Waiting?
    ensures var r := FaultStep(ScratchStep(Chosen(s), left));
            && r.halted == s.halted
            && (s.held.Some? && s.entry != 0 ==> r.runner.Waiting? && r.held.None?)
            && (s.held.None? || s.entry == 0 ==> r == Chosen(s))
  {
    ChosenRunner(s);
  }

  /** One pass of the loop, without interruption, is what its steps make of the state. */
  lemma PassIsRun(code: Code, s: State, fault: Option<Leftover>)
    requires Bounded(s) && !s.halted && s.runner.Waiting?
    ensures Run(code, s, PassSteps(fault)) == Pass(code, s, fault)
  {
    var whole := ENTER + LEAVE + ([RunnerBeginCopy] + CopyBlocks(MAX_BLOCKS));
    if fault.None? {
      assert PassSteps(fault) == whole;
      WholeIsRun(code, s);
    } else {
      var first := ENTER + [RunnerScratch(fault.value), RunnerFault];
      var f := FaultStep(ScratchStep(Chosen(s), fault.value));
      FaultIsRun(code, s, fault.value);
      RunConcat(code, s, first, whole);
      FaultedRunner(s, fault.value);
      ChosenRunner(s);
      if s.held.None? || s.entry != 0 {
        WholeIsRun(code, f);
      } else {
        ReadyIsRun(code, s);
      }
    }
  }

  /** A message that is already past the choice of an algorithm goes through the rest of the pass. */
  lemma ReadyIsRun(code: Code, s: State)
    requires Bounded(s) && !s.halted && s.runner.Waiting? && s.held.Some? && s.entry == 0
    ensures Run(code, Chosen(s), ENTER + LEAVE + ([RunnerBeginCopy] + CopyBlocks(MAX_BLOCKS))) == Pass(code, s, None)
  {
    var c := Chosen(s);
    ChosenRunner(s);
    DecidedRunner(code, c);
    ReadyStays(c);
    EnterIsRun(code, c);
    LeaveIsRun(code, c);
    RunConcat(code, c, ENTER, LEAVE);
    RunConcat(code, c, ENTER + LEAVE, [RunnerBeginCopy] + CopyBlocks(MAX_BLOCKS));
    CopyToEndAndWait(code, c);
  }

  lemma ReadyStays(s: State)
    requires Bounded(s) && s.runner.Ready?
    ensures Chosen(s) == s
  {
  }

  // ----- What a pass does -----

  /** Where the half that a message names starts, in either buffer. */
  function HalfOf(m: Message, size: nat): nat {
    if ForFirst(m.code) then 0 else size / 2
  }

  /** The block that a message names, as it is in the input buffer. */
  function BlockFor(s: State, m: Message): (r: seq<Sample>)
    requires Bounded(s)
    ensures |r| == s.input.size / 2
  {
    var h, at := s.input.size / 2, HalfOf(m, s.input.size);
    s.input.mem[at..at + h]
  }

  lemma ChosenState(s: State)
    requires Bounded(s) && s.runner.Waiting? && s.held.Some?
    ensures var c, m := Chosen(s), s.held.value;
            && c.input == s.input && c.output == s.output && c.memory == s.memory && c.entry == s.entry
            && c.errors == s.errors
            && c.watch == (if s.entry != 0 && ForMeasure(m.code) then Started(m.event) else s.watch)
            && c.runner == if s.entry != 0 then Entered(m, HalfOf(m, s.input.size), s.input.size / 2, s.entry,
                                                        ForMeasure(m.code))
                           else Ready(m, s.input.size / 2, Live(HalfOf(m, s.input.size)))
  {
  }

  lemma StartOfRounded(mem: seq<Sample>, base: nat, block: seq<Sample>, n: nat)
    requires |block| <= n && base + n <= |mem|
    ensures Overwrite(mem, base, block)[base..base + n][..|block|] == block
  {
    var after := Overwrite(mem, base, block);
    SliceOfSlice(after, base, n, 0, |block|);
    assert after[base..base + |block|] == block;
  }

  /** The copy reads the block as the algorithm left it, or what it returned instead. */
  lemma DecidedSource(code: Code, s: State)
    requires Bounded(s) && InAlgorithm(s.runner) && s.runner.entry != 0
    ensures var r, d := s.runner, Decided(code, s);
            && d.runner.Ready? && d.runner.size == r.size && CopyCount(r.size) >= r.size
            && SamplesOf(d, d.runner.source, CopyCount(r.size))[..r.size]
               == Process(code, r.entry, s.memory, s.input.mem[r.base..r.base + r.size])
  {
    var r := s.runner;
    var outcome := code(r.entry, s.memory, s.input.mem[r.base..r.base + r.size]);
    CopyCountMonotone(r.size, MAX_SAMPLE_BUFFER_SIZE / 2);
    StartOfRounded(s.input.mem, r.base, outcome.block, CopyCount(r.size));
  }

  /** After the call the runner is about to copy what the algorithm made of the block. */
  lemma DecidedState(code: Code, s: State)
    requires Bounded(s) && InAlgorithm(s.runner)
    requires s.runner.timing ==> s.watch == Started(s.runner.msg.event)
    ensures var r, d := s.runner, Decided(code, s);
            && d.runner.Ready? && d.runner.msg == r.msg && d.runner.size == r.size
            && (r.entry != 0 ==>
                  d.memory == After(code, r.entry, s.memory, s.input.mem[r.base..r.base + r.size]))
            && d.output == s.output && d.entry == s.entry && d.errors == s.errors && d.input.size == s.input.size
            && d.watch == if r.timing then Elapsed(r.msg.event, r.msg.event) else s.watch
  {
  }

  /** The output buffer after the call that ends a pass: `want` in the half at `at`, which is noted, and
      the other half as it was. */
  ghost predicate HalfWritten(before: Buffer, after: Buffer, at: nat, want: seq<Sample>) {
    var h := |want|;
    && after.modified == Some(at) && after.size == before.size == 2 * h
    && |after.mem| == |before.mem| == MAX_SAMPLE_BUFFER_SIZE && 2 * h <= MAX_SAMPLE_BUFFER_SIZE
    && (at == 0 || at == h)
    && after.mem[at..at + h] == want
    && (at == h || (0 < h && h % 16 == 0) ==> after.mem[h - at..h - at + h] == before.mem[h - at..h - at + h])
  }

  lemma CopiedState(s: State, want: seq<Sample>)
    requires Bounded(s) && s.runner.Ready? && s.runner.size == s.output.size / 2 == |want|
    requires SamplesOf(s, s.runner.source, CopyCount(|want|))[..|want|] == want
    ensures HalfWritten(s.output, Copied(s).output, if ForFirst(s.runner.msg.code) then 0 else |want|, want)
  {
    HalfWritesFit(s.output, SamplesOf(s, s.runner.source, CopyCount(|want|)));
  }

  /** What the runner is about to copy, and what the pass has done by then. */
  ghost predicate ReadyWith(s: State, d: State, want: seq<Sample>, memory: seq<Byte>, watch: Stopwatch)
    requires Bounded(d) && s.held.Some?
  {
    && d.runner.Ready? && d.runner.msg == s.held.value && d.runner.size == |want|
    && SamplesOf(d, d.runner.source, CopyCount(|want|))[..|want|] == want
    && d.memory == memory && d.watch == watch
    && d.output == s.output && d.entry == s.entry && d.errors == s.errors && d.held.None?
  }

  lemma ReadyWithout(code: Code, s: State)
    requires Bounded(s) && s.runner.Waiting? && s.held.Some? && s.entry == 0
    ensures ReadyWith(s, Decided(code, Chosen(s)), BlockFor(s, s.held.value), s.memory, s.watch)
  {
    var h, at := s.input.size / 2, HalfOf(s.held.value, s.input.size);
    ChosenState(s);
    ChosenRunner(s);
    DecidedRunner(code, Chosen(s));
    CopyCountMonotone(h, MAX_SAMPLE_BUFFER_SIZE / 2);
    SliceOfSlice(s.input.mem, at, CopyCount(h), 0, h);
  }

  lemma ReadyFrom(code: Code, s: State, c: State)
    requires Bounded(s) && Bounded(c) && s.held.Some? && s.entry != 0 && c.held.None?
    requires c.input == s.input && c.output == s.output && c.memory == s.memory && c.entry == s.entry
    requires c.errors == s.errors
    requires var m := s.held.value;
             && c.runner == Entered(m, HalfOf(m, s.input.size), s.input.size / 2, s.entry, ForMeasure(m.code))
             && c.watch == if ForMeasure(m.code) then Started(m.event) else s.watch
    ensures var m, block := s.held.value, BlockFor(s, s.held.value);
            ReadyWith(s, Decided(code, c), Process(code, s.entry, s.memory, block),
                      After(code, s.entry, s.memory, block),
                      if ForMeasure(m.code) then Elapsed(m.event, m.event) else s.watch)
  {
    DecidedHeld(code, c);
    DecidedSource(code, c);
    DecidedState(code, c);
  }

  lemma ReadyWithCode(code: Code, s: State)
    requires Bounded(s) && s.runner.Waiting? && s.held.Some? && s.entry != 0
    ensures var m, block := s.held.value, BlockFor(s, s.held.value);
            ReadyWith(s, Decided(code, Chosen(s)), Process(code, s.entry, s.memory, block),
                      After(code, s.entry, s.memory, block),
                      if ForMeasure(m.code) then Elapsed(m.event, m.event) else s.watch)
  {
    ChosenState(s);
    ChosenRunner(s);
    ReadyFrom(code, s, Chosen(s));
  }

  /** What one pass makes of a message: the half of the output that it names holds the named block as the
      algorithm makes of it, or the block itself without one, and is noted for the host; the other half
      keeps its contents, unless the first half is not a positive multiple of sixteen; the algorithm's
      memory is as the algorithm leaves it; and a measured block leaves its own time on the stopwatch. */
  lemma PassProcesses(code: Code, s: State)
    requires Bounded(s) && s.runner.Waiting? && s.held.Some?
    ensures var r, m := Pass(code, s, None), s.held.value;
            && HalfWritten(s.output, r.output, HalfOf(m, s.input.size),
                           Process(code, s.entry, s.memory, BlockFor(s, m)))
            && r.memory == After(code, s.entry, s.memory, BlockFor(s, m))
            && r.watch == (if s.entry != 0 && ForMeasure(m.code) then Elapsed(m.event, m.event) else s.watch)
            && r.entry == s.entry && r.errors == s.errors && r.runner.Waiting? && r.held.None?
  {
    if s.entry == 0 {
      ReadyWithout(code, s);
    } else {
      ReadyWithCode(code, s);
    }
    CopiedState(Decided(code, Chosen(s)), Process(code, s.entry, s.memory, BlockFor(s, s.held.value)));
  }

  /** A pass without a fault ends with the copy. */
  lemma PassCopies(code: Code, s: State, fault: Option<Leftover>)
    requires Bounded(s) && s.runner.Waiting? && s.held.Some? && (fault.None? || s.entry == 0)
    ensures Pass(code, s, fault) == Copied(Decided(code, Chosen(s)))
  {
    if s.entry == 0 {
      ReadyWithout(code, s);
    } else {
      ReadyWithCode(code, s);
    }
  }

  lemma PassOutput(code: Code, s: State, fault: Option<Leftover>)
    requires Bounded(s) && s.runner.Waiting? && s.held.Some? && (fault.None? || s.entry == 0)
    ensures HalfWritten(s.output, Pass(code, s, fault).output, HalfOf(s.held.value, s.input.size),
                        Process(code, s.entry, s.memory, BlockFor(s, s.held.value)))
  {
    PassProcesses(code, s);
    PassCopies(code, s, fault);
    PassCopies(code, s, None);
  }

  lemma DecidedHeld(code: Code, s: State)
    requires Bounded(s)
    ensures Decided(code, s).held == s.held
  {
  }

  /** The mailbox, the session and the size of its buffers. */
  function QueueOf(s: State): (seq<Message>, RunStatus, bool, nat) {
    (s.mailbox, s.status, s.halted, s.input.size)
  }

  lemma ChosenLeavesQueue(s: State)
    requires Bounded(s)
    ensures QueueOf(Chosen(s)) == QueueOf(s)
  {
  }

  lemma DecidedLeavesQueue(code: Code, s: State)
    requires Bounded(s)
    ensures QueueOf(Decided(code, s)) == QueueOf(s)
  {
  }

  lemma CopiedLeavesQueue(s: State)
    requires Bounded(s) && s.runner.Ready?
    ensures QueueOf(Copied(s)) == QueueOf(s)
  {
  }

  /** A pass has nothing to do with them. */
  lemma PassLeavesQueue(code: Code, s: State)
    requires Bounded(s)
    ensures QueueOf(Pass(code, s, None)) == QueueOf(s)
  {
    ChosenLeavesQueue(s);
    DecidedLeavesQueue(code, Chosen(s));
    var d := Decided(code, Chosen(s));
    if d.runner.Ready? {
      CopiedLeavesQueue(d);
    }
  }

  /** An algorithm that faults is unloaded and reported, leaves the output as it was, its memory and its block
      as it had changed them by then, and the stopwatch running if its block was measured. */
  lemma PassFaults(code: Code, s: State, left: Leftover)
    requires Bounded(s) && s.runner.Waiting? && s.held.Some? && s.entry != 0
    ensures var r, m := Pass(code, s, Some(left)), s.held.value;
            && r.output == s.output && r.entry == 0 && r.errors == Push(s.errors, ConversionAborted)
            && r.runner.Waiting? && r.held.None? && r.input.size == s.input.size
            && r.watch == (if ForMeasure(m.code) then Started(m.event) else s.watch)
            && (|left.block| == s.input.size / 2 && |left.memory| == |s.memory| ==>
                  r.memory == left.memory && BlockFor(r, m) == left.block)
  {
    ChosenState(s);
    ChosenRunner(s);
    if |left.block| == s.input.size / 2 && |left.memory| == |s.memory| {
      var at := HalfOf(s.held.value, s.input.size);
      assert Overwrite(s.input.mem, at, left.block)[at..at + |left.block|] == left.block;
    }
  }

  /** The algorithm returns, and the pointer it returned turns out not to be readable. */
  const RETURN_BADLY: seq<Step> := [RunnerCompute, RunnerStopTimer, RunnerFault]

  function Misled(code: Code, s: State): (r: State)
    requires Bounded(s)
    ensures Bounded(r)
  {
    FaultStep(StopTimerStep(ComputeStep(code, s)))
  }

  lemma NextMisled(code: Code, s: State)
    requires Bounded(s) && !s.halted
    ensures Next(code, s, RunnerFault) == FaultStep(s)
  {
  }

  lemma MisledIsRun(code: Code, s: State)
    requires Bounded(s) && !s.halted
    ensures Run(code, s, RETURN_BADLY) == Misled(code, s)
  {
    StepsThree(code, s, RunnerCompute, RunnerStopTimer, RunnerFault);
    NextLeaves(code, s);
    NextLeaves(code, ComputeStep(code, s));
    NextMisled(code, StopTimerStep(ComputeStep(code, s)));
  }

  lemma MisledState(code: Code, s: State)
    requires Bounded(s) && InAlgorithm(s.runner) && s.runner.entry != 0
    requires s.runner.timing ==> s.watch == Started(s.runner.msg.event)
    ensures var r, q := s.runner, Misled(code, s);
            && q.output == s.output && q.entry == 0 && q.errors == Push(s.errors, ConversionAborted)
            && q.runner.Waiting? && q.held == s.held
            && q.memory == After(code, r.entry, s.memory, s.input.mem[r.base..r.base + r.size])
            && q.watch == if r.timing then Elapsed(r.msg.event, r.msg.event) else s.watch
  {
  }

  lemma BadIsRun(code: Code, s: State)
    requires Bounded(s) && !s.halted
    ensures Run(code, s, ENTER + RETURN_BADLY) == Misled(code, Chosen(s))
  {
    RunConcat(code, s, ENTER, RETURN_BADLY);
    EnterIsRun(code, s);
    MisledIsRun(code, Chosen(s));
  }

  lemma ChosenMisled(code: Code, s: State)
    requires Bounded(s) && s.runner.Waiting? && s.held.Some? && s.entry != 0
    ensures var r, m := Misled(code, Chosen(s)), s.held.value;
            && r.output == s.output && r.entry == 0 && r.errors == Push(s.errors, ConversionAborted)
            && r.runner.Waiting? && r.held.None?
            && r.memory == After(code, s.entry, s.memory, BlockFor(s, m))
            && r.watch == if ForMeasure(m.code) then Elapsed(m.event, m.event) else s.watch
  {
    ChosenState(s);
    ChosenRunner(s);
    MisledState(code, Chosen(s));
  }

  /** An algorithm that returns a pointer that cannot be read has run to its end, and been timed if it was to
      be; then it is unloaded and reported like one that faults, and the output stays as it was. */
  lemma BadPointer(code: Code, s: State, r: State)
    requires Bounded(s) && !s.halted && s.runner.Waiting? && s.held.Some? && s.entry != 0
    requires r == Run(code, s, ENTER + RETURN_BADLY)
    ensures r.output == s.output && r.entry == 0 && r.errors == Push(s.errors, ConversionAborted)
    ensures r.runner.Waiting? && r.held.None?
    ensures r.memory == After(code, s.entry, s.memory, BlockFor(s, s.held.value))
    ensures var m := s.held.value; r.watch == if ForMeasure(m.code) then Elapsed(m.event, m.event) else s.watch
  {
    BadIsRun(code, s);
    ChosenMisled(code, s);
  }
}
