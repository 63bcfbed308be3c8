/** Exactly which half sizes give an exact output stream, and how the loaded algorithm can change
    within a session. */
module PipelineExact {
  import opened Basics
  import opened SampleBuffers
  import opened Pipeline
  import opened PipelineCopy
  import opened PipelineStream

  /** Every timely session of half size `h` puts out the exact stream. */
  ghost predicate StreamPromise(h: nat)
    requires 0 < h
  {
    forall code: Code, s: State, steps: seq<Step> ::
      FreshSession(s, h) && Timely(code, s, steps) ==> StreamExact(code, h, s.memory, Run(code, s, steps))
  }

  lemma {:induction false} TimelyConcat(code: Code, s: State, first: seq<Step>, second: seq<Step>)
    requires Bounded(s) && Timely(code, s, first) && Timely(code, Run(code, s, first), second)
    ensures Run(code, s, first + second) == Run(code, Run(code, s, first), second)
    ensures Timely(code, s, first + second)
    decreases |first|
  {
    if first == [] {
      assert first + second == second;
    } else {
      assert (first + second)[1..] == first[1..] + second;
      TimelyConcat(code, Next(code, s, first[0]), first[1..], second);
    }
  }

  // ----- A session that goes wrong when blocks of sixteen do not fill a half -----

  /** A converting session whose input buffer is all zeros. */
  predicate Zeroed(s: State) {
    && Bounded(s) && Converting(s) && !s.operation.NoOperation?
    && s.adcSize == s.dacSize == s.input.size && s.pos == s.dacPos
    && s.input.mem == Repeat(0, MAX_SAMPLE_BUFFER_SIZE)
    && s.entry == 0
  }

  function ZeroTicks(n: nat): seq<Step> {
    Repeat(Tick(0, false), n)
  }

  /** Zeros captured inside a half change nothing but positions and history. */
  lemma {:induction false} QuietZeros(code: Code, s: State, n: nat)
    requires Zeroed(s) && s.pos + n < s.adcSize / 2
    ensures Timely(code, s, ZeroTicks(n))
    ensures var r := Run(code, s, ZeroTicks(n));
            && Zeroed(r) && r.pos == s.pos + n
            && |r.log.captured| == |s.log.captured| + n && |r.log.played| == |s.log.played| + n
            && r == s.(input := r.input, pos := r.pos, dacPos := r.dacPos, log := r.log)
            && r.input.size == s.input.size
    decreases n
  {
    if n > 0 {
      assert ZeroTicks(n)[1..] == ZeroTicks(n - 1);
      var s1 := Next(code, s, Tick(0, false));
      assert s1.input.mem == s.input.mem;
      QuietZeros(code, s1, n - 1);
    }
  }

  const HAND_OVER: seq<Step> := [MonitorFetch] + ([RunnerAccept] + ([RunnerEnter] + [RunnerBeginCopy]))

  lemma Singleton(code: Code, s: State, step: Step)
    requires Bounded(s)
    ensures Run(code, s, [step]) == Next(code, s, step)
    ensures TimelyStep(s, step) ==> Timely(code, s, [step])
  {
    assert [step][1..] == [];
    assert Timely(code, Next(code, s, step), []);
  }

  /** One step before others. */
  lemma StepFirst(code: Code, s: State, step: Step, s1: State, rest: seq<Step>)
    requires Bounded(s) && Bounded(s1) && s1 == Next(code, s, step) && TimelyStep(s, step) && Timely(code, s1, rest)
    ensures Run(code, s, [step] + rest) == Run(code, s1, rest) && Timely(code, s, [step] + rest)
  {
    assert ([step] + rest)[1..] == rest;
  }

  lemma NextHands(code: Code, s: State)
    requires Bounded(s) && !s.halted
    ensures Next(code, s, MonitorFetch) == FetchStep(s) && !FetchStep(s).halted
    ensures Next(code, s, RunnerAccept) == AcceptStep(s) && !AcceptStep(s).halted
    ensures Next(code, s, RunnerEnter) == EnterStep(s) && !EnterStep(s).halted
    ensures Next(code, s, RunnerBeginCopy) == BeginCopyStep(s)
  {
  }

  lemma HandOverRun(code: Code, s: State)
    requires Bounded(s) && !s.halted
    ensures Run(code, s, HAND_OVER) == BeginCopyStep(EnterStep(AcceptStep(FetchStep(s))))
    ensures Timely(code, s, HAND_OVER)
  {
    var s1 := FetchStep(s);
    var s2 := AcceptStep(s1);
    var s3 := EnterStep(s2);
    NextHands(code, s);
    NextHands(code, s1);
    NextHands(code, s2);
    NextHands(code, s3);
    Singleton(code, s3, RunnerBeginCopy);
    StepFirst(code, s2, RunnerEnter, s3, [RunnerBeginCopy]);
    StepFirst(code, s1, RunnerAccept, s2, [RunnerEnter] + [RunnerBeginCopy]);
    StepFirst(code, s, MonitorFetch, s1, [RunnerAccept] + ([RunnerEnter] + [RunnerBeginCopy]));
  }

  /** A message for the first half taken as far as its copy, with no algorithm loaded. */
  lemma HandedOver(code: Code, s: State)
    requires Zeroed(s) && s.runner.Waiting? && s.held.None?
    requires |s.mailbox| == 1 && ForFirst(s.mailbox[0].code)
    ensures Timely(code, s, HAND_OVER)
    ensures var r := Run(code, s, HAND_OVER);
            && Zeroed(r) && r.mailbox == [] && r.held.None?
            && r.runner == Copying(Live(0), 0, RoundUp16(s.input.size / 2), 0)
            && r.output.mem == s.output.mem && r.pos == s.pos && r.input.size == s.input.size
            && r.log.played == s.log.played && r.log.captured == s.log.captured
  {
    HandOverRun(code, s);
    var s2 := AcceptStep(FetchStep(s));
    assert s2.runner == Accepted(s.mailbox[0]) && s2.mailbox == [] && s2.held.None?;
    var s3 := EnterStep(s2);
    assert s3.runner == Ready(s.mailbox[0], s.input.size / 2, Live(0));
  }

  lemma {:induction false} CopiesAreTimely(code: Code, s: State, n: nat)
    requires Bounded(s)
    ensures Timely(code, s, CopyBlocks(n))
    decreases n
  {
    if n > 0 {
      assert CopyBlocks(n)[1..] == CopyBlocks(n - 1);
      CopiesAreTimely(code, Next(code, s, RunnerCopyBlock), n - 1);
    }
  }

  /** The tick that completes the first block leaves one message for the first half. */
  lemma FirstBlockSignals(code: Code, h: nat, s: State)
    requires Zeroed(s) && Quiescent(s) && s.input.size == 2 * h && s.pos + 1 == h
    ensures Timely(code, s, [Tick(0, false)])
    ensures var r := Run(code, s, [Tick(0, false)]);
            && Zeroed(r) && r.runner.Waiting? && r.held.None? && r.input.size == 2 * h
            && |r.mailbox| == 1 && ForFirst(r.mailbox[0].code) && r.pos == h
            && |r.log.played| == |s.log.played| + 1 && |r.log.captured| == |s.log.captured| + 1
  {
    assert CompletesHalf(s);
    DrainedCallback(Sampled(s, 0), false, false);
    assert Sampled(s, 0).input.mem == s.input.mem;
    Singleton(code, s, Tick(0, false));
  }

  /** A block of `h` zeros leaves one message for the first half. */
  lemma FirstBlockCaptured(code: Code, h: nat, s: State) returns (steps: seq<Step>)
    requires FreshSession(s, h) && Zeroed(s)
    ensures Timely(code, s, steps)
    ensures var r := Run(code, s, steps);
            && Zeroed(r) && r.runner.Waiting? && r.held.None?
            && |r.mailbox| == 1 && ForFirst(r.mailbox[0].code)
            && r.pos == h && r.input.size == 2 * h && |r.log.played| == |r.log.captured| == h
  {
    QuietZeros(code, s, h - 1);
    FirstBlockSignals(code, h, Run(code, s, ZeroTicks(h - 1)));
    steps := ZeroTicks(h - 1) + [Tick(0, false)];
    TimelyConcat(code, s, ZeroTicks(h - 1), [Tick(0, false)]);
  }

  lemma PassThroughSpills(code: Code, h: nat, s: State)
    requires 0 < h && 2 * h <= MAX_SAMPLE_BUFFER_SIZE && h % 16 != 0
    requires Zeroed(s) && s.mailbox == [] && s.held.None?
    requires s.runner == Copying(Live(0), 0, RoundUp16(h), 0)
    ensures var r := Run(code, s, CopyBlocks(RoundUp16(h) / 16));
            && Zeroed(r) && Quiescent(r) && r.output.mem[h] == 0
            && r == s.(runner := Waiting, output := r.output)
  {
    var count := RoundUp16(h);
    var zeros := SamplesOf(s, Live(0), count);
    BlocksToEnd(code, s, count / 16, zeros);
    assert zeros[0..] == zeros && zeros[h] == s.input.mem[h];
  }

  lemma CopyAfter(code: Code, h: nat, s: State, first: seq<Step>, s1: State) returns (steps: seq<Step>)
    requires 0 < h && 2 * h <= MAX_SAMPLE_BUFFER_SIZE && h % 16 != 0
    requires Bounded(s) && Timely(code, s, first) && s1 == Run(code, s, first)
    requires Zeroed(s1) && s1.mailbox == [] && s1.held.None?
    requires s1.runner == Copying(Live(0), 0, RoundUp16(h), 0)
    ensures Timely(code, s, steps)
    ensures var r := Run(code, s, steps);
            && Zeroed(r) && Quiescent(r) && r.output.mem[h] == 0
            && r.pos == s1.pos && r.log.played == s1.log.played
  {
    CopiesAreTimely(code, s1, RoundUp16(h) / 16);
    PassThroughSpills(code, h, s1);
    steps := first + CopyBlocks(RoundUp16(h) / 16);
    TimelyConcat(code, s, first, CopyBlocks(RoundUp16(h) / 16));
  }

  /** Passing it through puts a zero at the start of the second half of the output buffer. */
  lemma FirstBlockSpilled(code: Code, h: nat, s: State) returns (steps: seq<Step>)
    requires 0 < h && 2 * h <= MAX_SAMPLE_BUFFER_SIZE && h % 16 != 0
    requires Zeroed(s) && s.runner.Waiting? && s.held.None? && s.input.size == 2 * h
    requires |s.mailbox| == 1 && ForFirst(s.mailbox[0].code)
    ensures Timely(code, s, steps)
    ensures var r := Run(code, s, steps);
            && Zeroed(r) && Quiescent(r) && r.output.mem[h] == 0
            && r.pos == s.pos && r.log.played == s.log.played
  {
    HandedOver(code, s);
    steps := CopyAfter(code, h, s, HAND_OVER, Run(code, s, HAND_OVER));
  }

  /** The next tick plays it. */
  lemma SpillPlayed(code: Code, h: nat, memory: seq<Byte>, s: State)
    requires 0 < h && Zeroed(s) && Quiescent(s) && s.pos == h && |s.log.played| == h
    requires s.output.mem[h] == 0
    ensures Timely(code, s, [Tick(0, false)])
    ensures !StreamExact(code, h, memory, Run(code, s, [Tick(0, false)]))
  {
    Singleton(code, s, Tick(0, false));
    PlayedNext(s);
    WrongSample(code, h, memory, Next(code, s, Tick(0, false)));
  }

  /** The spill heard: with `h` not a multiple of sixteen, passing through a block of zeros puts out
      a zero where the second half of the initial mid-scale buffer was due. */
  lemma SpillHeard(code: Code, h: nat, s: State) returns (steps: seq<Step>)
    requires FreshSession(s, h) && h % 16 != 0 && Zeroed(s)
    ensures Timely(code, s, steps) && !StreamExact(code, h, s.memory, Run(code, s, steps))
  {
    var capture := FirstBlockCaptured(code, h, s);
    var s1 := Run(code, s, capture);
    var spill := FirstBlockSpilled(code, h, s1);
    var s2 := Run(code, s1, spill);
    var play := [Tick(0, false)];
    SpillPlayed(code, h, s.memory, s2);
    TimelyConcat(code, s1, spill, play);
    TimelyConcat(code, s, capture, spill + play);
    steps := capture + (spill + play);
  }

  lemma PlayedNext(s: State)
    requires Zeroed(s) && Quiescent(s)
    ensures TickStep(s, 0, false).log.played == s.log.played + [s.output.mem[s.dacPos]]
  {
    if CompletesHalf(s) {
      DrainedCallback(Sampled(s, 0), s.pos + 1 == s.adcSize, false);
    }
  }

  lemma WrongSample(code: Code, h: nat, memory: seq<Byte>, s: State)
    requires 0 < h < |s.log.played| && s.log.played[h] != MIDSCALE
    ensures !StreamExact(code, h, memory, s)
  {
  }

  /** The output stream is exact in every timely session if and only if the half size is a multiple
      of sixteen. */
  lemma ExactIffSixteen(h: nat)
    requires 0 < h && 2 * h <= MAX_SAMPLE_BUFFER_SIZE
    ensures StreamPromise(h) <==> h % 16 == 0
  {
    if h % 16 == 0 {
      forall code: Code, s: State, steps: seq<Step> | FreshSession(s, h) && Timely(code, s, steps)
        ensures StreamExact(code, h, s.memory, Run(code, s, steps))
      {
        StreamTheorem(code, h, s, steps);
      }
    } else {
      var zeros := Repeat(0, MAX_SAMPLE_BUFFER_SIZE);
      var boot := Boot(zeros, zeros, []);
      var idle := boot.(input := boot.input.(size := 2 * h), output := boot.output.(size := 2 * h));
      StartOpensSession(idle);
      var code: Code := (entry: nat, memory: seq<Byte>, block: seq<Sample>) => Outcome(InPlace, block, memory);
      var steps := SpillHeard(code, h, StartStep(idle));
    }
  }

  // ----- Split point -----

  /** The first `k` blocks met the entry point `initial` and the others met none. */
  ghost predicate Split(entries: seq<nat>, initial: nat, k: nat) {
    && k <= |entries|
    && (forall i :: 0 <= i < k ==> entries[i] == initial)
    && (forall i :: k <= i < |entries| ==> entries[i] == 0)
  }

  /** The entry point never changes but to null, and the `k` first blocks of the session met it. */
  ghost predicate Fading(initial: nat, s: State, k: nat) {
    && s.status == Running
    && (s.entry == initial || s.entry == 0)
    && Split(s.log.entries, initial, k)
    && (k < |s.log.entries| ==> s.entry == 0)
  }

  /** Nothing but the choice of an entry point adds one, and none changes but to null. */
  ghost predicate Keeps(s: State, r: State) {
    r.status == Running && r.log.entries == s.log.entries && (r.entry == s.entry || r.entry == 0)
  }

  lemma CallbackKeeps(s: State, complete: bool, onRunnerStack: bool)
    requires Bounded(s) && Converting(s)
    ensures Keeps(s, ConversionCallback(s, complete, onRunnerStack))
  {
  }

  lemma TickKeeps(s: State, sample: Sample, onRunnerStack: bool)
    requires Bounded(s) && s.status == Running
    ensures Keeps(s, TickStep(s, sample, onRunnerStack))
  {
    if CompletesHalf(s) {
      CallbackKeeps(Sampled(s, sample), s.pos + 1 == s.adcSize, onRunnerStack);
    }
  }

  lemma HostKeeps(s: State, command: Command)
    requires Bounded(s) && s.status == Running && !command.StopConversion?
    ensures Keeps(s, HostStep(s, command))
  {
  }

  lemma ThreadKeeps(code: Code, s: State, step: Step)
    requires Bounded(s) && s.status == Running && !step.Tick? && !step.Host? && !step.RunnerEnter?
    ensures Keeps(s, Next(code, s, step))
  {
  }

  lemma StepFades(code: Code, initial: nat, s: State, step: Step, k: nat) returns (k': nat)
    requires Bounded(s) && Fading(initial, s, k) && step != Host(StopConversion)
    ensures Fading(initial, Next(code, s, step), k')
  {
    k' := k;
    if !s.halted {
      match step
      case Tick(sample, onRunnerStack) => TickKeeps(s, sample, onRunnerStack);
      case Host(command) => HostKeeps(s, command);
      case RunnerEnter =>
        if s.runner.Accepted? && k == |s.log.entries| && s.entry == initial {
          k' := k + 1;
        }
      case _ => ThreadKeeps(code, s, step);
    }
  }

  lemma {:induction false} RunFades(code: Code, initial: nat, s: State, steps: seq<Step>, k: nat)
    returns (k': nat)
    requires Bounded(s) && Fading(initial, s, k) && Host(StopConversion) !in steps
    ensures Fading(initial, Run(code, s, steps), k')
    decreases |steps|
  {
    k' := k;
    if steps != [] {
      k' := StepFades(code, initial, s, steps[0], k);
      k' := RunFades(code, initial, Next(code, s, steps[0]), steps[1..], k');
    }
  }

  /** Split point: until the session is stopped, whatever overruns, faults, unloads and rejected
      loads occur, there is an index before which every block met the algorithm loaded at the start
      of the session and from which every block passes through. */
  lemma SplitPoint(code: Code, s: State, steps: seq<Step>)
    requires Bounded(s) && s.status == Running && s.log.entries == []
    requires Host(StopConversion) !in steps
    ensures exists k :: Split(Run(code, s, steps).log.entries, s.entry, k)
  {
    var k := RunFades(code, s.entry, s, steps, 0);
  }
}
