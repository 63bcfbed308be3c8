/** The block steps of the runner's copy, run without interruption, amount to `modify` and
    `midmodify` of the output buffer. */
module PipelineCopy {
  import opened Basics
  import opened SampleBuffers
  import opened Pipeline

  /** The first `n` samples of a source. */
  function SamplesOf(s: State, source: Source, n: nat): (r: seq<Sample>)
    requires |s.input.mem| == MAX_SAMPLE_BUFFER_SIZE && Covers(source, n)
    ensures |r| == n
  {
    match source
    case Live(base) => s.input.mem[base..base + n]
    case Fixed(samples) => samples[..n]
  }

  function CopyBlocks(n: nat): seq<Step> {
    Repeat(RunnerCopyBlock, n)
  }

  lemma BlockIsSlice(s: State, source: Source, n: nat, at: nat)
    requires |s.input.mem| == MAX_SAMPLE_BUFFER_SIZE && Covers(source, n) && at + 16 <= n
    ensures BlockOf(s, source, at) == SamplesOf(s, source, n)[at..at + 16]
  {
    match source
    case Live(base) => SliceOfSlice(s.input.mem, base, n, at, at + 16);
    case Fixed(samples) => SliceOfSlice(samples, 0, n, at, at + 16);
  }

  /** The state with the runner waiting again and `data` written at `at`. */
  function Written(s: State, at: nat, data: seq<Sample>): State
    requires at + |data| <= |s.output.mem|
  {
    s.(runner := Waiting, output := s.output.(mem := Overwrite(s.output.mem, at, data)))
  }

  /** One block step in terms of the whole source `all`. */
  lemma OneBlock(s: State, all: seq<Sample>)
    requires Bounded(s) && s.runner.Copying?
    requires all == SamplesOf(s, s.runner.source, Moved(s.runner.count)) && s.runner.done + 16 <= |all|
    ensures var c := s.runner;
            var block := all[c.done..c.done + 16];
            CopyBlockStep(s) == Written(s, c.dest + c.done, block).(
              runner := if c.done + 16 < c.count then c.(done := c.done + 16) else Waiting)
  {
    BlockIsSlice(s, s.runner.source, |all|, s.runner.done);
  }

  lemma JoinWritten(s: State, at: nat, all: seq<Sample>, done: nat)
    requires done + 16 <= |all| && at + (|all| - done) <= |s.output.mem|
    ensures Written(Written(s, at, all[done..done + 16]), at + 16, all[done + 16..]) == Written(s, at, all[done..])
  {
    JoinOverwrites(s.output.mem, at, all[done..done + 16], all[done + 16..]);
    assert all[done..done + 16] + all[done + 16..] == all[done..];
  }

  lemma FirstBlock(code: Code, s: State, n: nat)
    requires Bounded(s) && !s.halted && 0 < n
    ensures Run(code, s, CopyBlocks(n)) == Run(code, CopyBlockStep(s), CopyBlocks(n - 1))
  {
    assert CopyBlocks(n)[1..] == CopyBlocks(n - 1);
    assert Next(code, s, RunnerCopyBlock) == CopyBlockStep(s);
  }

  /** Where the copy stands after one block: at its end, or at the next block of the same source. */
  lemma AfterBlock(s: State, all: seq<Sample>)
    requires Bounded(s) && s.runner.Copying?
    requires all == SamplesOf(s, s.runner.source, Moved(s.runner.count)) && s.runner.done + 16 <= |all|
    ensures var c, s1 := s.runner, CopyBlockStep(s);
            && s1.halted == s.halted
            && (c.done + 16 < c.count ==> s1.runner == c.(done := c.done + 16)
                                          && all == SamplesOf(s1, c.source, Moved(c.count)))
            && (c.done + 16 >= c.count ==> s1 == Written(s, c.dest + c.done, all[c.done..c.done + 16]))
  {
    OneBlock(s, all);
  }

  /** Copying from block boundary `done` to the end writes the rest of the source in one piece. */
  lemma {:induction false} BlocksToEnd(code: Code, s: State, n: nat, all: seq<Sample>)
    requires Bounded(s) && !s.halted && s.runner.Copying? && 0 < n
    requires all == SamplesOf(s, s.runner.source, Moved(s.runner.count))
    requires s.runner.done + 16 * n == |all|
    ensures Run(code, s, CopyBlocks(n)) == Written(s, s.runner.dest + s.runner.done, all[s.runner.done..])
    decreases n
  {
    var at, done := s.runner.dest + s.runner.done, s.runner.done;
    FirstBlock(code, s, n);
    AfterBlock(s, all);
    if n > 1 {
      BlocksToEnd(code, CopyBlockStep(s), n - 1, all);
      OneBlock(s, all);
      JoinWritten(s, at, all, done);
    } else {
      assert CopyBlocks(0) == [];
      assert all[done..done + 16] == all[done..];
    }
  }

  /** Whether the runner's message asks for the first half. */
  predicate ToFirst(s: State)
    requires s.runner.Ready?
  {
    ForFirst(s.runner.msg.code)
  }

  /** How many samples the call at the end of the runner's loop copies, before rounding. */
  function CopyLength(s: State): nat
    requires s.runner.Ready?
  {
    Min(s.runner.size, if ToFirst(s) then s.output.size else s.output.size / 2)
  }

  /** The output buffer after that call. */
  function WholeCopy(s: State): Buffer
    requires Bounded(s) && s.runner.Ready?
  {
    CopyCountMonotone(CopyLength(s), s.runner.size);
    var data := SamplesOf(s, s.runner.source, CopyCount(s.runner.size));
    if ToFirst(s) then Modified(s.output, data, s.runner.size)
    else MidModified(s.output, data, s.runner.size)
  }

  /** Any source that starts with the samples decided on gives the same buffer. */
  lemma WholeCopyOf(s: State, source: seq<Sample>)
    requires Bounded(s) && s.runner.Ready?
    requires CopyCount(s.runner.size) <= |source|
    requires source[..CopyCount(s.runner.size)] == SamplesOf(s, s.runner.source, CopyCount(s.runner.size))
    ensures CopyCount(CopyLength(s)) <= |source|
    ensures WholeCopy(s) == if ToFirst(s) then Modified(s.output, source, s.runner.size)
                            else MidModified(s.output, source, s.runner.size)
  {
    var n, m := CopyCount(CopyLength(s)), CopyCount(s.runner.size);
    CopyCountMonotone(CopyLength(s), s.runner.size);
    assert source[..m][..n] == source[..n];
  }

  /** The state after that call. */
  function Copied(s: State): (r: State)
    requires Bounded(s) && s.runner.Ready?
    ensures Bounded(r)
  {
    s.(runner := Waiting, output := WholeCopy(s),
       log := s.log.(tally := s.log.tally.(outNotified := s.log.tally.outNotified + 1)))
  }

  /** From a decided source the copy steps, run to their end, are the one call. */
  lemma CopyToEnd(code: Code, s: State)
    requires Bounded(s) && !s.halted && s.runner.Ready?
    ensures Run(code, s, [RunnerBeginCopy] + CopyBlocks(CopyCount(CopyLength(s)) / 16)) == Copied(s)
  {
    var n := CopyCount(CopyLength(s)) / 16;
    CopyCountMonotone(CopyLength(s), s.runner.size);
    var s1 := Next(code, s, RunnerBeginCopy);
    assert ([RunnerBeginCopy] + CopyBlocks(n))[1..] == CopyBlocks(n);
    BlocksToEnd(code, s1, n, SamplesOf(s1, s.runner.source, CopyCount(CopyLength(s))));
    assert SamplesOf(s1, s.runner.source, CopyCount(CopyLength(s)))[0..]
        == SamplesOf(s, s.runner.source, CopyCount(s.runner.size))[..CopyCount(CopyLength(s))];
  }

  lemma {:induction false} NothingToCopy(code: Code, s: State, n: nat)
    requires Bounded(s) && !s.runner.Copying?
    ensures Run(code, s, CopyBlocks(n)) == s
    decreases n
  {
    if n > 0 {
      assert CopyBlocks(n)[1..] == CopyBlocks(n - 1);
      NothingToCopy(code, s, n - 1);
    }
  }

  /** As many block steps as the largest half needs: a shorter copy ends before. */
  const MAX_BLOCKS := 256

  lemma CopyToEndAndWait(code: Code, s: State)
    requires Bounded(s) && !s.halted && s.runner.Ready?
    ensures Run(code, s, [RunnerBeginCopy] + CopyBlocks(MAX_BLOCKS)) == Copied(s)
  {
    var n := CopyCount(CopyLength(s)) / 16;
    CopyCountMonotone(CopyLength(s), MAX_SAMPLE_BUFFER_SIZE / 2);
    assert CopyCount(MAX_SAMPLE_BUFFER_SIZE / 2) == 4096;
    assert [RunnerBeginCopy] + CopyBlocks(MAX_BLOCKS)
        == ([RunnerBeginCopy] + CopyBlocks(n)) + CopyBlocks(MAX_BLOCKS - n);
    CopyToEnd(code, s);
    RunConcat(code, s, [RunnerBeginCopy] + CopyBlocks(n), CopyBlocks(MAX_BLOCKS - n));
    NothingToCopy(code, Copied(s), MAX_BLOCKS - n);
  }
}
