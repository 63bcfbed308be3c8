/** How far the runner may fall behind: one message held by the monitor and two queued leave it three events
    of slack. */
module PipelineSlack {
  import opened Pipeline
  import opened PipelineFlow

  /** Messages the runner has yet to accept. */
  function Waiting(s: State): nat {
    |Held(s)| + |s.mailbox|
  }

  /** Events so far without a message that the runner accepted. */
  function Backlog(s: State): int {
    |s.log.halves| - |s.log.delivered|
  }

  function LossesOf(s: State): (nat, nat) {
    (s.log.overruns, s.log.dropped)
  }

  /** The monitor gets to run between two events: it holds a message whenever one is left for it. */
  predicate PromptStep(s: State, step: Step) {
    step.Tick? && CompletesHalf(s) && s.held.None? ==> s.mailbox == []
  }

  predicate Prompt(code: Code, s: State, steps: seq<Step>)
    requires Bounded(s)
    decreases |steps|
  {
    steps == [] || (PromptStep(s, steps[0]) && Prompt(code, Next(code, s, steps[0]), steps[1..]))
  }

  /** An event that finds the mailbox full. */
  predicate Loses(s: State, step: Step) {
    !s.halted && step.Tick? && CompletesHalf(s) && |s.mailbox| >= MAILBOX_SIZE
  }

  // ----- One step -----

  lemma HostLosesNothing(s: State, command: Command)
    requires Bounded(s)
    ensures LossesOf(HostStep(s, command)) == LossesOf(s) && Backlog(HostStep(s, command)) == Backlog(s)
    ensures HostStep(s, command).log.halves == s.log.halves
  {
  }

  lemma CallbackLoses(s: State, complete: bool, onRunnerStack: bool)
    requires Bounded(s) && Converting(s) && !s.operation.NoOperation?
    ensures var r := ConversionCallback(s, complete, onRunnerStack);
            LossesOf(r) == if |s.mailbox| < MAILBOX_SIZE then LossesOf(s)
                           else if s.operation.ReadHandler? then (s.log.overruns + 1, s.log.dropped)
                           else (s.log.overruns, s.log.dropped + 1)
  {
  }

  lemma CallbackGrows(s: State, complete: bool, onRunnerStack: bool)
    requires Bounded(s) && Converting(s)
    ensures var r := ConversionCallback(s, complete, onRunnerStack);
            s.log.overruns <= r.log.overruns && s.log.dropped <= r.log.dropped
  {
  }

  lemma StepGrows(code: Code, s: State, step: Step)
    requires Bounded(s)
    ensures var r := Next(code, s, step); s.log.overruns <= r.log.overruns && s.log.dropped <= r.log.dropped
  {
    match step
    case Host(command) => HostLosesNothing(s, command);
    case Tick(sample, onRunnerStack) =>
      if CompletesHalf(s) {
        CallbackGrows(Sampled(s, sample), s.pos + 1 == s.adcSize, onRunnerStack);
      }
    case _ =>
  }

  /** The counts of lost events grow with each of them, and not otherwise. */
  lemma StepLoses(code: Code, s: State, step: Step)
    requires Bounded(s) && (Converting(s) ==> !s.operation.NoOperation?)
    ensures LossesOf(Next(code, s, step)) == LossesOf(s) <==> !Loses(s, step)
  {
    match step
    case Host(command) => HostLosesNothing(s, command);
    case Tick(sample, onRunnerStack) =>
      if CompletesHalf(s) {
        CallbackLoses(Sampled(s, sample), s.pos + 1 == s.adcSize, onRunnerStack);
      }
    case _ =>
  }

  lemma CallbackHears(s: State, complete: bool, onRunnerStack: bool)
    requires Bounded(s) && Converting(s)
    ensures var r := ConversionCallback(s, complete, onRunnerStack);
            |s.log.halves| <= |r.log.halves| && r.log.delivered == s.log.delivered
  {
  }

  lemma StepHears(code: Code, s: State, step: Step)
    requires Bounded(s)
    ensures var r := Next(code, s, step);
            && |s.log.halves| <= |r.log.halves|
            && (step != RunnerAccept ==> r.log.delivered == s.log.delivered)
  {
    match step
    case Host(command) =>
      HostLosesNothing(s, command);
      HostDelivers(s, command);
    case Tick(sample, onRunnerStack) =>
      if CompletesHalf(s) {
        CallbackHears(Sampled(s, sample), s.pos + 1 == s.adcSize, onRunnerStack);
      }
    case _ =>
  }

  lemma HostDelivers(s: State, command: Command)
    requires Bounded(s)
    ensures HostStep(s, command).log.delivered == s.log.delivered
  {
  }

  /** Where an event is lost with a prompt monitor, three messages wait, and the event is one more. */
  lemma LossOverflows(code: Code, s: State, step: Step)
    requires Bounded(s) && FlowInvariant(s) && PromptStep(s, step) && Loses(s, step)
    ensures Waiting(s) == 3 && Backlog(Next(code, s, step)) == Backlog(s) + 1
  {
  }

  // ----- Whole runs -----

  lemma {:induction false} LossesGrow(code: Code, s: State, steps: seq<Step>)
    requires Bounded(s)
    ensures var r := Run(code, s, steps); s.log.overruns <= r.log.overruns && s.log.dropped <= r.log.dropped
    decreases |steps|
  {
    if steps != [] {
      StepGrows(code, s, steps[0]);
      LossesGrow(code, Next(code, s, steps[0]), steps[1..]);
    }
  }

  lemma {:induction false} RunHears(code: Code, s: State, steps: seq<Step>)
    requires Bounded(s)
    ensures var r := Run(code, s, steps);
            |s.log.halves| <= |r.log.halves| && (RunnerAccept !in steps ==> r.log.delivered == s.log.delivered)
    decreases |steps|
  {
    if steps != [] {
      StepHears(code, s, steps[0]);
      RunHears(code, Next(code, s, steps[0]), steps[1..]);
    }
  }

  /** The first event that is lost, and the steps before it. */
  lemma {:induction false} FirstLoss(code: Code, s: State, steps: seq<Step>) returns (first: seq<Step>, step: Step)
    requires Bounded(s) && FlowInvariant(s) && Prompt(code, s, steps)
    requires LossesOf(Run(code, s, steps)) != LossesOf(s)
    ensures first + [step] <= steps
    ensures var r := Run(code, s, first);
            LossesOf(r) == LossesOf(s) && FlowInvariant(r) && PromptStep(r, step) && Loses(r, step)
    decreases |steps|
  {
    StepLoses(code, s, steps[0]);
    if Loses(s, steps[0]) {
      first, step := [], steps[0];
    } else {
      StepKeepsFlow(code, s, steps[0]);
      var inner;
      inner, step := FirstLoss(code, Next(code, s, steps[0]), steps[1..]);
      first := [steps[0]] + inner;
      assert first[1..] == inner;
      assert first + [step] == [steps[0]] + (inner + [step]);
    }
  }

  /** As long as nothing is lost, the messages waiting and the events since then less the messages accepted
      since then are the messages waiting now. */
  lemma WaitingIsBacklog(s: State, r: State)
    requires FlowInvariant(s) && FlowInvariant(r) && LossesOf(r) == LossesOf(s)
    ensures Waiting(s) + Backlog(r) - Backlog(s) == Waiting(r) <= 3
  {
  }

  /** Losses between two states that have the same are the same. */
  lemma LossesBetween(s: State, mid: State, end: State)
    requires s.log.overruns <= mid.log.overruns <= end.log.overruns
    requires s.log.dropped <= mid.log.dropped <= end.log.dropped
    requires LossesOf(end) == LossesOf(s)
    ensures LossesOf(mid) == LossesOf(s)
  {
  }

  lemma NoLossBefore(code: Code, s: State, first: seq<Step>, second: seq<Step>)
    requires Bounded(s) && LossesOf(Run(code, s, first + second)) == LossesOf(s)
    ensures LossesOf(Run(code, s, first)) == LossesOf(s)
  {
    RunConcat(code, s, first, second);
    LossesGrow(code, s, first);
    LossesGrow(code, Run(code, s, first), second);
    LossesBetween(s, Run(code, s, first), Run(code, s, first + second));
  }

  /** How far the runner is behind after some steps: the messages waiting at first, and the events since less
      the messages accepted since. */
  function Behind(code: Code, s: State, steps: seq<Step>): int
    requires Bounded(s)
  {
    Waiting(s) + Backlog(Run(code, s, steps)) - Backlog(s)
  }

  lemma NeverBehind(code: Code, s: State, first: seq<Step>, second: seq<Step>)
    requires Bounded(s) && FlowInvariant(s) && LossesOf(Run(code, s, first + second)) == LossesOf(s)
    ensures Behind(code, s, first) <= 3
  {
    NoLossBefore(code, s, first, second);
    RunKeepsFlow(code, s, first);
    WaitingIsBacklog(s, Run(code, s, first));
  }

  lemma LossBehind(code: Code, s: State, steps: seq<Step>) returns (first: seq<Step>)
    requires Bounded(s) && FlowInvariant(s) && Prompt(code, s, steps)
    requires LossesOf(Run(code, s, steps)) != LossesOf(s)
    ensures first <= steps && Behind(code, s, first) > 3
  {
    var before, step := FirstLoss(code, s, steps);
    first := before + [step];
    RunSnoc(code, s, before, step);
    WaitingIsBacklog(s, Run(code, s, before));
    LossOverflows(code, Run(code, s, before), step);
  }

  /** The slack of the pipeline. With a prompt monitor no event is lost in a run, neither to an overrun nor as
      a measured one dropped, if and only if at every moment of it the events since its beginning, and the
      messages waiting then, are at most three more than the messages the runner has accepted since. */
  lemma SlackIff(code: Code, s: State, steps: seq<Step>)
    requires Bounded(s) && FlowInvariant(s) && Prompt(code, s, steps)
    ensures LossesOf(Run(code, s, steps)) == LossesOf(s)
            <==> forall first: seq<Step> :: first <= steps ==> Behind(code, s, first) <= 3
  {
    if LossesOf(Run(code, s, steps)) == LossesOf(s) {
      forall first: seq<Step> | first <= steps ensures Behind(code, s, first) <= 3 {
        assert first + steps[|first|..] == steps;
        NeverBehind(code, s, first, steps[|first|..]);
      }
    } else {
      var first := LossBehind(code, s, steps);
    }
  }

  /** So while the runner is busy with one block, and nothing else waits, three more events may come; a fourth
      is lost. */
  lemma OneBlockSlack(code: Code, s: State, steps: seq<Step>)
    requires Bounded(s) && FlowInvariant(s) && Prompt(code, s, steps) && RunnerAccept !in steps
    ensures LossesOf(Run(code, s, steps)) == LossesOf(s)
            <==> Waiting(s) + |Run(code, s, steps).log.halves| - |s.log.halves| <= 3
  {
    RunHears(code, s, steps);
    if LossesOf(Run(code, s, steps)) == LossesOf(s) {
      assert steps + [] == steps;
      NeverBehind(code, s, steps, []);
    } else {
      var first := LossBehind(code, s, steps);
      var rest := steps[|first|..];
      assert first + rest == steps;
      RunHears(code, s, first);
      RunHears(code, Run(code, s, first), rest);
      RunConcat(code, s, first, rest);
    }
  }
}
