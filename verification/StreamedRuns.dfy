/**
 * Whole runs with what the service makes of them: the stream the engine gives,
 * the state it merges to, and the terminal events that are published.
 */
module StreamedRuns {
  import opened Wrappers
  import opened Domain
  import opened ServiceStream
  import ExecutionRunner
  import Workflow
  import WorkflowRuns
  import WorkflowOutcomes

  /** What the engine streams when the nodes of a superstep finish in their listed order. */
  function StreamOf(env: Workflow.Env, s: IncidentState, runner: ExecutionRunner.RunnerState,
          answers: seq<Workflow.Answer>)
    : seq<Workflow.NodeUpdate>
  {
    if answers == [] then [] else
      var n := |answers| - 1;
      StreamOf(env, s, runner, answers[..n]) +
      match Workflow.NodeOutputs(env, Workflow.Run(env, s, runner, answers[..n]), answers[n])
      case Written(us, _) => us
      case Raised(_) => []
  }

  /** Merging the stream gives the state of the graph. */
  lemma {:induction false} ShadowOfStream(env: Workflow.Env, s: IncidentState, runner: ExecutionRunner.RunnerState,
          answers: seq<Workflow.Answer>)
    ensures Shadow(s, StreamOf(env, s, runner, answers)) == Workflow.Run(env, s, runner, answers).state
  {
    hide Workflow.NodeOutputs;
    hide Workflow.Step;
    if answers != [] {
      var n := |answers| - 1;
      var c := Workflow.Run(env, s, runner, answers[..n]);
      ShadowOfStream(env, s, runner, answers[..n]);
      ShadowOfSuperstep(env, c, answers[n]);
      match Workflow.NodeOutputs(env, c, answers[n])
      case Written(us, _) => ShadowConcat(s, StreamOf(env, s, runner, answers[..n]), us);
      case Raised(_) =>
        assert StreamOf(env, s, runner, answers) == StreamOf(env, s, runner, answers[..n]);
    }
  }

  const CHALLENGED := Workflow.Answer([], [], [], [], [], [Hypothesis("H-1", "", [])], "H-1", Critique(Challenge, ""),
                                      [], (n: nat) => ExecutionRunner.ToolSuccess(""), Assessment(Recovered, false))

  /** One round that the critic challenges ends the run, and no terminal event tells its subscribers. */
  lemma ChallengedRunIsSilent(env: Workflow.Env, s: IncidentState, runner: ExecutionRunner.RunnerState)
    requires Workflow.Fresh(s)
    ensures var answers := WorkflowRuns.Repeated(CHALLENGED, 5);
            && Workflow.Run(env, s, runner, answers).phase == Workflow.Done
            && FirstTerminal(RunEvents(s, StreamOf(env, s, runner, answers), Completed)) == None
  {
    hide Workflow.Step;
    hide Workflow.Run;
    hide Shadow;
    hide StreamOf;
    hide RunEvents;
    hide FirstTerminal;
    hide WorkflowRuns.Repeated;
    var answers := WorkflowRuns.Repeated(CHALLENGED, 5);
    WorkflowRuns.FirstRound(env, s, runner, CHALLENGED);
    ShadowOfStream(env, s, runner, answers);
    FirstTerminalOfRun(s, StreamOf(env, s, runner, answers), Completed);
  }

  /**
   * A run that completes has published a terminal event exactly when it ends
   * RESOLVED. With a remediation that means: nothing had to be rolled back and
   * the verifier saw the service recovered. A FAILED one publishes none.
   */
  lemma TerminalEventOfRun(env: Workflow.Env, s: IncidentState, runner: ExecutionRunner.RunnerState,
          answers: seq<Workflow.Answer>)
    ensures FirstTerminal(RunEvents(s, StreamOf(env, s, runner, answers), Completed)).Some? <==>
              Workflow.Run(env, s, runner, answers).state.currentStage == Resolved
  {
    hide Workflow.Run;
    hide Shadow;
    hide StreamOf;
    hide RunEvents;
    hide FirstTerminal;
    ShadowOfStream(env, s, runner, answers);
    FirstTerminalOfRun(s, StreamOf(env, s, runner, answers), Completed);
  }

  lemma TerminalEventOfRemediation(env: Workflow.Env, s: IncidentState, runner: ExecutionRunner.RunnerState,
          answers: seq<Workflow.Answer>, plan: Workflow.Answer, execute: Workflow.Answer, verify: Workflow.Answer)
    requires Workflow.Fresh(s) && Workflow.Run(env, s, runner, answers).phase == Workflow.AtPlanning
    ensures var all := answers + [plan] + [execute] + [verify];
            var c := Workflow.Run(env, s, runner, all);
            var rolledBack := verify.assessment.rollbackRecommended && plan.actions != [];
            c.phase == Workflow.Done ==>
              && (FirstTerminal(RunEvents(s, StreamOf(env, s, runner, all), Completed)).Some? <==>
                    !rolledBack && verify.assessment.status == Recovered)
              && (rolledBack <==> c.state.currentStage == Failed)
  {
    hide Workflow.Run;
    hide Workflow.ExecuteAll;
    hide StreamOf;
    hide RunEvents;
    hide FirstTerminal;
    TerminalEventOfRun(env, s, runner, answers + [plan] + [execute] + [verify]);
    WorkflowOutcomes.RemediationOutcome(env, s, runner, answers, plan, execute, verify);
  }

  /** A round that the critic approves, with nothing cited and nothing to remediate. */
  const RECOVERED := Workflow.Answer([], [], [], [], [], [Hypothesis("H-1", "", [])], "H-1", Critique(Approve, ""), [],
                                     (n: nat) => ExecutionRunner.ToolSuccess(""), Assessment(Recovered, false))

  lemma RecoveredRunResolves(env: Workflow.Env, s: IncidentState, runner: ExecutionRunner.RunnerState)
    requires Workflow.Fresh(s)
    ensures var c := Workflow.Run(env, s, runner, WorkflowRuns.Repeated(RECOVERED, 8));
            c.phase == Workflow.Done && c.state.currentStage == Resolved
  {
    hide Workflow.Step;
    hide Workflow.Run;
    hide WorkflowRuns.Repeated;
    hide ExecutionRunner.Execute;
    WorkflowRuns.FirstRound(env, s, runner, RECOVERED);
    WorkflowRuns.RepeatedLast(env, s, runner, RECOVERED, 5);
    WorkflowRuns.RepeatedLast(env, s, runner, RECOVERED, 6);
    WorkflowRuns.RepeatedLast(env, s, runner, RECOVERED, 7);
    WorkflowRuns.PlanningStep(env, Workflow.Run(env, s, runner, WorkflowRuns.Repeated(RECOVERED, 5)), RECOVERED);
    WorkflowRuns.ExecutionStep(env, Workflow.Run(env, s, runner, WorkflowRuns.Repeated(RECOVERED, 6)), RECOVERED);
    WorkflowRuns.VerificationStep(env, Workflow.Run(env, s, runner, WorkflowRuns.Repeated(RECOVERED, 7)), RECOVERED);
  }

  /** The report of that run raises: its subscribers stop at `resolved`, and the incident has FAILED. */
  lemma ResolvedEventOfFailedIncident(env: Workflow.Env, s: IncidentState, runner: ExecutionRunner.RunnerState,
          error: string)
    requires Workflow.Fresh(s)
    ensures var stream := StreamOf(env, s, runner, WorkflowRuns.Repeated(RECOVERED, 8));
            var first := FirstTerminal(RunEvents(s, stream, ReportRaised(error)));
            && first.Some? && first.value.event == "resolved"
            && FinalState(Shadow(s, stream), ReportRaised(error)).currentStage == Failed
  {
    hide Workflow.Run;
    hide Shadow;
    hide StreamOf;
    hide RunEvents;
    hide FirstTerminal;
    hide WorkflowRuns.Repeated;
    var answers := WorkflowRuns.Repeated(RECOVERED, 8);
    RecoveredRunResolves(env, s, runner);
    ShadowOfStream(env, s, runner, answers);
    FirstTerminalOfRun(s, StreamOf(env, s, runner, answers), ReportRaised(error));
  }
}
