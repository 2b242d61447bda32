/**
 * What has happened by the time a run plans, executes and verifies a
 * remediation, and what a completed remediation leaves behind.
 */
module WorkflowOutcomes {
  import opened Wrappers
  import opened Json
  import opened Domain
  import ER = ExecutionRunner
  import opened Workflow
  import opened WorkflowRuns

  // Approval by the critic

  /**
   * The critic approved the selected hypothesis on the evidence in `before`, and
   * nothing of that has changed in `c`.
   */
  ghost predicate ApprovedIn(c: Config, before: Config, a: Answer) {
    && before.phase == AtCritic
    && before.state.selected.Some?
    && c.state.selected == before.state.selected
    && c.state.evidence == before.state.evidence
    && c.state.critique == Some(Review(before.state.selected.value, before.state.evidence, a.critique))
    && c.state.critique.value.decision == Approve
  }

  lemma PlanningFollowsApproval(env: Env, c: Config, a: Answer)
    requires RoundInv(ControlOf(c)) && Step(env, c, a).phase == AtPlanning
    ensures ApprovedIn(Step(env, c, a), c, a)
  {
    ControlFollows(env, c, a);
    CriticStep(env, c, a);
  }

  lemma RemediationKeepsApproval(env: Env, c: Config, a: Answer, critic: Config, verdict: Answer)
    requires InRemediation(c.phase) && ApprovedIn(c, critic, verdict) && InRemediation(Step(env, c, a).phase)
    ensures ApprovedIn(Step(env, c, a), critic, verdict)
  {
    ControlFollows(env, c, a);
    if c.phase == AtPlanning {
      PlanningStep(env, c, a);
    } else {
      ExecutionStep(env, c, a);
    }
  }

  /**
   * Whenever a run plans, executes or verifies a remediation, the stored
   * critique is the one the critic issued in this very round: it approves the
   * hypothesis that is still selected, on the evidence that is still collected,
   * and every evidence id that hypothesis cites has been collected.
   */
  lemma {:induction false} RemediationOnlyAfterApproval(env: Env, s: IncidentState, runner: ER.RunnerState,
          answers: seq<Answer>)
    requires Fresh(s) && InRemediation(Run(env, s, runner, answers).phase)
    ensures var c := Run(env, s, runner, answers);
            var d := SinceCritic(c.phase);
            && d <= |answers|
            && ApprovedIn(c, Run(env, s, runner, answers[..|answers| - d]), answers[|answers| - d])
            && Grounded(c.state.selected.value, c.state.evidence)
    decreases |answers|
  {
    hide Step;
    assert answers != [];
    var n := |answers| - 1;
    var before := Run(env, s, runner, answers[..n]);
    RunLast(env, s, runner, answers);
    PhaseBefore(env, before, answers[n]);
    var c := Step(env, before, answers[n]);
    if c.phase == AtPlanning {
      RunRoundInv(env, s, runner, answers[..n]);
      PlanningFollowsApproval(env, before, answers[n]);
      ApprovalIsGrounded(c, before, answers[n]);
    } else {
      RemediationOnlyAfterApproval(env, s, runner, answers[..n]);
      var m := n - SinceCritic(before.phase);
      assert answers[..n][..m] == answers[..m];
      RemediationKeepsApproval(env, before, answers[n], Run(env, s, runner, answers[..m]), answers[m]);
      ApprovalIsGrounded(c, Run(env, s, runner, answers[..m]), answers[m]);
    }
  }

  /** The citation check precedes the model's verdict, so an approval is grounded. */
  lemma ApprovalIsGrounded(c: Config, critic: Config, verdict: Answer)
    requires ApprovedIn(c, critic, verdict)
    ensures Grounded(c.state.selected.value, c.state.evidence)
  {
  }

  // Before the plan

  lemma StepBeforePlan(env: Env, c: Config, a: Answer)
    requires InRound(c.phase)
    ensures var s, s' := c.state, Step(env, c, a).state;
            s'.plan == s.plan && s'.executionResults == s.executionResults
    ensures Step(env, c, a).runner == c.runner
  {
    match c.phase
    case AtSupervisor => SupervisorStep(env, c, a);
    case AtAnalysts => AnalystsStep(env, c, a);
    case AtJoin => JoinStep(env, c, a);
    case AtRca => RcaStep(env, c, a);
    case AtCritic => CriticStep(env, c, a);
  }

  /** Until it plans a remediation a run has executed nothing. */
  lemma {:induction false} NothingExecutedBeforePlan(env: Env, s: IncidentState, runner: ER.RunnerState,
          answers: seq<Answer>)
    requires Fresh(s)
    requires var p := Run(env, s, runner, answers).phase; InRound(p) || p == AtPlanning
    ensures var c := Run(env, s, runner, answers);
            c.state.plan.None? && c.state.executionResults == [] && c.runner == runner
  {
    if answers != [] {
      var n := |answers| - 1;
      var before := Run(env, s, runner, answers[..n]);
      RunLast(env, s, runner, answers);
      ControlFollows(env, before, answers[n]);
      NothingExecutedBeforePlan(env, s, runner, answers[..n]);
      StepBeforePlan(env, before, answers[n]);
    }
  }

  // A completed remediation

  function RollbackEvents(s: IncidentState, a: Answer): seq<TimelineEvent> {
    if RollsBack(s, a) then [TimelineEvent(Failed, "ExecutionRunner", Actions(s)[|Actions(s)| - 1].actionId)] else []
  }

  lemma PlanOutcome(env: Env, c: Config, a: Answer)
    requires c.phase == AtPlanning && c.state.selected.Some?
    ensures var c' := Step(env, c, a);
            && c'.phase == AtExecution && c'.runner == c.runner
            && c'.state.plan == Some(RemediationPlan(c.state.incidentId, c.state.selected.value.id,
                   AssessAll(env.engine, a.actions, c.state.incidentId)))
            && c'.state.executionResults == c.state.executionResults
            && c'.state.timeline == c.state.timeline + [Event(RemediationPlanning, "RemediationAgent")]
  {
    PlanningStep(env, c, a);
  }

  lemma ExecutionOutcome(env: Env, c: Config, a: Answer)
    requires c.phase == AtExecution
    ensures var c' := Step(env, c, a);
            var (runner, results) := ExecuteAll(c.runner, env.registry, Actions(c.state), a.outcomes);
            && c'.runner == runner && c'.state.plan == c.state.plan
            && (c'.phase == AtVerification <==> results.Some?) && (c'.phase == Crashed <==> results.None?)
            && (results.None? ==> c'.state == c.state)
            && (results.Some? ==>
                  && c'.state.executionResults
                         == (if Actions(c.state) == [] then c.state.executionResults else results.value)
                  && c'.state.timeline == c.state.timeline + ExecutionEvents(Actions(c.state)))
  {
    ExecutionStep(env, c, a);
    assert Actions(c.state) == [] ==> ExecutionEvents(Actions(c.state)) == [];
  }

  /** The runner after the verification: the compensation of the last action, or no call at all. */
  function AfterVerification(env: Env, runner: ER.RunnerState, s: IncidentState, a: Answer): ER.RunnerState {
    if RollsBack(s, a) then
        ER.ExecuteRollback(runner, env.registry, Actions(s)[|Actions(s)| - 1], "OPERATOR", a.outcomes(0)).0
    else runner
  }

  lemma VerificationOutcome(env: Env, c: Config, a: Answer)
    requires c.phase == AtVerification
    ensures var c' := Step(env, c, a);
            && c'.runner == AfterVerification(env, c.runner, c.state, a)
            && c'.state.plan == c.state.plan && c'.state.executionResults == c.state.executionResults
            && (c'.phase == Crashed ==> RollsBack(c.state, a) && c'.state == c.state)
            && (c'.phase != Crashed ==>
                  && c'.phase == Done
                  && c'.state.verification == Some(a.assessment)
                  && (c'.state.currentStage == Failed <==> RollsBack(c.state, a))
                  && (c'.state.currentStage == Resolved <==> !RollsBack(c.state, a) && a.assessment.status == Recovered)
                  && c'.state.timeline
                         == c.state.timeline + [Event(Verifying, "VerificationAgent")] + RollbackEvents(c.state, a))
  {
    hide Step;
    hide ER.ExecuteRollback;
    VerificationStep(env, c, a);
  }

  /** The run once it has planned and once it has executed. */
  lemma RemediationUpToExecution(env: Env, s: IncidentState, runner: ER.RunnerState, answers: seq<Answer>, plan: Answer,
          execute: Answer)
    requires Fresh(s) && Run(env, s, runner, answers).phase == AtPlanning
    ensures var start := Run(env, s, runner, answers);
            var c := Run(env, s, runner, answers + [plan] + [execute]);
            var actions := AssessAll(env.engine, plan.actions, start.state.incidentId);
            var (after, results) := ExecuteAll(runner, env.registry, actions, execute.outcomes);
            && c.runner == after
            && Actions(c.state) == actions
            && (c.phase == AtVerification <==> results.Some?) && (c.phase == Crashed <==> results.None?)
            && (results.None? ==> c.state.executionResults == [] && |c.state.timeline| == |start.state.timeline| + 1)
            && (results.Some? ==>
                  && c.state.executionResults == results.value
                  && |c.state.timeline| == |start.state.timeline| + |actions| + 1)
  {
    hide Step;
    hide AssessAll;
    var c0 := Run(env, s, runner, answers);
    RemediationOnlyAfterApproval(env, s, runner, answers);
    NothingExecutedBeforePlan(env, s, runner, answers);
    RunSnoc(env, s, runner, answers, plan);
    RunSnoc(env, s, runner, answers + [plan], execute);
    PlanOutcome(env, c0, plan);
    ExecutionOutcome(env, Step(env, c0, plan), execute);
  }

  /**
   * A run that has planned, executed and verified: the plan's actions are the
   * proposed ones after assessment. When no call raises, the results match them
   * one to one in order, the incident has FAILED exactly when a rollback was
   * recommended and there was an action (whose last one, and no other, is
   * compensated), and otherwise is RESOLVED exactly when the verifier saw it
   * recovered. A call that raises ends the run where it is.
   */
  lemma {:induction false} RemediationOutcome(env: Env, s: IncidentState, runner: ER.RunnerState, answers: seq<Answer>,
          plan: Answer, execute: Answer, verify: Answer)
    requires Fresh(s) && Run(env, s, runner, answers).phase == AtPlanning
    ensures var start := Run(env, s, runner, answers);
            var c := Run(env, s, runner, answers + [plan] + [execute] + [verify]);
            var actions := AssessAll(env.engine, plan.actions, start.state.incidentId);
            var (after, results) := ExecuteAll(runner, env.registry, actions, execute.outcomes);
            && Actions(c.state) == actions
            && (results.None? ==> c.phase == Crashed && c.runner == after && c.state.executionResults == [])
            && (results.Some? ==>
                  && (c.phase == Done || (c.phase == Crashed && verify.assessment.rollbackRecommended && actions != []))
                  && |c.state.executionResults| == |actions|
                  && (forall i :: 0 <= i < |actions| ==> c.state.executionResults[i].actionId == actions[i].actionId)
                  && c.runner == AfterVerification(env, after, c.state, verify))
            && (c.phase == Done ==>
                  && (c.state.currentStage == Failed <==> verify.assessment.rollbackRecommended && actions != [])
                  && (c.state.currentStage == Resolved <==>
                        !(verify.assessment.rollbackRecommended && actions != [])
                        && verify.assessment.status == Recovered)
                  && |c.state.timeline| == |start.state.timeline| + |actions| + 2
                       + (if verify.assessment.rollbackRecommended && actions != [] then 1 else 0))
  {
    hide Step;
    hide AssessAll;
    hide ExecuteAll;
    RemediationUpToExecution(env, s, runner, answers, plan, execute);
    RunSnoc(env, s, runner, answers + [plan] + [execute], verify);
    var c := Run(env, s, runner, answers + [plan] + [execute]);
    if c.phase == AtVerification {
      VerificationOutcome(env, c, verify);
    } else {
      EndedStep(env, c, verify);
    }
  }

  // The compensation of a run

  /** A keyed action whose execution reports success has its key recorded. */
  lemma SuccessRecordsKey(st: ER.RunnerState, registry: ER.Registry, action: RemediationAction, role: string,
          outcome: ER.ToolOutcome)
    requires action.idempotencyKey != ""
    ensures var (st', reply) := ER.Execute(st, registry, action, Obj(action.parameters), role, outcome);
            reply.Reply? && reply.result.status == Succeeded ==> action.idempotencyKey in st'.executed
  {
  }

  lemma LastSuccessRecordsKey(st: ER.RunnerState, registry: ER.Registry, actions: seq<RemediationAction>,
          outcomes: nat -> ER.ToolOutcome)
    requires actions != [] && actions[|actions| - 1].idempotencyKey != ""
    ensures var n := |actions| - 1;
            var (after, results) := ExecuteAll(st, registry, actions, outcomes);
            results.Some? && results.value[n].status == Succeeded ==> actions[n].idempotencyKey in after.executed
  {
    hide ER.Execute;
    var n := |actions| - 1;
    var (before, earlier) := ExecuteAll(st, registry, actions[..n], outcomes);
    SuccessRecordsKey(before, registry, actions[n], "OPERATOR", outcomes(n));
  }

  /** A rollback is due, and the last action, which compensates in kind, reported success under a key. */
  predicate CompensatesSuccess(c: Config, verify: Answer) {
    && c.phase == AtVerification && RollsBack(c.state, verify)
    && var n := |Actions(c.state)| - 1;
       && ER.CompensatesInKind(Actions(c.state)[n]) && Actions(c.state)[n].idempotencyKey != ""
       && n < |c.state.executionResults| && c.state.executionResults[n].status == Succeeded
  }

  /**
   * When the last planned action compensates in kind and its execution reports
   * success under a key, the rollback that the verification asks for runs no
   * tool, is reported as ROLLED_BACK, and leaves the incident FAILED.
   */
  lemma SucceededActionIsNotRolledBack(env: Env, s: IncidentState, runner: ER.RunnerState, answers: seq<Answer>,
          plan: Answer, execute: Answer, verify: Answer)
    requires Fresh(s) && Run(env, s, runner, answers).phase == AtPlanning
    ensures var before := Run(env, s, runner, answers + [plan] + [execute]);
            var c := Run(env, s, runner, answers + [plan] + [execute] + [verify]);
            CompensatesSuccess(before, verify) ==>
              var last := Actions(before.state)[|Actions(before.state)| - 1];
              && c.runner == before.runner
              && ER.ExecuteRollback(before.runner, env.registry, last, "OPERATOR", verify.outcomes(0))
                   == (before.runner, ER.Reply(ExecutionResult(last.actionId, RolledBack, ER.SKIPPED)))
              && c.phase == Done && c.state.currentStage == Failed
  {
    hide Step;
    hide AssessAll;
    var c := Run(env, s, runner, answers + [plan] + [execute]);
    if CompensatesSuccess(c, verify) {
      RemediationUpToExecution(env, s, runner, answers, plan, execute);
      RunSnoc(env, s, runner, answers + [plan] + [execute], verify);
      LastSuccessRecordsKey(runner, env.registry, Actions(c.state), execute.outcomes);
      VerificationRollback(env, c, verify);
    }
  }

  lemma VerificationRollback(env: Env, c: Config, a: Answer)
    requires c.phase == AtVerification && RollsBack(c.state, a)
    requires var last := Actions(c.state)[|Actions(c.state)| - 1];
             ER.CompensatesInKind(last) && last.idempotencyKey != "" && last.idempotencyKey in c.runner.executed
    ensures var last := Actions(c.state)[|Actions(c.state)| - 1];
            ER.ExecuteRollback(c.runner, env.registry, last, "OPERATOR", a.outcomes(0))
              == (c.runner, ER.Reply(ExecutionResult(last.actionId, RolledBack, ER.SKIPPED)))
    ensures Step(env, c, a).runner == c.runner && Step(env, c, a).phase == Done
    ensures Step(env, c, a).state.currentStage == Failed
  {
    VerificationStep(env, c, a);
  }

  // The timeline

  /** Events of a round so far. */
  function RoundGrowth(offset: nat): nat {
    if offset == 0 then 0 else if offset == 1 then 1 else if offset <= 3 then 5 else 6
  }

  lemma TimelineStep(env: Env, c: Config, a: Answer)
    requires InRound(c.phase)
    ensures var c' := Step(env, c, a);
            var k := Offset(c.phase);
            |c'.state.timeline| - c'.state.iterationCount + RoundGrowth(k)
              == |c.state.timeline| - c.state.iterationCount + (if k == 4 then 6 else RoundGrowth(k + 1))
  {
    match c.phase
    case AtSupervisor => SupervisorStep(env, c, a);
    case AtAnalysts => AnalystsStep(env, c, a);
    case AtJoin => JoinStep(env, c, a);
    case AtRca => RcaStep(env, c, a);
    case AtCritic => CriticStep(env, c, a);
  }

  /** The timeline after these answers, from `base` events. */
  ghost predicate TimelineAt(c: Config, answers: seq<Answer>, base: nat) {
    |c.state.timeline| == base + 6 * (|answers| / 5) + Rounds(answers, true) + RoundGrowth(|answers| % 5)
  }

  lemma TimelineNext(env: Env, c: Config, a: Answer, answers: seq<Answer>, base: nat)
    requires InRound(c.phase) && OnClock(ControlOf(c), answers) && TimelineAt(c, answers, base)
    ensures TimelineAt(Step(env, c, a), answers + [a], base)
  {
    hide Step;
    hide NodeOutputs;
    hide ReviewIn;
    hide SelectHypothesis;
    TimelineStep(env, c, a);
    ControlFollows(env, c, a);
    ClockTicks(ControlOf(c), InputOf(env, c, a), answers, a);
    RoundArithmetic(|answers|);
  }

  lemma NoTimelineYet(env: Env, s: IncidentState, runner: ER.RunnerState)
    ensures TimelineAt(Run(env, s, runner, []), [], |s.timeline|)
  {
  }

  /**
   * While a run investigates, and after the round that ends its investigation,
   * the timeline has grown by six events for each round and one more for each
   * round whose analysis found a hypothesis, plus those of the round under way.
   */
  lemma {:induction false} TimelineOfRounds(env: Env, s: IncidentState, runner: ER.RunnerState, answers: seq<Answer>)
    requires Fresh(s)
    requires answers != [] ==> InRound(Run(env, s, runner, answers[..|answers| - 1]).phase)
    ensures TimelineAt(Run(env, s, runner, answers), answers, |s.timeline|)
    decreases |answers|
  {
    hide Step;
    hide OnClock;
    hide TimelineAt;
    if answers == [] {
      NoTimelineYet(env, s, runner);
    } else {
      var n := |answers| - 1;
      if n > 0 {
        assert answers[..n][..n - 1] == answers[..n - 1];
        RunLast(env, s, runner, answers[..n]);
        PhaseBefore(env, Run(env, s, runner, answers[..n - 1]), answers[n - 1]);
      }
      TimelineOfRounds(env, s, runner, answers[..n]);
      ClockOfRun(env, s, runner, answers[..n]);
      RunLast(env, s, runner, answers);
      TimelineNext(env, Run(env, s, runner, answers[..n]), answers[n], answers[..n], |s.timeline|);
      assert answers[..n] + [answers[n]] == answers;
    }
  }

  /** The timeline of a whole run with a remediation in which no call raised. */
  lemma TimelineOfRemediation(env: Env, s: IncidentState, runner: ER.RunnerState, answers: seq<Answer>, plan: Answer,
          execute: Answer, verify: Answer)
    requires Fresh(s) && Run(env, s, runner, answers).phase == AtPlanning
    ensures var c := Run(env, s, runner, answers + [plan] + [execute] + [verify]);
            && |answers| % 5 == 0
            && (c.phase == Done ==>
                  |c.state.timeline| == |s.timeline| + 6 * (|answers| / 5) + Rounds(answers, true)
                    + |plan.actions| + 2 + (if c.state.currentStage == Failed then 1 else 0))
  {
    hide Step;
    hide ExecuteAll;
    var n := |answers| - 1;
    assert answers != [];
    RunLast(env, s, runner, answers);
    PhaseBefore(env, Run(env, s, runner, answers[..n]), answers[n]);
    TimelineOfRounds(env, s, runner, answers);
    ClockOfRun(env, s, runner, answers);
    RemediationOutcome(env, s, runner, answers, plan, execute, verify);
  }

  // The runner during a run

  lemma {:induction false} ExecuteAllKeepsInv(st: ER.RunnerState, registry: ER.Registry,
          actions: seq<RemediationAction>, outcomes: nat -> ER.ToolOutcome)
    requires ER.SequentialInv(st)
    ensures ER.SequentialInv(ExecuteAll(st, registry, actions, outcomes).0)
  {
    if actions != [] {
      hide ER.SequentialInv;
      var n := |actions| - 1;
      ExecuteAllKeepsInv(st, registry, actions[..n], outcomes);
      ER.ExecuteKeepsInv(ExecuteAll(st, registry, actions[..n], outcomes).0, registry, actions[n],
          Obj(actions[n].parameters), "OPERATOR", outcomes(n));
    }
  }

  lemma StepKeepsGuard(env: Env, c: Config, a: Answer)
    requires ER.SequentialInv(c.runner)
    ensures ER.SequentialInv(Step(env, c, a).runner)
  {
    if InRound(c.phase) {
      StepBeforePlan(env, c, a);
    } else if c.phase == AtPlanning {
      PlanningStep(env, c, a);
    } else if c.phase == AtExecution {
      ExecutionOutcome(env, c, a);
      ExecuteAllKeepsInv(c.runner, env.registry, Actions(c.state), a.outcomes);
    } else if c.phase == AtVerification {
      VerificationOutcome(env, c, a);
      if RollsBack(c.state, a) {
        ER.CallKeepsInv(c.runner, env.registry,
            ER.DoRollback(Actions(c.state)[|Actions(c.state)| - 1], "OPERATOR", a.outcomes(0)));
      }
    } else {
      EndedStep(env, c, a);
    }
  }

  /**
   * A whole run, with its executions and its compensation, keeps the guard: no
   * tool is dispatched under a key after a success under it.
   */
  lemma {:induction false} RunKeepsGuard(env: Env, s: IncidentState, runner: ER.RunnerState, answers: seq<Answer>)
    requires ER.SequentialInv(runner)
    ensures ER.SequentialInv(Run(env, s, runner, answers).runner)
  {
    if answers != [] {
      var n := |answers| - 1;
      RunKeepsGuard(env, s, runner, answers[..n]);
      StepKeepsGuard(env, Run(env, s, runner, answers[..n]), answers[n]);
    }
  }
}
