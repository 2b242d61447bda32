/**
 * What each superstep writes, field by field: every node and the merge of its
 * update together, with the choices that the root-cause analysis and the critic
 * make.
 */
module NodeWrites {
  import opened Wrappers
  import opened Domain
  import opened Json
  import opened Lists
  import opened StateUpdate
  import Text
  import RiskPolicy
  import ER = ExecutionRunner
  import opened Workflow
  import opened WorkflowRuns

  // The investigation

  /** The supervisor stores its tasks, and the join only moves the stage on. */
  lemma SupervisorAndJoinWrite(env: Env, c: Config, a: Answer)
    ensures c.phase == AtSupervisor ==>
              Step(env, c, a) == Config(AtAnalysts,
                c.state.(currentStage := Planning, tasks := a.tasks,
                         timeline := c.state.timeline + [TimelineEvent(Planning, "SupervisorAgent", "")]), c.runner)
    ensures c.phase == AtJoin ==>
              Step(env, c, a) == Config(AtRca, c.state.(currentStage := Investigating), c.runner)
  {
    hide Step;
    if c.phase == AtSupervisor {
      SupervisorStep(env, c, a);
    } else if c.phase == AtJoin {
      JoinStep(env, c, a);
      assert c.state.timeline + [] == c.state.timeline && c.state.evidence + [] == c.state.evidence;
    }
  }

  /** Every update comes from one of the nodes that are active ... */
  lemma WritersAreActive(env: Env, c: Config, a: Answer)
    ensures match NodeOutputs(env, c, a)
            case Raised(_) => c.phase == AtExecution || c.phase == AtVerification
            case Written(us, _) =>
              && |us| == |ActiveNodes(c.phase)|
              && forall i :: 0 <= i < |us| ==> us[i].node == ActiveNodes(c.phase)[i]
  {
    hide ExecuteAll;
    hide ER.ExecuteRollback;
    hide SupervisorUpdate;
    hide AnalystUpdate;
    hide JoinUpdate;
    hide RcaUpdate;
    hide CriticUpdate;
    hide PlanningUpdate;
    hide ExecutionUpdate;
    hide VerificationUpdate;
  }

  /** ... and each analyst reports what it found. */
  lemma AnalystsReport(env: Env, c: Config, a: Answer)
    requires c.phase == AtAnalysts
    ensures match NodeOutputs(env, c, a)
            case Raised(_) => false
            case Written(us, _) =>
              forall u :: u in us ==>
                match u.node
                case LogAnalyst => u.update.evidence == a.logs
                case MetricsAnalyst => u.update.evidence == a.metrics
                case CodeAnalyst => u.update.evidence == a.code
                case MemoryAnalyst => u.update.evidence == a.memory
                case _ => false
  {
  }

  /** The `i`-th hypothesis has the id and none before it has. */
  predicate IsFirst(hypotheses: seq<Hypothesis>, id: string, i: nat) {
    i < |hypotheses| && hypotheses[i].id == id && forall j :: 0 <= j < i ==> hypotheses[j].id != id
  }

  /**
   * The selected hypothesis is the first with the primary id when some
   * hypothesis has it, else the first of all, and there is none only when there
   * are no hypotheses.
   */
  lemma SelectionMeaning(hypotheses: seq<Hypothesis>, primaryId: string)
    ensures var r := SelectHypothesis(hypotheses, primaryId);
            && (r.None? <==> hypotheses == [])
            && (forall i: nat :: IsFirst(hypotheses, primaryId, i) ==> r == Some(hypotheses[i]))
            && ((forall i :: 0 <= i < |hypotheses| ==> hypotheses[i].id != primaryId) && hypotheses != [] ==>
                  r == Some(hypotheses[0]))
            && ((exists h :: h in hypotheses && h.id == primaryId) ==> r.Some? && r.value.id == primaryId)
  {
    var k := FindHypothesis(hypotheses, primaryId);
    forall i: nat | IsFirst(hypotheses, primaryId, i)
      ensures SelectHypothesis(hypotheses, primaryId) == Some(hypotheses[i])
    {
      assert k == i;
    }
  }

  /** The analysis stores all hypotheses and selects one of them, as above. */
  lemma AnalysisWrites(env: Env, c: Config, a: Answer)
    requires c.phase == AtRca
    ensures var t := Step(env, c, a).state;
            && Step(env, c, a) == Config(AtCritic,
                 c.state.(currentStage := Analyzing, hypotheses := a.hypotheses, selected := t.selected,
                          timeline := c.state.timeline + [TimelineEvent(Analyzing, "RCAAgent", "")]), c.runner)
            && (t.selected.None? <==> a.hypotheses == [])
            && (t.selected.Some? ==> t.selected.value in a.hypotheses)
            && ((exists h :: h in a.hypotheses && h.id == a.primaryId) ==> t.selected.value.id == a.primaryId)
            && ((forall h :: h in a.hypotheses ==> h.id != a.primaryId) && a.hypotheses != [] ==>
                  t.selected.value == a.hypotheses[0])
  {
    hide Step;
    RcaStep(env, c, a);
    SelectionMeaning(a.hypotheses, a.primaryId);
    assert c.state.evidence + [] == c.state.evidence;
  }

  // The critic

  /** Every evidence id that the hypothesis cites is the id of a collected item. */
  ghost predicate CitesCollected(h: Hypothesis, evidence: seq<Evidence>) {
    forall id :: id in h.supportingEvidenceIds ==> exists e :: e in evidence && e.id == id
  }

  /**
   * The model's own verdict stands exactly when every citation is collected;
   * otherwise the hypothesis is challenged and the run ends. Remediation follows
   * exactly an approval of a hypothesis with collected citations, another round
   * exactly a request for evidence within the limit.
   */
  lemma CriticDecides(env: Env, c: Config, a: Answer)
    requires c.phase == AtCritic && c.state.selected.Some?
    ensures var t, phase := Step(env, c, a).state, Step(env, c, a).phase;
            var collected := CitesCollected(c.state.selected.value, c.state.evidence);
            && t == c.state.(currentStage := Critiquing, critique := t.critique,
                             iterationCount := c.state.iterationCount + 1,
                             timeline := c.state.timeline + [TimelineEvent(Critiquing, "CriticAgent", "")])
            && Step(env, c, a).runner == c.runner
            && t.critique.Some?
            && (if collected then t.critique.value == a.critique
                else t.critique.value.decision == Challenge && phase == Done)
            && (phase == AtPlanning <==> collected && a.critique.decision == Approve)
            && (phase == AtSupervisor <==>
                  && collected && a.critique.decision == NeedsMoreEvidence
                  && c.state.iterationCount + 1 < c.state.maxIterations)
            && (phase == AtPlanning || phase == AtSupervisor || phase == Done)
  {
    hide Step;
    CriticStep(env, c, a);
    var h, evidence := c.state.selected.value, c.state.evidence;
    assert Grounded(h, evidence) <==> CitesCollected(h, evidence);
    assert evidence + [] == evidence;
  }

  /** Without a selected hypothesis the critic writes the stage only, and the last critique routes again. */
  lemma CriticPasses(env: Env, c: Config, a: Answer)
    requires c.phase == AtCritic && c.state.selected.None?
    ensures var s, phase := c.state, Step(env, c, a).phase;
            && Step(env, c, a).state == s.(currentStage := Critiquing) && Step(env, c, a).runner == c.runner
            && (phase == AtPlanning <==> s.critique.Some? && s.critique.value.decision == Approve)
            && (phase == AtSupervisor <==>
                  && s.critique.Some? && s.critique.value.decision == NeedsMoreEvidence
                  && s.iterationCount < s.maxIterations)
            && (phase == AtPlanning || phase == AtSupervisor || phase == Done)
  {
    hide Step;
    CriticStep(env, c, a);
    assert c.state.timeline + [] == c.state.timeline && c.state.evidence + [] == c.state.evidence;
  }

  const FOUND := Evidence("EV-LOG-01", "log", "payment-service", "connection pool exhausted")

  const CITED := Answer([], [FOUND], [], [], [], [Hypothesis("H-1", "Pool exhaustion", ["EV-LOG-01"])], "H-1",
                        Critique(Approve, ""), [], (n: nat) => ER.ToolSuccess(""), Assessment(Recovered, false))

  /** A fresh run whose hypothesis cites what was collected comes to plan its remediation. */
  lemma CitedHypothesisIsRemediated(env: Env, s: IncidentState, runner: ER.RunnerState)
    requires Fresh(s)
    ensures var c := Run(env, s, runner, Repeated(CITED, 5));
            && c.phase == AtPlanning && c.state.critique == Some(Critique(Approve, ""))
            && c.state.selected.Some? && c.state.selected.value.supportingEvidenceIds == ["EV-LOG-01"]
            && FOUND in c.state.evidence
  {
    hide Step;
    hide Run;
    hide Repeated;
    FirstAnalysis(env, s, runner, CITED);
    RepeatedLast(env, s, runner, CITED, 4);
    SelectionMeaning(CITED.hypotheses, "H-1");
    var c := Run(env, s, runner, Repeated(CITED, 4));
    assert c.state.evidence[0] == FOUND;
    CriticDecides(env, c, CITED);
  }

  // The remediation

  /**
   * The plan has every proposed action in its place, assessed for the incident,
   * and the pending approvals are those of its actions that need one, in order.
   */
  lemma PlanningWrites(env: Env, c: Config, a: Answer)
    requires c.phase == AtPlanning && c.state.selected.Some?
    ensures var s, t := c.state, Step(env, c, a).state;
            && Step(env, c, a).phase == AtExecution && Step(env, c, a).runner == c.runner
            && t == s.(currentStage := RemediationPlanning, plan := t.plan, pendingApprovals := t.pendingApprovals,
                       timeline := s.timeline + [TimelineEvent(RemediationPlanning, "RemediationAgent", "")])
            && t.plan.Some? && t.plan.value.incidentId == s.incidentId
            && t.plan.value.hypothesisId == s.selected.value.id
            && |t.plan.value.actions| == |a.actions|
            && (forall i :: 0 <= i < |a.actions| ==>
                  t.plan.value.actions[i] == RiskPolicy.Assess(env.engine, a.actions[i], s.incidentId))
            && Subsequence(t.pendingApprovals, t.plan.value.actions)
            && (forall x :: multiset(t.pendingApprovals)[x] ==
                              if x.requiresApproval then multiset(t.plan.value.actions)[x] else 0)
  {
    hide Step;
    PlanningStep(env, c, a);
    var actions := AssessAll(env.engine, a.actions, c.state.incidentId);
    NeedingApprovalOrder(actions);
    forall x ensures multiset(NeedingApproval(actions))[x] ==
                       if x.requiresApproval then multiset(actions)[x] else 0 {
      NeedingApprovalCount(actions, x);
    }
    assert c.state.evidence + [] == c.state.evidence;
  }

  /** Without a selected hypothesis there is no plan, and the execution follows all the same. */
  lemma PlanningPasses(env: Env, c: Config, a: Answer)
    requires c.phase == AtPlanning && c.state.selected.None?
    ensures Step(env, c, a) == Config(AtExecution, c.state.(currentStage := Failed), c.runner)
  {
    hide Step;
    PlanningStep(env, c, a);
    assert c.state.timeline + [] == c.state.timeline && c.state.evidence + [] == c.state.evidence;
  }

  lemma {:induction false} NeedingApprovalCount(actions: seq<RemediationAction>, x: RemediationAction)
    ensures multiset(NeedingApproval(actions))[x] == if x.requiresApproval then multiset(actions)[x] else 0
  {
    if actions != [] {
      var n := |actions| - 1;
      NeedingApprovalCount(actions[..n], x);
      assert actions == actions[..n] + [actions[n]];
    }
  }

  lemma {:induction false} NeedingApprovalOrder(actions: seq<RemediationAction>)
    ensures Subsequence(NeedingApproval(actions), actions)
  {
    if actions != [] {
      var n := |actions| - 1;
      var front, last := NeedingApproval(actions[..n]), actions[n];
      NeedingApprovalOrder(actions[..n]);
      assert front + [] == front;
      if last.requiresApproval {
        assert (front + [last])[..|front|] == front;
      } else if front != [] {
        NeedingApprovalCount(actions[..n], front[|front| - 1]);
        assert multiset(front)[front[|front| - 1]] > 0;
      }
    }
  }

  /** Without a plan, or with an empty one, an execution only records the failure. */
  lemma ExecutionWrites(env: Env, c: Config, a: Answer)
    requires c.phase == AtExecution && Step(env, c, a).phase == AtVerification
    ensures var s, t := c.state, Step(env, c, a).state;
            if s.plan.None? || s.plan.value.actions == [] then
              t == s.(currentStage := Failed) && Step(env, c, a).runner == c.runner
            else
              var actions := s.plan.value.actions;
              var n := |s.timeline|;
              && t == s.(currentStage := Executing, executionResults := t.executionResults, timeline := t.timeline)
              && |t.timeline| == n + |actions| && t.timeline[..n] == s.timeline
              && forall i :: 0 <= i < |actions| ==>
                   t.timeline[n + i] == TimelineEvent(Executing, "ExecutionRunner", actions[i].actionId)
  {
    hide Step;
    ExecutionStep(env, c, a);
    assert c.state.timeline + [] == c.state.timeline && c.state.evidence + [] == c.state.evidence;
    if Actions(c.state) == [] {
      NothingToExecute(c.runner, env.registry, a.outcomes);
    } else {
      var events := ExecutionEvents(Actions(c.state));
      assert (c.state.timeline + events)[..|c.state.timeline|] == c.state.timeline;
    }
  }

  /**
   * A sequence of calls by an operator, one for each action in order: each is
   * made in the state that the one before it left, with the action's own
   * parameters, and returns the result beside it.
   */
  ghost predicate AreCalls(states: seq<ER.RunnerState>, registry: ER.Registry, actions: seq<RemediationAction>,
          outcomes: nat -> ER.ToolOutcome, results: seq<ExecutionResult>)
  {
    && |results| <= |actions| && |states| == |results| + 1
    && forall i :: 0 <= i < |results| ==>
         ER.Execute(states[i], registry, actions[i], Obj(actions[i].parameters), "OPERATOR", outcomes(i))
           == (states[i + 1], ER.Reply(results[i]))
  }

  /** The call for the `k`-th action raises and leaves the runner in `after`. */
  ghost predicate CallRaises(st: ER.RunnerState, registry: ER.Registry, actions: seq<RemediationAction>,
          outcomes: nat -> ER.ToolOutcome, k: nat, after: ER.RunnerState)
  {
    k < |actions| &&
    ER.Execute(st, registry, actions[k], Obj(actions[k].parameters), "OPERATOR", outcomes(k)) == (after, ER.TypeError)
  }

  lemma NoCalls(st: ER.RunnerState, registry: ER.Registry, outcomes: nat -> ER.ToolOutcome)
    ensures AreCalls([st], registry, [], outcomes, [])
  {
  }

  lemma OneMoreCall(states: seq<ER.RunnerState>, registry: ER.Registry, actions: seq<RemediationAction>,
          outcomes: nat -> ER.ToolOutcome, results: seq<ExecutionResult>, after: ER.RunnerState, r: ExecutionResult)
    requires AreCalls(states, registry, actions, outcomes, results) && |states| == |results| + 1
    requires |results| < |actions|
    requires var n := |results|;
             ER.Execute(states[n], registry, actions[n], Obj(actions[n].parameters), "OPERATOR", outcomes(n))
               == (after, ER.Reply(r))
    ensures AreCalls(states + [after], registry, actions, outcomes, results + [r])
  {
    hide ER.Execute;
  }

  lemma CallsOfFront(states: seq<ER.RunnerState>, registry: ER.Registry, actions: seq<RemediationAction>,
          outcomes: nat -> ER.ToolOutcome, results: seq<ExecutionResult>, n: nat)
    requires n <= |actions| && AreCalls(states, registry, actions[..n], outcomes, results)
    ensures AreCalls(states, registry, actions, outcomes, results)
    ensures forall after :: CallRaises(states[|results|], registry, actions[..n], outcomes, |results|, after) ==>
              CallRaises(states[|results|], registry, actions, outcomes, |results|, after)
  {
    hide ER.Execute;
  }

  lemma {:induction false} CallsOfExecuteAll(st: ER.RunnerState, registry: ER.Registry, actions: seq<RemediationAction>,
          outcomes: nat -> ER.ToolOutcome)
    returns (states: seq<ER.RunnerState>, results: seq<ExecutionResult>)
    ensures |results| <= |actions| && |states| == |results| + 1 && states[0] == st
    ensures AreCalls(states, registry, actions, outcomes, results)
    ensures match ExecuteAll(st, registry, actions, outcomes)
            case (after, Some(rs)) => rs == results && |results| == |actions| && after == states[|results|]
            case (after, None) => CallRaises(states[|results|], registry, actions, outcomes, |results|, after)
  {
    hide ER.Execute;
    hide AreCalls;
    if actions == [] {
      states, results := [st], [];
      NoCalls(st, registry, outcomes);
    } else {
      var n := |actions| - 1;
      states, results := CallsOfExecuteAll(st, registry, actions[..n], outcomes);
      CallsOfFront(states, registry, actions, outcomes, results, n);
      if ExecuteAll(st, registry, actions, outcomes).1.Some? {
        var (after, reply) := ER.Execute(states[n], registry, actions[n], Obj(actions[n].parameters), "OPERATOR",
            outcomes(n));
        OneMoreCall(states, registry, actions, outcomes, results, after, reply.result);
        states, results := states + [after], results + [reply.result];
      }
    }
  }

  /**
   * An execution calls the runner for the plan's actions one after the other:
   * for all of them, and then stores the results, or up to the first call that
   * raises, which ends the run.
   */
  lemma ExecutionCalls(env: Env, c: Config, a: Answer)
    requires c.phase == AtExecution
    ensures var actions := if c.state.plan.Some? then c.state.plan.value.actions else [];
            var c' := Step(env, c, a);
            exists states, results ::
              && AreCalls(states, env.registry, actions, a.outcomes, results) && states[0] == c.runner
              && if c'.phase == AtVerification then
                   && |results| == |actions| && c'.runner == states[|results|]
                   && (actions != [] ==> c'.state.executionResults == results)
                 else
                   && c'.phase == Crashed && c'.state == c.state
                   && CallRaises(states[|results|], env.registry, actions, a.outcomes, |results|, c'.runner)
  {
    hide Step;
    hide ExecuteAll;
    ExecutionStep(env, c, a);
    var states, results := CallsOfExecuteAll(c.runner, env.registry, Actions(c.state), a.outcomes);
  }

  /**
   * The stage after a verification, what is recorded of it, and the rollback of
   * the last action, by an operator, that it makes when one is recommended.
   */
  lemma VerificationWrites(env: Env, c: Config, a: Answer)
    requires c.phase == AtVerification
    ensures var s, c' := c.state, Step(env, c, a);
            var checked := TimelineEvent(Verifying, "VerificationAgent", "");
            if a.assessment.rollbackRecommended && s.plan.Some? && s.plan.value.actions != [] then
              var last := s.plan.value.actions[|s.plan.value.actions| - 1];
              var (runner, reply) := ER.ExecuteRollback(c.runner, env.registry, last, "OPERATOR", a.outcomes(0));
              c' == if reply.TypeError? then Config(Crashed, s, runner) else
                      Config(Done,
                        s.(currentStage := Failed, verification := Some(a.assessment),
                           timeline := s.timeline + [checked, TimelineEvent(Failed, "ExecutionRunner", last.actionId)]),
                        runner)
            else
              && c' == Config(Done, s.(currentStage := c'.state.currentStage, verification := Some(a.assessment),
                                       timeline := s.timeline + [checked]), c.runner)
              && c'.state.currentStage == (if a.assessment.status == Recovered then Resolved else Investigating)
  {
    hide Step;
    hide ER.ExecuteRollback;
    VerificationStep(env, c, a);
    assert c.state.evidence + [] == c.state.evidence;
  }

  // Which tools a run may call

  /** Each dispatch is of a registered tool that an operator may invoke. */
  ghost predicate ForOperators(registry: ER.Registry, dispatches: seq<ER.Dispatch>) {
    forall i :: 0 <= i < |dispatches| ==> ER.Invocable(registry, dispatches[i].tool, "OPERATOR")
  }

  lemma ExecuteForOperators(st: ER.RunnerState, registry: ER.Registry, action: RemediationAction, parameters: Json,
          outcome: ER.ToolOutcome)
    requires ForOperators(registry, st.dispatches)
    ensures ForOperators(registry, ER.Execute(st, registry, action, parameters, "OPERATOR", outcome).0.dispatches)
  {
  }

  lemma {:induction false} ExecuteAllForOperators(st: ER.RunnerState, registry: ER.Registry,
          actions: seq<RemediationAction>, outcomes: nat -> ER.ToolOutcome)
    requires ForOperators(registry, st.dispatches)
    ensures ForOperators(registry, ExecuteAll(st, registry, actions, outcomes).0.dispatches)
  {
    hide ER.Execute;
    hide ForOperators;
    if actions != [] {
      var n := |actions| - 1;
      ExecuteAllForOperators(st, registry, actions[..n], outcomes);
      ExecuteForOperators(ExecuteAll(st, registry, actions[..n], outcomes).0, registry, actions[n],
                          Obj(actions[n].parameters), outcomes(n));
    }
  }

  lemma RollbackForOperators(st: ER.RunnerState, registry: ER.Registry, action: RemediationAction,
          outcome: ER.ToolOutcome)
    requires ForOperators(registry, st.dispatches)
    ensures ForOperators(registry, ER.ExecuteRollback(st, registry, action, "OPERATOR", outcome).0.dispatches)
  {
    hide ER.Execute;
    hide ForOperators;
    if ER.CompensatesInKind(action) {
      ExecuteForOperators(st, registry, action, ER.CompensationParameters(action), outcome);
    } else {
      ExecuteForOperators(st, registry, ER.RestartOf(action), Obj([]), outcome);
    }
  }

  lemma StepForOperators(env: Env, c: Config, a: Answer)
    requires ForOperators(env.registry, c.runner.dispatches)
    ensures ForOperators(env.registry, Step(env, c, a).runner.dispatches)
  {
    hide ForOperators;
    hide ER.ExecuteRollback;
    hide ExecuteAll;
    ExecuteAllForOperators(c.runner, env.registry, Actions(c.state), a.outcomes);
    if c.phase == AtVerification && RollsBack(c.state, a) {
      RollbackForOperators(c.runner, env.registry, Actions(c.state)[|Actions(c.state)| - 1], a.outcomes(0));
    }
  }

  /** A run calls registered tools only, and none that needs more than an operator. */
  lemma RunForOperators(env: Env, s: IncidentState, runner: ER.RunnerState, answers: seq<Answer>)
    requires runner.dispatches == []
    ensures forall d :: d in Run(env, s, runner, answers).runner.dispatches ==>
              d.tool in env.registry
              && exists word :: word in ["VIEWER", "OPERATOR"] && Text.SameIgnoringCase(env.registry[d.tool], word)
  {
    RunKeepsForOperators(env, s, runner, answers);
    forall d | d in Run(env, s, runner, answers).runner.dispatches
      ensures d.tool in env.registry
      ensures exists word :: word in ["VIEWER", "OPERATOR"] && Text.SameIgnoringCase(env.registry[d.tool], word)
    {
      ER.WhoMayInvoke(env.registry, d.tool, "OPERATOR");
    }
  }

  lemma {:induction false} RunKeepsForOperators(env: Env, s: IncidentState, runner: ER.RunnerState,
          answers: seq<Answer>)
    requires runner.dispatches == []
    ensures ForOperators(env.registry, Run(env, s, runner, answers).runner.dispatches)
  {
    hide Step;
    if answers != [] {
      var n := |answers| - 1;
      RunKeepsForOperators(env, s, runner, answers[..n]);
      StepForOperators(env, Run(env, s, runner, answers[..n]), answers[n]);
    }
  }
}
