/**
 * Human approval and execution: submissions change nothing in a run, and the
 * exact case in which a run executes only what has been approved in time.
 */
module ApprovalGate {
  import opened Wrappers
  import opened Domain
  import opened StateUpdate
  import RiskPolicy
  import ER = ExecutionRunner
  import Approvals
  import ServiceStream
  import Text
  import opened Workflow
  import opened WorkflowRuns
  import opened WorkflowOutcomes

  // Decisions in the state

  function WithDecisions(c: Config, decisions: seq<ApprovalDecision>): Config {
    c.(state := c.state.(approvalDecisions := decisions))
  }

  lemma MergeIgnoresDecisions(s: IncidentState, u: Update, decisions: seq<ApprovalDecision>)
    ensures Merge(s.(approvalDecisions := decisions), u) == Merge(s, u).(approvalDecisions := decisions)
  {
  }

  lemma OutputsIgnoreDecisions(env: Env, c: Config, a: Answer, decisions: seq<ApprovalDecision>)
    ensures NodeOutputs(env, WithDecisions(c, decisions), a) == NodeOutputs(env, c, a)
  {
    hide ExecuteAll;
    hide ER.ExecuteRollback;
    hide AssessAll;
    hide Review;
  }

  lemma StepIgnoresDecisions(env: Env, c: Config, a: Answer, decisions: seq<ApprovalDecision>)
    ensures Step(env, WithDecisions(c, decisions), a) == WithDecisions(Step(env, c, a), decisions)
  {
    hide NodeOutputs;
    var other := WithDecisions(c, decisions);
    OutputsIgnoreDecisions(env, c, a, decisions);
    if c.phase == AtAnalysts {
      AnalystsStep(env, c, a);
      AnalystsStep(env, other, a);
    } else if Ended(c.phase) {
      EndedStep(env, c, a);
      EndedStep(env, other, a);
    } else if NodeOutputs(env, c, a).Written? {
      SingleNode(env, c, a);
      SingleNode(env, other, a);
      MergeIgnoresDecisions(c.state, NodeOutputs(env, c, a).updates[0].update, decisions);
    }
  }

  /** Whatever was decided before, a run takes the same steps, calls the same tools and writes the same state. */
  lemma {:induction false} DecisionsNeverMatter(env: Env, s: IncidentState, runner: ER.RunnerState,
          answers: seq<Answer>, decisions: seq<ApprovalDecision>)
    ensures Run(env, s.(approvalDecisions := decisions), runner, answers)
              == WithDecisions(Run(env, s, runner, answers), decisions)
  {
    hide Step;
    if answers != [] {
      var n := |answers| - 1;
      DecisionsNeverMatter(env, s, runner, answers[..n], decisions);
      StepIgnoresDecisions(env, Run(env, s, runner, answers[..n]), answers[n], decisions);
    }
  }

  lemma RunKeepsDecisions(env: Env, s: IncidentState, runner: ER.RunnerState, answers: seq<Answer>)
    ensures Run(env, s, runner, answers).state.approvalDecisions == s.approvalDecisions
  {
    DecisionsNeverMatter(env, s, runner, answers, s.approvalDecisions);
    assert s.(approvalDecisions := s.approvalDecisions) == s;
  }

  // A run with submissions

  /** What happens to an incident: the graph takes a superstep, or somebody submits a decision. */
  datatype Moment = Superstep(answer: Answer) | Submission(approvalId: string, request: Approvals.Request)

  /**
   * A run during which decisions are submitted. They are put into the state
   * that the nodes read, although the service records them in its shadow only:
   * even so nothing would depend on them.
   */
  function Session(env: Env, s: IncidentState, runner: ER.RunnerState, moments: seq<Moment>): Config {
    if moments == [] then Config(AtSupervisor, s, runner) else
      var c := Session(env, s, runner, moments[..|moments| - 1]);
      match moments[|moments| - 1]
      case Superstep(a) => Step(env, c, a)
      case Submission(id, r) => c.(state := Approvals.AfterSubmit(c.state, id, r))
  }

  function AnswersOf(moments: seq<Moment>): seq<Answer> {
    if moments == [] then [] else
      var last := moments[|moments| - 1];
      AnswersOf(moments[..|moments| - 1]) + if last.Superstep? then [last.answer] else []
  }

  lemma SubmitChangesDecisionsOnly(c: Config, id: string, r: Approvals.Request)
    ensures var s := Approvals.AfterSubmit(c.state, id, r);
            c.(state := s) == WithDecisions(c, s.approvalDecisions)
  {
    hide Approvals.Submit;
  }

  /** Whatever is submitted and whenever, the run is the one without submissions but for the decisions. */
  lemma {:induction false} SubmissionsNeverMatter(env: Env, s: IncidentState, runner: ER.RunnerState,
          moments: seq<Moment>)
    ensures var c := Session(env, s, runner, moments);
            c == WithDecisions(Run(env, s, runner, AnswersOf(moments)), c.state.approvalDecisions)
  {
    hide Step;
    hide Approvals.AfterSubmit;
    if moments != [] {
      var n := |moments| - 1;
      var before := Session(env, s, runner, moments[..n]);
      var answers := AnswersOf(moments[..n]);
      SubmissionsNeverMatter(env, s, runner, moments[..n]);
      match moments[n]
      case Superstep(a) =>
        RunSnoc(env, s, runner, answers, a);
        StepIgnoresDecisions(env, Run(env, s, runner, answers), a, before.state.approvalDecisions);
      case Submission(id, r) =>
        SubmitChangesDecisionsOnly(before, id, r);
        assert AnswersOf(moments) == answers;
    }
  }

  // The session and the service

  /** The service's operations: the nodes of each superstep in their listed order, and the submissions. */
  function OpsOf(env: Env, s: IncidentState, runner: ER.RunnerState, moments: seq<Moment>)
    : seq<ServiceStream.ShadowOp>
  {
    if moments == [] then [] else
      var n := |moments| - 1;
      OpsOf(env, s, runner, moments[..n]) +
      match moments[n]
      case Superstep(a) =>
        (match NodeOutputs(env, Session(env, s, runner, moments[..n]), a)
         case Written(us, _) => ServiceStream.Nodes(us)
         case Raised(_) => [])
      case Submission(id, r) => [ServiceStream.Submission(id, r)]
  }

  /** The state of a session is the shadow that the service keeps, with the same decisions at every moment. */
  lemma {:induction false} SessionIsShadow(env: Env, s: IncidentState, runner: ER.RunnerState, moments: seq<Moment>)
    ensures Session(env, s, runner, moments).state
              == ServiceStream.AfterShadowOps(s, OpsOf(env, s, runner, moments))
  {
    hide Step;
    hide NodeOutputs;
    hide Approvals.AfterSubmit;
    if moments != [] {
      var n := |moments| - 1;
      var c := Session(env, s, runner, moments[..n]);
      var ops := OpsOf(env, s, runner, moments[..n]);
      SessionIsShadow(env, s, runner, moments[..n]);
      match moments[n]
      case Superstep(a) =>
        ServiceStream.ShadowOfSuperstep(env, c, a);
        match NodeOutputs(env, c, a) {
          case Written(us, _) => ServiceStream.AfterNodes(s, ops, us);
          case Raised(_) => assert ops + [] == ops;
        }
      case Submission(id, r) =>
        assert (ops + [ServiceStream.Submission(id, r)])[..|ops|] == ops;
    }
  }

  // What is handed to the runner

  /** What an execution hands to the runner: every action up to the first whose call raises. */
  function HandedBy(env: Env, c: Config, a: Answer): seq<RemediationAction> {
    if c.phase != AtExecution then []
    else Actions(c.state)[..HandedCount(c.runner, env.registry, Actions(c.state), a.outcomes)]
  }

  /** An action, and the moment whose superstep handed it to the runner. */
  datatype Handover = Handover(action: RemediationAction, at: nat)

  function Handed(env: Env, s: IncidentState, runner: ER.RunnerState, moments: seq<Moment>): (r: seq<Handover>)
    ensures forall h :: h in r ==> h.at < |moments|
  {
    if moments == [] then [] else
      var n := |moments| - 1;
      Handed(env, s, runner, moments[..n]) +
      match moments[n]
      case Superstep(a) =>
        var actions := HandedBy(env, Session(env, s, runner, moments[..n]), a);
        seq(|actions|, i requires 0 <= i < |actions| => Handover(actions[i], n))
      case Submission(_, _) => []
  }

  predicate Granted(decisions: seq<ApprovalDecision>, a: RemediationAction) {
    exists d :: d in decisions && d.actionId == a.actionId && d.decision == Approved
  }

  /** The gate of the documents: an action that needs approval has it when it is handed to the runner. */
  ghost predicate GateHeld(env: Env, s: IncidentState, runner: ER.RunnerState, moments: seq<Moment>) {
    forall h :: h in Handed(env, s, runner, moments) && h.action.requiresApproval ==>
      Granted(Session(env, s, runner, moments[..h.at]).state.approvalDecisions, h.action)
  }

  /** The submission at moment `p` was accepted and made this decision. */
  ghost predicate AcceptedAt(env: Env, s: IncidentState, runner: ER.RunnerState, moments: seq<Moment>,
          p: nat, d: ApprovalDecision)
  {
    && p < |moments| && moments[p].Submission?
    && Approvals.Submit(Session(env, s, runner, moments[..p]).state, moments[p].approvalId, moments[p].request)
         == Wrappers.Ok(d)
  }

  /** A submission between the planning and the execution that handed the action over approved it. */
  ghost predicate ApprovedInTime(env: Env, s: IncidentState, runner: ER.RunnerState, moments: seq<Moment>, h: Handover)
  {
    exists p: nat, d ::
      && p < h.at && AcceptedAt(env, s, runner, moments, p, d)
      && d.actionId == h.action.actionId && d.decision == Approved
      && Session(env, s, runner, moments[..p]).phase == AtExecution
  }

  /** Actions are handed over at executions only. */
  lemma {:induction false} HandoverMeaning(env: Env, s: IncidentState, runner: ER.RunnerState, moments: seq<Moment>,
          h: Handover)
    requires h in Handed(env, s, runner, moments)
    ensures moments[h.at].Superstep?
    ensures Session(env, s, runner, moments[..h.at]).phase == AtExecution
    ensures h.action in HandedBy(env, Session(env, s, runner, moments[..h.at]), moments[h.at].answer)
  {
    hide Session;
    hide HandedCount;
    var n := |moments| - 1;
    if h in Handed(env, s, runner, moments[..n]) {
      HandoverMeaning(env, s, runner, moments[..n], h);
      assert moments[..n][..h.at] == moments[..h.at];
    }
  }

  lemma OneMoreMoment(env: Env, s: IncidentState, runner: ER.RunnerState, moments: seq<Moment>,
          n: nat, d: ApprovalDecision)
    requires n < |moments|
    ensures d in Session(env, s, runner, moments[..n + 1]).state.approvalDecisions <==>
              || d in Session(env, s, runner, moments[..n]).state.approvalDecisions
              || AcceptedAt(env, s, runner, moments, n, d)
  {
    hide Step;
    hide Approvals.Submit;
    assert moments[..n + 1][..n] == moments[..n];
    match moments[n]
    case Superstep(a) => StepKeepsDecisions(env, Session(env, s, runner, moments[..n]), a);
    case Submission(_, _) =>
  }

  /** The decisions at any moment are those from before the run and those of the submissions accepted so far. */
  lemma {:induction false} DecisionsAreSubmissions(env: Env, s: IncidentState, runner: ER.RunnerState,
          moments: seq<Moment>, n: nat, d: ApprovalDecision)
    requires n <= |moments|
    ensures d in Session(env, s, runner, moments[..n]).state.approvalDecisions <==>
              || d in s.approvalDecisions
              || exists p: nat :: p < n && AcceptedAt(env, s, runner, moments, p, d)
  {
    hide AcceptedAt;
    if n > 0 {
      DecisionsAreSubmissions(env, s, runner, moments, n - 1, d);
      OneMoreMoment(env, s, runner, moments, n - 1, d);
    }
  }

  lemma StepKeepsDecisions(env: Env, c: Config, a: Answer)
    ensures Step(env, c, a).state.approvalDecisions == c.state.approvalDecisions
  {
    hide Step;
    StepIgnoresDecisions(env, c, a, c.state.approvalDecisions);
    assert WithDecisions(c, c.state.approvalDecisions) == c;
  }

  predicate AfterExecution(p: Phase) {
    p == AtVerification || Ended(p)
  }

  lemma StepAfterExecution(env: Env, c: Config, a: Answer)
    requires c.phase == AtExecution || AfterExecution(c.phase)
    ensures AfterExecution(Step(env, c, a).phase)
  {
    hide Step;
    hide NodeOutputs;
    hide ReviewIn;
    hide SelectHypothesis;
    ControlFollows(env, c, a);
  }

  /** A run that has executed does not come to execute again. */
  lemma {:induction false} ExecutionIsOver(env: Env, s: IncidentState, runner: ER.RunnerState, moments: seq<Moment>,
          p: nat, q: nat)
    requires p <= q <= |moments| && AfterExecution(Session(env, s, runner, moments[..p]).phase)
    ensures AfterExecution(Session(env, s, runner, moments[..q]).phase)
    decreases q
  {
    hide Step;
    if p < q {
      ExecutionIsOver(env, s, runner, moments, p, q - 1);
      assert moments[..q][..q - 1] == moments[..q - 1];
      match moments[q - 1]
      case Superstep(a) => StepAfterExecution(env, Session(env, s, runner, moments[..q - 1]), a);
      case Submission(_, _) =>
    }
  }

  /** A run that is still to execute has handed nothing over. */
  lemma HandedLater(env: Env, s: IncidentState, runner: ER.RunnerState, moments: seq<Moment>, h: Handover, n: nat)
    requires h in Handed(env, s, runner, moments)
    requires n <= |moments| && Session(env, s, runner, moments[..n]).phase == AtExecution
    ensures n <= h.at
  {
    hide Step;
    hide Handed;
    HandoverMeaning(env, s, runner, moments, h);
    if h.at < n {
      assert moments[..h.at + 1][..h.at] == moments[..h.at];
      StepAfterExecution(env, Session(env, s, runner, moments[..h.at]), moments[h.at].answer);
      ExecutionIsOver(env, s, runner, moments, h.at + 1, n);
    }
  }

  /** No submission is accepted before the plan, nor after an execution without it being over. */
  lemma AcceptedWithPlan(env: Env, s: IncidentState, runner: ER.RunnerState, moments: seq<Moment>,
          p: nat, d: ApprovalDecision)
    requires Fresh(s) && AcceptedAt(env, s, runner, moments, p, d)
    ensures var phase := Session(env, s, runner, moments[..p]).phase; phase == AtExecution || AfterExecution(phase)
  {
    hide Run;
    hide Session;
    SubmissionsNeverMatter(env, s, runner, moments[..p]);
    var answers := AnswersOf(moments[..p]);
    var phase := Run(env, s, runner, answers).phase;
    if InRound(phase) || phase == AtPlanning {
      NothingExecutedBeforePlan(env, s, runner, answers);
    }
  }

  /** When an action is handed over, its approvals are those from before the run and those given in time. */
  lemma GrantedExactly(env: Env, s: IncidentState, runner: ER.RunnerState, moments: seq<Moment>, h: Handover)
    requires Fresh(s) && h in Handed(env, s, runner, moments)
    ensures Granted(Session(env, s, runner, moments[..h.at]).state.approvalDecisions, h.action) <==>
              Granted(s.approvalDecisions, h.action) || ApprovedInTime(env, s, runner, moments, h)
  {
    hide Session;
    hide Handed;
    hide AcceptedAt;
    HandoverMeaning(env, s, runner, moments, h);
    var decisions := Session(env, s, runner, moments[..h.at]).state.approvalDecisions;
    forall d
      ensures d in decisions <==>
                || d in s.approvalDecisions
                || exists p: nat :: p < h.at && AcceptedAt(env, s, runner, moments, p, d)
    {
      DecisionsAreSubmissions(env, s, runner, moments, h.at, d);
    }
    forall p: nat, d | p < h.at && AcceptedAt(env, s, runner, moments, p, d)
      ensures Session(env, s, runner, moments[..p]).phase == AtExecution
    {
      AcceptedWithPlan(env, s, runner, moments, p, d);
      if AfterExecution(Session(env, s, runner, moments[..p]).phase) {
        ExecutionIsOver(env, s, runner, moments, p, h.at);
      }
    }
  }

  /**
   * Over every run with every submission, crashed runs included: the gate holds
   * exactly when each action that needs approval and is handed to the runner
   * was approved before the run, or by a submission accepted between the
   * planning and the execution.
   */
  lemma GateHeldExactly(env: Env, s: IncidentState, runner: ER.RunnerState, moments: seq<Moment>)
    requires Fresh(s)
    ensures GateHeld(env, s, runner, moments) <==>
              forall h :: h in Handed(env, s, runner, moments) && h.action.requiresApproval ==>
                Granted(s.approvalDecisions, h.action) || ApprovedInTime(env, s, runner, moments, h)
  {
    hide Session;
    hide Handed;
    hide ApprovedInTime;
    hide Granted;
    forall h | h in Handed(env, s, runner, moments)
      ensures Granted(Session(env, s, runner, moments[..h.at]).state.approvalDecisions, h.action) <==>
                Granted(s.approvalDecisions, h.action) || ApprovedInTime(env, s, runner, moments, h)
    {
      GrantedExactly(env, s, runner, moments, h);
    }
  }

  /** A new incident has no decisions, so its actions have to be approved in time. */
  lemma GateOfNewIncident(env: Env, s: IncidentState, runner: ER.RunnerState, moments: seq<Moment>)
    requires Fresh(s) && s.approvalDecisions == []
    ensures GateHeld(env, s, runner, moments) <==>
              forall h :: h in Handed(env, s, runner, moments) && h.action.requiresApproval ==>
                ApprovedInTime(env, s, runner, moments, h)
  {
    hide GateHeld;
    hide Handed;
    hide ApprovedInTime;
    GateHeldExactly(env, s, runner, moments);
    assert forall a :: !Granted(s.approvalDecisions, a);
  }

  /** Every action that is handed over was assessed, and without automatic approval it needs one. */
  lemma HandedNeedsApproval(env: Env, s: IncidentState, runner: ER.RunnerState, moments: seq<Moment>, h: Handover)
    requires Fresh(s) && !env.engine.autoRemediateLowRisk && h in Handed(env, s, runner, moments)
    ensures h.action.requiresApproval
  {
    hide Session;
    hide Step;
    hide Run;
    HandoverMeaning(env, s, runner, moments, h);
    SubmissionsNeverMatter(env, s, runner, moments[..h.at]);
    var answers := AnswersOf(moments[..h.at]);
    PlannedActions(env, s, runner, answers);
  }

  lemma PlannedActions(env: Env, s: IncidentState, runner: ER.RunnerState, answers: seq<Answer>)
    requires Fresh(s) && !env.engine.autoRemediateLowRisk && Run(env, s, runner, answers).phase == AtExecution
    ensures forall a :: a in Actions(Run(env, s, runner, answers).state) ==> a.requiresApproval
  {
    hide Step;
    var m := PlanningOf(env, s, runner, answers);
    assert answers[..m] + [answers[m]] == answers;
    RunSnoc(env, s, runner, answers[..m], answers[m]);
    RemediationOnlyAfterApproval(env, s, runner, answers[..m]);
    PlanOutcome(env, Run(env, s, runner, answers[..m]), answers[m]);
  }

  /**
   * The setting for automatic approval does not exist, so by default every
   * handed action has to be approved in time.
   */
  lemma GateByDefault(env: Env, s: IncidentState, runner: ER.RunnerState, moments: seq<Moment>)
    requires Fresh(s) && s.approvalDecisions == [] && !env.engine.autoRemediateLowRisk
    ensures GateHeld(env, s, runner, moments) <==>
              forall h :: h in Handed(env, s, runner, moments) ==> ApprovedInTime(env, s, runner, moments, h)
  {
    hide GateHeld;
    hide Handed;
    hide ApprovedInTime;
    GateOfNewIncident(env, s, runner, moments);
    forall h | h in Handed(env, s, runner, moments) ensures h.action.requiresApproval {
      HandedNeedsApproval(env, s, runner, moments, h);
    }
  }

  // Without submissions

  /** When nobody submits anything, the gate of a new incident holds exactly when no handed action needs approval. */
  lemma GateWithoutSubmissions(env: Env, s: IncidentState, runner: ER.RunnerState, moments: seq<Moment>)
    requires Fresh(s) && s.approvalDecisions == [] && forall m :: m in moments ==> m.Superstep?
    ensures GateHeld(env, s, runner, moments) <==>
              forall h :: h in Handed(env, s, runner, moments) ==> !h.action.requiresApproval
  {
    hide GateHeld;
    hide Handed;
    hide Session;
    GateOfNewIncident(env, s, runner, moments);
    forall p: nat, d ensures !AcceptedAt(env, s, runner, moments, p, d) {
      assert p < |moments| ==> moments[p] in moments;
    }
  }

  lemma {:induction false} NeedingApprovalMembers(actions: seq<RemediationAction>, a: RemediationAction)
    ensures a in NeedingApproval(actions) <==> a in actions && a.requiresApproval
  {
    if actions != [] {
      assert actions == actions[..|actions| - 1] + [actions[|actions| - 1]];
      NeedingApprovalMembers(actions[..|actions| - 1], a);
    }
  }

  /** An execution in which no call raises hands over the whole plan. */
  lemma ExecutionHandsAllOver(env: Env, c: Config, a: Answer)
    requires c.phase == AtExecution && Step(env, c, a).phase == AtVerification
    ensures HandedBy(env, c, a) == Actions(c.state) == Actions(Step(env, c, a).state)
  {
    hide Step;
    hide ExecuteAll;
    ExecutionOutcome(env, c, a);
    HandedMeaning(c.runner, env.registry, Actions(c.state), a.outcomes);
  }

  lemma HandedOfExecuted(env: Env, s: IncidentState, runner: ER.RunnerState, moments: seq<Moment>, x: RemediationAction)
    requires Session(env, s, runner, moments).phase == AtVerification
    requires moments != [] && moments[|moments| - 1].Superstep?
    ensures x in Actions(Session(env, s, runner, moments).state) <==>
              exists h :: h in Handed(env, s, runner, moments) && h.action == x
  {
    hide Step;
    var n := |moments| - 1;
    var c, a := Session(env, s, runner, moments[..n]), moments[n].answer;
    PhaseBefore(env, c, a);
    ExecutionHandsAllOver(env, c, a);
    var actions := HandedBy(env, c, a);
    var handed := seq(|actions|, i requires 0 <= i < |actions| => Handover(actions[i], n));
    assert Handed(env, s, runner, moments) == Handed(env, s, runner, moments[..n]) + handed;
    if x in actions {
      var i :| 0 <= i < |actions| && actions[i] == x;
      assert handed[i] in handed;
    }
    forall h | h in Handed(env, s, runner, moments) ensures h.action in actions {
      HandedLater(env, s, runner, moments, h, n);
      HandoverMeaning(env, s, runner, moments, h);
    }
  }

  /** When nobody submits anything and no call raises, it holds exactly when no action of the plan needs approval. */
  lemma GateOfExecutedPlan(env: Env, s: IncidentState, runner: ER.RunnerState, moments: seq<Moment>)
    requires Fresh(s) && s.approvalDecisions == [] && forall m :: m in moments ==> m.Superstep?
    requires Session(env, s, runner, moments).phase == AtVerification
    ensures GateHeld(env, s, runner, moments) <==>
              NeedingApproval(Actions(Session(env, s, runner, moments).state)) == []
  {
    assert moments != [];
    hide Session;
    hide GateHeld;
    hide Handed;
    hide NeedingApproval;
    var actions := Actions(Session(env, s, runner, moments).state);
    var needing := NeedingApproval(actions);
    assert moments[|moments| - 1] in moments;
    GateWithoutSubmissions(env, s, runner, moments);
    forall x
      ensures x in needing <==> x in actions && x.requiresApproval
      ensures x in actions <==> exists h :: h in Handed(env, s, runner, moments) && h.action == x
    {
      NeedingApprovalMembers(actions, x);
      HandedOfExecuted(env, s, runner, moments, x);
    }
    if needing != [] {
      assert needing[0] in needing;
    }
  }

  // A run that rolls back a deployment

  const HYPOTHESIS := Hypothesis("H-1", "", [])

  const PROPOSED := RemediationAction("ACT-1", RollbackDeployment, "payment-service", [], Low, 0, false, "")

  const ANSWER := Answer([], [], [], [], [], [HYPOTHESIS], "H-1", Critique(Approve, ""), [PROPOSED],
                         (n: nat) => ER.ToolSuccess("rolled back"), Assessment(Degraded, true))

  const ENV := Env(map[RollbackDeployment := "OPERATOR"],
                   RiskPolicy.Engine(RiskPolicy.DEFAULT_TOPOLOGY, parameters => false, text => text, false))

  const RUNNER := ER.RunnerState({}, [])

  function After(s: IncidentState, n: nat): Config {
    Run(ENV, s, RUNNER, Repeated(ANSWER, n))
  }

  lemma InvestigationApproves(s: IncidentState)
    requires Fresh(s)
    ensures var c := After(s, 5);
            && c.phase == AtPlanning && c.state.selected == Some(HYPOTHESIS)
            && c.state.incidentId == s.incidentId && c.runner == RUNNER
  {
    hide Run;
    FirstRound(ENV, s, RUNNER, ANSWER);
  }

  /** The planned action is critical and needs approval. */
  lemma PlanIsCritical(s: IncidentState)
    requires Fresh(s)
    ensures var c := After(s, 6);
            && c.phase == AtExecution && c.runner == RUNNER && |Actions(c.state)| == 1
            && var a := Actions(c.state)[0];
               && a.actionId == "ACT-1" && a.actionType == RollbackDeployment && a.parameters == []
               && a.riskTier == Critical && a.requiresApproval && a.idempotencyKey != ""
  {
    hide Step;
    hide Run;
    InvestigationApproves(s);
    RepeatedLast(ENV, s, RUNNER, ANSWER, 5);
    PlanningStep(ENV, After(s, 5), ANSWER);
    RiskPolicy.PaymentServiceIsCritical(ENV.engine, PROPOSED, s.incidentId);
    assert Actions(After(s, 6).state) == [RiskPolicy.Assess(ENV.engine, PROPOSED, s.incidentId)];
  }

  /** A critical action runs and succeeds with no decision on it. */
  lemma UndecidedCriticalActionRuns(s: IncidentState)
    requires Fresh(s) && s.approvalDecisions == []
    ensures var c := After(s, 7);
            && c.phase == AtVerification && c.state.approvalDecisions == []
            && Actions(c.state) == Actions(After(s, 6).state) && |Actions(c.state)| == 1
            && c.state.executionResults == [ExecutionResult("ACT-1", Succeeded, "rolled back")]
            && |c.runner.dispatches| == 1 && ER.Success(c.runner.dispatches[0])
            && c.runner.dispatches[0].tool == RollbackDeployment
  {
    hide Step;
    hide Run;
    PlanIsCritical(s);
    RepeatedLast(ENV, s, RUNNER, ANSWER, 6);
    ExecutionStep(ENV, After(s, 6), ANSWER);
    ER.OperatorMayInvoke(RollbackDeployment);
    assert Actions(After(s, 6).state)[..0] == [];
    RunKeepsDecisions(ENV, s, RUNNER, Repeated(ANSWER, 7));
  }

  /** Its verification asks for a rollback, which runs no tool: the incident has FAILED and stays rolled back. */
  lemma ThatRunIsNotCompensated(s: IncidentState)
    requires Fresh(s) && s.approvalDecisions == []
    ensures After(s, 8).phase == Done && After(s, 8).state.currentStage == Failed
    ensures After(s, 8).runner == After(s, 7).runner
  {
    hide Step;
    hide Run;
    InvestigationApproves(s);
    PlanIsCritical(s);
    UndecidedCriticalActionRuns(s);
    assert Repeated(ANSWER, 7) == Repeated(ANSWER, 5) + [ANSWER] + [ANSWER];
    assert Repeated(ANSWER, 8) == Repeated(ANSWER, 7) + [ANSWER];
    SucceededActionIsNotRolledBack(ENV, s, RUNNER, Repeated(ANSWER, 5), ANSWER, ANSWER, ANSWER);
  }

  // The same run as a session, without and with an approval in time

  function Supersteps(n: nat): (r: seq<Moment>)
    ensures |r| == n && forall i :: 0 <= i < n ==> r[i] == Superstep(ANSWER)
  {
    if n == 0 then [] else Supersteps(n - 1) + [Superstep(ANSWER)]
  }

  lemma {:induction false} SuperstepsRun(s: IncidentState, n: nat)
    ensures Session(ENV, s, RUNNER, Supersteps(n)) == After(s, n)
  {
    if n > 0 {
      hide Step;
      assert Supersteps(n)[..n - 1] == Supersteps(n - 1);
      SuperstepsRun(s, n - 1);
      RepeatedLast(ENV, s, RUNNER, ANSWER, n - 1);
    }
  }

  lemma OneHandover(s: IncidentState, moments: seq<Moment>)
    requires var c := Session(ENV, s, RUNNER, moments);
             && c.phase == AtExecution && c.runner == RUNNER && |Actions(c.state)| == 1
    ensures Handover(Actions(Session(ENV, s, RUNNER, moments).state)[0], |moments|)
              in Handed(ENV, s, RUNNER, moments + [Superstep(ANSWER)])
  {
    hide Session;
    var c := Session(ENV, s, RUNNER, moments);
    var all := moments + [Superstep(ANSWER)];
    assert all[..|moments|] == moments;
    assert Actions(c.state)[..0] == [];
    var actions := HandedBy(ENV, c, ANSWER);
    assert actions == Actions(c.state);
    var handed := seq(|actions|, i requires 0 <= i < |actions| => Handover(actions[i], |moments|));
    assert handed[0] in handed;
  }

  /** With no submission the critical action passes without the approval that it needs. */
  lemma GateFails(s: IncidentState)
    requires Fresh(s) && s.approvalDecisions == []
    ensures !GateHeld(ENV, s, RUNNER, Supersteps(7))
  {
    hide Session;
    hide Run;
    hide Handed;
    hide GateHeld;
    PlanIsCritical(s);
    SuperstepsRun(s, 6);
    OneHandover(s, Supersteps(6));
    assert Supersteps(6) + [Superstep(ANSWER)] == Supersteps(7);
    GateWithoutSubmissions(ENV, s, RUNNER, Supersteps(7));
  }

  const APPROVAL := Approvals.Request(Approved, "admin", "ADMIN", "")

  function ApprovedSession(): seq<Moment> {
    Supersteps(6) + [Submission("ACT-1", APPROVAL)]
  }

  lemma ApprovalAccepted(s: IncidentState)
    requires Fresh(s) && s.approvalDecisions == []
    ensures Session(ENV, s, RUNNER, ApprovedSession())
              == WithDecisions(After(s, 6), [ApprovalDecision("ACT-1", Approved, "admin", "")])
  {
    hide Step;
    hide Run;
    PlanIsCritical(s);
    SuperstepsRun(s, 6);
    RunKeepsDecisions(ENV, s, RUNNER, Repeated(ANSWER, 6));
    assert ApprovedSession()[..6] == Supersteps(6);
    AdminApproves(After(s, 6).state);
  }

  lemma AdminApproves(t: IncidentState)
    requires t.plan.Some? && t.approvalDecisions == [] && |Actions(t)| == 1 && Actions(t)[0].actionId == "ACT-1"
    ensures Approvals.AfterSubmit(t, "ACT-1", APPROVAL)
              == t.(approvalDecisions := [ApprovalDecision("ACT-1", Approved, "admin", "")])
  {
    var actions := t.plan.value.actions;
    assert Approvals.Names("ACT-1", actions[0]);
    assert Approvals.FindTarget(actions, "ACT-1") == 0;
    assert Text.Upper("ADMIN") == "ADMIN";
  }

  /** An administrator who approves the action between planning and execution makes the gate hold. */
  lemma ApprovalInTime(s: IncidentState)
    requires Fresh(s) && s.approvalDecisions == []
    ensures var moments := ApprovedSession() + [Superstep(ANSWER)];
            && Handed(ENV, s, RUNNER, moments) != []
            && (forall h :: h in Handed(ENV, s, RUNNER, moments) ==> h.action.requiresApproval)
            && GateHeld(ENV, s, RUNNER, moments)
  {
    hide Session;
    hide Step;
    hide Run;
    hide Handed;
    hide HandedCount;
    hide ApprovedSession;
    var moments := ApprovedSession() + [Superstep(ANSWER)];
    var n := |ApprovedSession()|;
    assert moments[..n] == ApprovedSession();
    PlanIsCritical(s);
    ApprovalAccepted(s);
    var c := Session(ENV, s, RUNNER, moments[..n]);
    OneHandover(s, ApprovedSession());
    forall h | h in Handed(ENV, s, RUNNER, moments)
      ensures h.action.requiresApproval
      ensures Granted(Session(ENV, s, RUNNER, moments[..h.at]).state.approvalDecisions, h.action)
    {
      HandedLater(ENV, s, RUNNER, moments, h, n);
      HandoverMeaning(ENV, s, RUNNER, moments, h);
      assert h.at == n && h.action == Actions(c.state)[0];
      assert c.state.approvalDecisions[0].actionId == h.action.actionId;
    }
  }
}
