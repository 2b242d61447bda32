/** The shared state of an incident and the records the agents exchange. */
module Domain {
  import opened Wrappers
  import opened Json

  datatype Stage =
    | Created | Planning | Investigating | Analyzing | Critiquing
    | RemediationPlanning | RiskAssessment | WaitingApproval
    | Executing | Verifying | Resolved | Failed | Escalated

  /** `about` is the action an execution event is about, and empty otherwise. */
  datatype TimelineEvent = TimelineEvent(stage: Stage, actor: string, about: string)

  datatype Evidence = Evidence(id: string, kind: string, source: string, observation: string)

  datatype Hypothesis = Hypothesis(id: string, title: string, supportingEvidenceIds: seq<string>)

  datatype Verdict = Approve | Challenge | NeedsMoreEvidence

  datatype Critique = Critique(decision: Verdict, notes: string)

  datatype ActionType =
    | RestartService | RollbackDeployment | ScaleReplicas | ModifyConfiguration | RunQuery | ClearCache

  datatype RiskTier = Low | Medium | High | Critical

  /** Risk scores are in thousandths. */
  datatype RemediationAction = RemediationAction(
    actionId: string,
    actionType: ActionType,
    targetService: string,
    parameters: seq<Field>,
    riskTier: RiskTier,
    riskScore: int,
    requiresApproval: bool,
    idempotencyKey: string)

  datatype RemediationPlan = RemediationPlan(
    incidentId: string,
    hypothesisId: string,
    actions: seq<RemediationAction>)

  datatype Decision = Approved | Rejected | Modified

  datatype ApprovalDecision = ApprovalDecision(actionId: string, decision: Decision, decidedBy: string, reason: string)

  datatype ExecutionStatus = Succeeded | ExecutionFailed | RolledBack

  datatype ExecutionResult = ExecutionResult(actionId: string, status: ExecutionStatus, output: string)

  datatype Recovery = Recovered | PartiallyRecovered | Unchanged | Degraded

  datatype Assessment = Assessment(status: Recovery, rollbackRecommended: bool)

  datatype IncidentState = IncidentState(
    incidentId: string,
    title: string,
    affectedServices: seq<string>,
    currentStage: Stage,
    tasks: seq<string>,
    evidence: seq<Evidence>,
    hypotheses: seq<Hypothesis>,
    selected: Option<Hypothesis>,
    critique: Option<Critique>,
    plan: Option<RemediationPlan>,
    pendingApprovals: seq<RemediationAction>,
    approvalDecisions: seq<ApprovalDecision>,
    executionResults: seq<ExecutionResult>,
    verification: Option<Assessment>,
    timeline: seq<TimelineEvent>,
    errors: seq<string>,
    iterationCount: int,
    maxIterations: int)
}
