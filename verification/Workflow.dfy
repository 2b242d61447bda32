/**
 * The incident workflow as the graph engine runs it: in each superstep every
 * active node reads the same state, and their writes are merged at its end.
 * Whatever a language model or a tool answers is a free input of the step.
 */
module Workflow {
  import opened Wrappers
  import opened Json
  import opened Domain
  import opened Lists
  import opened StateUpdate
  import RiskPolicy
  import opened ExecutionRunner

  // The graph

  datatype Node =
    | Supervisor | LogAnalyst | MetricsAnalyst | CodeAnalyst | MemoryAnalyst
    | JoinEvidence | Rca | Critic | RemediationPlanner | Executor | Verifier

  datatype Route = ToSupervisor | ToRemediation | Complete

  /** `route_critic_decision` */
  function RouteCriticDecision(s: IncidentState): Route {
    if s.critique.Some? && s.critique.value.decision == NeedsMoreEvidence && s.iterationCount < s.maxIterations then
        ToSupervisor
    else if s.critique.Some? && s.critique.value.decision == Approve then ToRemediation
    else Complete
  }

  /** The edges that `build_graph` adds; a node without successors leads to the end. */
  function Successors(n: Node, s: IncidentState): set<Node> {
    match n
    case Supervisor => {LogAnalyst, MetricsAnalyst, CodeAnalyst, MemoryAnalyst}
    case LogAnalyst => {JoinEvidence}
    case MetricsAnalyst => {JoinEvidence}
    case CodeAnalyst => {JoinEvidence}
    case MemoryAnalyst => {JoinEvidence}
    case JoinEvidence => {Rca}
    case Rca => {Critic}
    case Critic =>
      (match RouteCriticDecision(s)
       case ToSupervisor => {Supervisor}
       case ToRemediation => {RemediationPlanner}
       case Complete => {})
    case RemediationPlanner => {Executor}
    case Executor => {Verifier}
    case Verifier => {}
  }

  /** Which nodes are active. */
  datatype Phase =
    | AtSupervisor | AtAnalysts | AtJoin | AtRca | AtCritic
    | AtPlanning | AtExecution | AtVerification
    | Done | Crashed

  function ActiveNodes(p: Phase): seq<Node> {
    match p
    case AtSupervisor => [Supervisor]
    case AtAnalysts => [LogAnalyst, MetricsAnalyst, CodeAnalyst, MemoryAnalyst]
    case AtJoin => [JoinEvidence]
    case AtRca => [Rca]
    case AtCritic => [Critic]
    case AtPlanning => [RemediationPlanner]
    case AtExecution => [Executor]
    case AtVerification => [Verifier]
    case Done => []
    case Crashed => []
  }

  function NextPhase(p: Phase, s: IncidentState): Phase {
    match p
    case AtSupervisor => AtAnalysts
    case AtAnalysts => AtJoin
    case AtJoin => AtRca
    case AtRca => AtCritic
    case AtCritic =>
      (match RouteCriticDecision(s)
       case ToSupervisor => AtSupervisor
       case ToRemediation => AtPlanning
       case Complete => Done)
    case AtPlanning => AtExecution
    case AtExecution => AtVerification
    case AtVerification => Done
    case Done => Done
    case Crashed => Crashed
  }

  /** The phases are the graph: the active nodes of the next one are the targets of the edges of this one. */
  lemma PhasesFollowEdges(p: Phase, s: IncidentState)
    ensures forall m :: m in ActiveNodes(NextPhase(p, s)) <==> exists n :: n in ActiveNodes(p) && m in Successors(n, s)
  {
    match p
    case AtAnalysts =>
      assert LogAnalyst in ActiveNodes(p);
    case AtSupervisor =>
      assert Supervisor in ActiveNodes(p);
    case AtJoin =>
      assert JoinEvidence in ActiveNodes(p);
    case AtRca =>
      assert Rca in ActiveNodes(p);
    case AtCritic =>
      assert Critic in ActiveNodes(p);
    case AtPlanning =>
      assert RemediationPlanner in ActiveNodes(p);
    case AtExecution =>
      assert Executor in ActiveNodes(p);
    case _ =>
  }

  // What the agents answer in one superstep

  datatype Answer = Answer(
    tasks: seq<string>,
    logs: seq<Evidence>,
    metrics: seq<Evidence>,
    code: seq<Evidence>,
    memory: seq<Evidence>,
    hypotheses: seq<Hypothesis>,
    primaryId: string,
    critique: Critique,
    actions: seq<RemediationAction>,
    outcomes: nat -> ToolOutcome,
    assessment: Assessment)

  datatype Env = Env(registry: Registry, engine: RiskPolicy.Engine)

  // The nodes

  function Event(stage: Stage, actor: string): TimelineEvent {
    TimelineEvent(stage, actor, "")
  }

  function SupervisorUpdate(a: Answer): Update {
    NOTHING.(currentStage := Some(Planning), tasks := Some(a.tasks), timeline := [Event(Planning, "SupervisorAgent")])
  }

  function AnalystUpdate(actor: string, found: seq<Evidence>): Update {
    NOTHING.(evidence := found, timeline := [Event(Investigating, actor)])
  }

  function JoinUpdate(): Update {
    NOTHING.(currentStage := Some(Investigating))
  }

  /** The primary hypothesis if it is among them, else the first, else none. */
  function SelectHypothesis(hypotheses: seq<Hypothesis>, primaryId: string): Option<Hypothesis> {
    var i := FindHypothesis(hypotheses, primaryId);
    if i < |hypotheses| then Some(hypotheses[i])
    else if hypotheses != [] then Some(hypotheses[0])
    else None
  }

  /** The first hypothesis with this id, or the number of hypotheses. */
  function FindHypothesis(hypotheses: seq<Hypothesis>, id: string): (i: nat)
    ensures i <= |hypotheses|
    ensures i < |hypotheses| ==> hypotheses[i].id == id
    ensures forall j :: 0 <= j < i ==> hypotheses[j].id != id
  {
    FirstIndex(hypotheses, (h: Hypothesis) => h.id == id)
  }

  function RcaUpdate(a: Answer): Update {
    NOTHING.(currentStage := Some(Analyzing),
             hypotheses := Some(a.hypotheses),
             selected := Some(SelectHypothesis(a.hypotheses, a.primaryId)),
             timeline := [Event(Analyzing, "RCAAgent")])
  }

  function EvidenceIds(evidence: seq<Evidence>): set<string> {
    set e | e in evidence :: e.id
  }

  /** Every cited evidence id is the id of a collected item. */
  predicate Grounded(h: Hypothesis, evidence: seq<Evidence>) {
    forall id :: id in h.supportingEvidenceIds ==> id in EvidenceIds(evidence)
  }

  /** The deterministic citation check, then the model's own verdict. */
  function Review(h: Hypothesis, evidence: seq<Evidence>, verdict: Critique): Critique {
    if Grounded(h, evidence) then verdict
    else Critique(Challenge, "Causal claim cites fabricated or uncollected evidence IDs.")
  }

  function CriticUpdate(s: IncidentState, a: Answer): Update {
    if s.selected.None? then NOTHING.(currentStage := Some(Critiquing))
    else NOTHING.(currentStage := Some(Critiquing),
                  critique := Some(Some(Review(s.selected.value, s.evidence, a.critique))),
                  timeline := [Event(Critiquing, "CriticAgent")],
                  iterationCount := Some(s.iterationCount + 1))
  }

  function AssessAll(engine: RiskPolicy.Engine, actions: seq<RemediationAction>, incidentId: string)
    : (r: seq<RemediationAction>)
    ensures |r| == |actions|
  {
    seq(|actions|, i requires 0 <= i < |actions| => RiskPolicy.Assess(engine, actions[i], incidentId))
  }

  function NeedingApproval(actions: seq<RemediationAction>): seq<RemediationAction> {
    if actions == [] then [] else
      var last := actions[|actions| - 1];
      NeedingApproval(actions[..|actions| - 1]) + if last.requiresApproval then [last] else []
  }

  function PlanningUpdate(env: Env, s: IncidentState, a: Answer): Update {
    if s.selected.None? then NOTHING.(currentStage := Some(Failed))
    else
      var actions := AssessAll(env.engine, a.actions, s.incidentId);
      NOTHING.(currentStage := Some(RemediationPlanning),
               plan := Some(Some(RemediationPlan(s.incidentId, s.selected.value.id, actions))),
               pendingApprovals := Some(NeedingApproval(actions)),
               timeline := [Event(RemediationPlanning, "RemediationAgent")])
  }

  function Actions(s: IncidentState): seq<RemediationAction> {
    if s.plan.Some? then s.plan.value.actions else []
  }

  /** The actions one after the other, each with its result; `None` when one of the calls raises. */
  function ExecuteAll(st: RunnerState, registry: Registry, actions: seq<RemediationAction>,
          outcomes: nat -> ToolOutcome)
    : (r: (RunnerState, Option<seq<ExecutionResult>>))
    ensures r.1.Some? ==>
              && |r.1.value| == |actions|
              && forall i :: 0 <= i < |actions| ==>
                     r.1.value[i].actionId == actions[i].actionId && r.1.value[i].status != RolledBack
    ensures (forall a :: a in actions ==> Unpacks(Obj(a.parameters))) ==> r.1.Some?
  {
    if actions == [] then (st, Some([])) else
      var n := |actions| - 1;
      match ExecuteAll(st, registry, actions[..n], outcomes)
      case (st', None) => (st', None)
      case (st', Some(results)) =>
        match Execute(st', registry, actions[n], Obj(actions[n].parameters), "OPERATOR", outcomes(n))
        case (st'', Reply(result)) => (st'', Some(results + [result]))
        case (st'', TypeError) => (st'', None)
  }

  function ExecutionEvents(actions: seq<RemediationAction>): (r: seq<TimelineEvent>)
    ensures |r| == |actions|
  {
    seq(|actions|, i requires 0 <= i < |actions| => TimelineEvent(Executing, "ExecutionRunner", actions[i].actionId))
  }

  function ExecutionUpdate(s: IncidentState, results: seq<ExecutionResult>): Update {
    if Actions(s) == [] then NOTHING.(currentStage := Some(Failed))
    else NOTHING.(currentStage := Some(Executing),
                  executionResults := Some(results),
                  timeline := ExecutionEvents(Actions(s)))
  }

  predicate RollsBack(s: IncidentState, a: Answer) {
    a.assessment.rollbackRecommended && Actions(s) != []
  }

  function VerificationUpdate(s: IncidentState, a: Answer): Update {
    var checked := Event(Verifying, "VerificationAgent");
    if RollsBack(s, a) then
      var last := Actions(s)[|Actions(s)| - 1];
      NOTHING.(currentStage := Some(Failed),
               verification := Some(Some(a.assessment)),
               timeline := [checked, TimelineEvent(Failed, "ExecutionRunner", last.actionId)])
    else
      NOTHING.(currentStage := Some(if a.assessment.status == Recovered then Resolved else Investigating),
               verification := Some(Some(a.assessment)),
               timeline := [checked])
  }

  // One superstep

  datatype NodeUpdate = NodeUpdate(node: Node, update: Update)

  datatype Outputs =
    | Written(updates: seq<NodeUpdate>, runner: RunnerState)
    | Raised(runner: RunnerState)

  datatype Config = Config(phase: Phase, state: IncidentState, runner: RunnerState)

  function NodeOutputs(env: Env, c: Config, a: Answer): Outputs {
    var s := c.state;
    match c.phase
    case AtSupervisor => Written([NodeUpdate(Supervisor, SupervisorUpdate(a))], c.runner)
    case AtAnalysts =>
      Written([NodeUpdate(LogAnalyst, AnalystUpdate("LogAnalystAgent", a.logs)),
               NodeUpdate(MetricsAnalyst, AnalystUpdate("MetricsAnalystAgent", a.metrics)),
               NodeUpdate(CodeAnalyst, AnalystUpdate("CodeAnalystAgent", a.code)),
               NodeUpdate(MemoryAnalyst, AnalystUpdate("IncidentMemoryAgent", a.memory))], c.runner)
    case AtJoin => Written([NodeUpdate(JoinEvidence, JoinUpdate())], c.runner)
    case AtRca => Written([NodeUpdate(Rca, RcaUpdate(a))], c.runner)
    case AtCritic => Written([NodeUpdate(Critic, CriticUpdate(s, a))], c.runner)
    case AtPlanning => Written([NodeUpdate(RemediationPlanner, PlanningUpdate(env, s, a))], c.runner)
    case AtExecution =>
      (match ExecuteAll(c.runner, env.registry, Actions(s), a.outcomes)
       case (runner, Some(results)) => Written([NodeUpdate(Executor, ExecutionUpdate(s, results))], runner)
       case (runner, None) => Raised(runner))
    case AtVerification =>
      if RollsBack(s, a) then
        match ExecuteRollback(c.runner, env.registry, Actions(s)[|Actions(s)| - 1], "OPERATOR", a.outcomes(0))
        case (runner, Reply(_)) => Written([NodeUpdate(Verifier, VerificationUpdate(s, a))], runner)
        case (runner, TypeError) => Raised(runner)
      else
        Written([NodeUpdate(Verifier, VerificationUpdate(s, a))], c.runner)
    case Done => Written([], c.runner)
    case Crashed => Written([], c.runner)
  }

  function Updates(us: seq<NodeUpdate>): (r: seq<Update>)
    ensures |r| == |us| && forall i :: 0 <= i < |us| ==> r[i] == us[i].update
  {
    seq(|us|, i requires 0 <= i < |us| => us[i].update)
  }

  function Step(env: Env, c: Config, a: Answer): Config {
    match NodeOutputs(env, c, a)
    case Raised(runner) => Config(Crashed, c.state, runner)
    case Written(us, runner) =>
      match Reduce(c.state, Updates(us))
      case None => Config(Crashed, c.state, runner)
      case Some(s) => Config(NextPhase(c.phase, s), s, runner)
  }

  function Run(env: Env, s: IncidentState, runner: RunnerState, answers: seq<Answer>): Config {
    if answers == [] then Config(AtSupervisor, s, runner)
    else Step(env, Run(env, s, runner, answers[..|answers| - 1]), answers[|answers| - 1])
  }

  /** The state an incident is created with. */
  predicate Fresh(s: IncidentState) {
    && s.currentStage == Created && s.evidence == [] && s.hypotheses == []
    && s.selected.None? && s.critique.None? && s.plan.None?
    && s.executionResults == [] && s.verification.None? && s.iterationCount == 0
  }

  lemma NothingToExecute(st: RunnerState, registry: Registry, outcomes: nat -> ToolOutcome)
    ensures ExecuteAll(st, registry, [], outcomes) == (st, Some([]))
  {
  }

  /** One action more, when the calls before it returned. */
  lemma ExecuteOneMore(st: RunnerState, registry: Registry, actions: seq<RemediationAction>,
          outcomes: nat -> ToolOutcome, i: nat)
    requires i < |actions|
    ensures var (before, earlier) := ExecuteAll(st, registry, actions[..i], outcomes);
            earlier.Some? ==>
              ExecuteAll(st, registry, actions[..i + 1], outcomes) ==
                match Execute(before, registry, actions[i], Obj(actions[i].parameters), "OPERATOR", outcomes(i))
                case (after, Reply(result)) => (after, Some(earlier.value + [result]))
                case (after, TypeError) => (after, None)
  {
    hide Execute;
    assert actions[..i + 1][..i] == actions[..i];
  }

  /** How many of the actions are handed to the runner: those up to the first whose call raises, or all. */
  function HandedCount(st: RunnerState, registry: Registry, actions: seq<RemediationAction>,
          outcomes: nat -> ToolOutcome)
    : (k: nat)
    ensures k <= |actions|
  {
    if actions == [] then 0 else
      var n := |actions| - 1;
      if ExecuteAll(st, registry, actions[..n], outcomes).1.None? then HandedCount(st, registry, actions[..n], outcomes)
      else |actions|
  }

  /** The calls before the last one return, the last one raises unless all were made, and there is none after it. */
  lemma {:induction false} HandedMeaning(st: RunnerState, registry: Registry, actions: seq<RemediationAction>,
          outcomes: nat -> ToolOutcome)
    ensures var k := HandedCount(st, registry, actions, outcomes);
            && (forall j :: 0 <= j < k ==> ExecuteAll(st, registry, actions[..j], outcomes).1.Some?)
            && ExecuteAll(st, registry, actions, outcomes) == ExecuteAll(st, registry, actions[..k], outcomes)
            && (k < |actions| ==> ExecuteAll(st, registry, actions[..k], outcomes).1.None?)
  {
    hide ExecuteAll;
    if actions != [] {
      var n := |actions| - 1;
      HandedMeaning(st, registry, actions[..n], outcomes);
      var k := HandedCount(st, registry, actions, outcomes);
      if ExecuteAll(st, registry, actions[..n], outcomes).1.None? {
        assert actions[..n][..k] == actions[..k];
        RaisedBefore(st, registry, actions, outcomes);
        forall j | 0 <= j < k ensures ExecuteAll(st, registry, actions[..j], outcomes).1.Some? {
          assert actions[..n][..j] == actions[..j];
        }
      } else {
        assert actions[..k] == actions;
        forall j | 0 <= j < k ensures ExecuteAll(st, registry, actions[..j], outcomes).1.Some? {
          if ExecuteAll(st, registry, actions[..j], outcomes).1.None? {
            assert actions[..n][..j] == actions[..j];
            RaisingStops(st, registry, actions[..n], outcomes, j);
          }
        }
      }
    } else {
      assert actions[..0] == actions;
    }
  }

  lemma RaisedBefore(st: RunnerState, registry: Registry, actions: seq<RemediationAction>, outcomes: nat -> ToolOutcome)
    requires actions != [] && ExecuteAll(st, registry, actions[..|actions| - 1], outcomes).1.None?
    ensures ExecuteAll(st, registry, actions, outcomes) == ExecuteAll(st, registry, actions[..|actions| - 1], outcomes)
  {
    hide Execute;
  }

  /** Nothing is executed after the action whose call raises. */
  lemma {:induction false} RaisingStops(st: RunnerState, registry: Registry, actions: seq<RemediationAction>,
          outcomes: nat -> ToolOutcome, i: nat)
    requires i <= |actions| && ExecuteAll(st, registry, actions[..i], outcomes).1.None?
    ensures ExecuteAll(st, registry, actions, outcomes) == ExecuteAll(st, registry, actions[..i], outcomes)
  {
    hide ExecuteAll;
    if i == |actions| {
      assert actions[..i] == actions;
    } else {
      var n := |actions| - 1;
      assert actions[..n][..i] == actions[..i];
      RaisingStops(st, registry, actions[..n], outcomes, i);
      RaisedBefore(st, registry, actions, outcomes);
    }
  }

  // The nodes that work step by step

  class IncidentWorkflow {
    const runner: ExecutionRunner

    constructor (runner: ExecutionRunner)
      ensures this.runner == runner
    {
      this.runner := runner;
    }

    method RcaNode(a: Answer) returns (u: Update)
      ensures u == RcaUpdate(a)
    {
      var selected: Option<Hypothesis> := None;
      var i := 0;
      while i < |a.hypotheses|
        invariant 0 <= i <= |a.hypotheses|
        invariant selected.None? && forall j :: 0 <= j < i ==> a.hypotheses[j].id != a.primaryId
      {
        if a.hypotheses[i].id == a.primaryId {
          selected := Some(a.hypotheses[i]);
          break;
        }
        i := i + 1;
      }
      if selected.None? && a.hypotheses != [] {
        selected := Some(a.hypotheses[0]);
      }
      u := NOTHING.(currentStage := Some(Analyzing), hypotheses := Some(a.hypotheses), selected := Some(selected),
                    timeline := [Event(Analyzing, "RCAAgent")]);
    }

    /** `None` when an execution raises. */
    method ExecutionNode(s: IncidentState, outcomes: nat -> ToolOutcome) returns (u: Option<Update>)
      modifies runner
      ensures var (st, results) := ExecuteAll(old(runner.State()), runner.registry, Actions(s), outcomes);
              runner.State() == st && u == if results.Some? then Some(ExecutionUpdate(s, results.value)) else None
    {
      hide ExecuteAll;
      hide Execute;
      var actions := Actions(s);
      NothingToExecute(runner.State(), runner.registry, outcomes);
      if actions == [] {
        return Some(NOTHING.(currentStage := Some(Failed)));
      }
      assert actions[..0] == [];
      var results: seq<ExecutionResult> := [];
      var events: seq<TimelineEvent> := [];
      for i := 0 to |actions|
        invariant (runner.State(), Some(results))
            == ExecuteAll(old(runner.State()), runner.registry, actions[..i], outcomes)
        invariant events == ExecutionEvents(actions[..i])
      {
        ExecuteOneMore(old(runner.State()), runner.registry, actions, outcomes, i);
        assert ExecutionEvents(actions[..i + 1])
            == ExecutionEvents(actions[..i]) + [TimelineEvent(Executing, "ExecutionRunner", actions[i].actionId)];
        var r := runner.ExecuteAction(actions[i], "OPERATOR", outcomes(i));
        if r.TypeError? {
          RaisingStops(old(runner.State()), runner.registry, actions, outcomes, i + 1);
          return None;
        }
        results := results + [r.result];
        events := events + [TimelineEvent(Executing, "ExecutionRunner", actions[i].actionId)];
      }
      assert actions[..|actions|] == actions;
      u := Some(NOTHING.(currentStage := Some(Executing), executionResults := Some(results), timeline := events));
    }

    /** `None` when the rollback raises. */
    method VerificationNode(s: IncidentState, a: Answer) returns (u: Option<Update>)
      modifies runner
      ensures if RollsBack(s, a) then
                var (st, reply) := ExecuteRollback(old(runner.State()), runner.registry, Actions(s)[|Actions(s)| - 1],
                    "OPERATOR", a.outcomes(0));
                runner.State() == st && u == if reply.Reply? then Some(VerificationUpdate(s, a)) else None
              else runner.State() == old(runner.State()) && u == Some(VerificationUpdate(s, a))
    {
      var events := [Event(Verifying, "VerificationAgent")];
      var actions := Actions(s);
      if a.assessment.rollbackRecommended && actions != [] {
        var last := actions[|actions| - 1];
        var r := runner.Rollback(last, "OPERATOR", a.outcomes(0));
        if r.TypeError? {
          return None;
        }
        events := events + [TimelineEvent(Failed, "ExecutionRunner", last.actionId)];
        assert events
            == [Event(Verifying, "VerificationAgent"), TimelineEvent(Failed, "ExecutionRunner", last.actionId)];
        return Some(NOTHING.(currentStage := Some(Failed), verification := Some(Some(a.assessment)),
            timeline := events));
      }
      var next := if a.assessment.status == Recovered then Resolved else Investigating;
      u := Some(NOTHING.(currentStage := Some(next), verification := Some(Some(a.assessment)), timeline := events));
    }
  }

  // Supersteps

  /** No two nodes of a superstep write one overwritten field, so merging never fails. */
  lemma NoWriteConflict(env: Env, c: Config, a: Answer)
    ensures NodeOutputs(env, c, a).Written? ==> AllCompatible(Updates(NodeOutputs(env, c, a).updates))
  {
  }

  /** A superstep other than the analysts' merges the update of its single node. */
  lemma SingleNode(env: Env, c: Config, a: Answer)
    requires c.phase != AtAnalysts && c.phase != Done && c.phase != Crashed && NodeOutputs(env, c, a).Written?
    ensures var out := NodeOutputs(env, c, a);
            && |out.updates| == 1
            && var s := Merge(c.state, out.updates[0].update);
               Step(env, c, a) == Config(NextPhase(c.phase, s), s, out.runner)
  {
    var out := NodeOutputs(env, c, a);
    assert Updates(out.updates) == [out.updates[0].update];
    MergeOne(c.state, out.updates[0].update);
  }

  /** The engine may merge the analysts' updates in any order; only the order of evidence and timeline depends on it. */
  lemma AnalystsInAnyOrder(env: Env, c: Config, a: Answer, merged: seq<Update>)
    requires c.phase == AtAnalysts && multiset(merged) == multiset(Updates(NodeOutputs(env, c, a).updates))
    ensures Similar(Step(env, c, a).state, MergeAll(c.state, merged))
  {
    NoWriteConflict(env, c, a);
    OrderIndependent(c.state, c.state, Updates(NodeOutputs(env, c, a).updates), merged);
  }

  function AnalystEvents(): seq<TimelineEvent> {
    [Event(Investigating, "LogAnalystAgent"), Event(Investigating, "MetricsAnalystAgent"),
     Event(Investigating, "CodeAnalystAgent"), Event(Investigating, "IncidentMemoryAgent")]
  }

  lemma AnalystsStep(env: Env, c: Config, a: Answer)
    requires c.phase == AtAnalysts
    ensures Step(env, c, a) ==
            Config(AtJoin, c.state.(evidence := c.state.evidence + (a.logs + a.metrics + a.code + a.memory),
                                    timeline := c.state.timeline + AnalystEvents()), c.runner)
  {
    var u0, u1 := AnalystUpdate("LogAnalystAgent", a.logs), AnalystUpdate("MetricsAnalystAgent", a.metrics);
    var u2, u3 := AnalystUpdate("CodeAnalystAgent", a.code), AnalystUpdate("IncidentMemoryAgent", a.memory);
    NoWriteConflict(env, c, a);
    assert Updates(NodeOutputs(env, c, a).updates) == [u0, u1, u2, u3];
    MergeFour(c.state, u0, u1, u2, u3);
    var s := c.state;
    assert s.evidence + a.logs + a.metrics + a.code + a.memory == s.evidence + (a.logs + a.metrics + a.code + a.memory);
    assert s.timeline + u0.timeline + u1.timeline + u2.timeline + u3.timeline == s.timeline + AnalystEvents();
  }
}
