/**
 * The incident service: the dictionary of incidents, the coroutine that merges
 * and publishes a run, and the approval operations.
 */
module IncidentService {
  import opened Wrappers
  import opened Domain
  import opened StateUpdate
  import BP = BrokerProtocol
  import EventBroker
  import Workflow
  import RiskPolicy
  import opened ServiceStream
  import opened Approvals

  /** The broker steps that publish these events to an incident. */
  function Publications(id: string, events: seq<Event>): (r: seq<BP.Step<Payload>>)
    ensures |r| == |events|
    ensures forall i :: 0 <= i < |events| ==> r[i] == BP.Publish(id, events[i])
  {
    seq(|events|, i requires 0 <= i < |events| => BP.Publish(id, events[i]))
  }

  lemma PublicationsConcat(id: string, a: seq<Event>, b: seq<Event>)
    ensures Publications(id, a + b) == Publications(id, a) + Publications(id, b)
  {
  }

  function CreatedState(id: string, title: string, affectedServices: seq<string>): IncidentState {
    IncidentState(id, title, affectedServices, Created, [], [], [], None, None, None, [], [], [], None,
                  [TimelineEvent(Created, "System", "")], [], 0, 3)
  }

  class IncidentService {
    const broker: EventBroker.EventBroker<Payload>
    var incidents: map<string, IncidentState>
    /** Publications that have been handed to the event loop as tasks and have not run. */
    var scheduled: seq<(string, Event)>

    constructor (broker: EventBroker.EventBroker<Payload>)
      ensures this.broker == broker && incidents == map[] && scheduled == []
    {
      this.broker := broker;
      incidents, scheduled := map[], [];
    }

    /** The id is a fresh random one. */
    method CreateIncident(id: string, title: string, affectedServices: seq<string>)
      requires id !in incidents
      modifies this`incidents
      ensures incidents == old(incidents)[id := CreatedState(id, title, affectedServices)]
      ensures Workflow.Fresh(incidents[id])
      ensures var s := incidents[id];
              && s.incidentId == id && s.title == title && s.affectedServices == affectedServices
              && s.currentStage == Created && s.timeline == [TimelineEvent(Created, "System", "")]
              && s.tasks == [] && s.evidence == [] && s.hypotheses == [] && s.errors == []
              && s.selected == None && s.critique == None && s.plan == None && s.verification == None
              && s.pendingApprovals == [] && s.approvalDecisions == [] && s.executionResults == []
              && s.iterationCount == 0 && s.maxIterations == 3
    {
      incidents := incidents[id := CreatedState(id, title, affectedServices)];
    }

    /** The publish loops for the evidence and the timeline of one update. */
    method PublishAll(id: string, events: seq<Event>)
      requires broker.Valid()
      modifies broker, broker.Objects()
      ensures broker.Valid() && broker.clients == old(broker.clients)
      ensures broker.trace == old(broker.trace) + Publications(id, events)
    {
      hide EventBroker.EventBroker.Valid;
      for i := 0 to |events|
        invariant broker.Valid() && broker.clients == old(broker.clients)
        invariant broker.trace == old(broker.trace) + Publications(id, events[..i])
      {
        broker.Publish(id, events[i].event, events[i].data);
        assert events[..i + 1] == events[..i] + [events[i]];
        PublicationsConcat(id, events[..i], [events[i]]);
        assert Publications(id, [events[i]]) == [BP.Publish(id, events[i])];
      }
      assert events[..|events|] == events;
    }

    /** One item of the stream: merge it, publish what it brought, publish the stage. */
    method MergeAndPublish(id: string, nu: Workflow.NodeUpdate)
      requires broker.Valid() && id in incidents
      modifies this`incidents, broker, broker.Objects()
      ensures broker.Valid() && broker.clients == old(broker.clients)
      ensures incidents == old(incidents)[id := Merge(old(incidents)[id], nu.update)]
      ensures broker.trace == old(broker.trace) + Publications(id, NodeEvents(incidents[id], nu))
    {
      hide EventBroker.EventBroker.Valid;
      hide Publications;
      hide Merge;
      incidents := incidents[id := Merge(incidents[id], nu.update)];
      PublishAll(id, EvidenceEvents(nu.update.evidence));
      PublishAll(id, ThoughtEvents(nu.update.timeline));
      PublishAll(id, [StageEvent(incidents[id].currentStage, Some(nu.node))]);
      PublicationsConcat(id, EvidenceEvents(nu.update.evidence), ThoughtEvents(nu.update.timeline));
      PublicationsConcat(id, EvidenceEvents(nu.update.evidence) + ThoughtEvents(nu.update.timeline),
                         [StageEvent(incidents[id].currentStage, Some(nu.node))]);
    }

    method StreamRun(id: string, stream: seq<Workflow.NodeUpdate>)
      requires broker.Valid() && id in incidents
      modifies this`incidents, broker, broker.Objects()
      ensures broker.Valid() && broker.clients == old(broker.clients)
      ensures incidents == old(incidents)[id := Shadow(old(incidents)[id], stream)]
      ensures broker.trace == old(broker.trace) + Publications(id, StreamEvents(old(incidents)[id], stream))
    {
      hide EventBroker.EventBroker.Valid;
      hide Publications;
      hide NodeEvents;
      hide Merge;
      ghost var s := incidents[id];
      for i := 0 to |stream|
        invariant broker.Valid() && broker.clients == old(broker.clients)
        invariant incidents == old(incidents)[id := Shadow(s, stream[..i])]
        invariant broker.trace == old(broker.trace) + Publications(id, StreamEvents(s, stream[..i]))
      {
        MergeAndPublish(id, stream[i]);
        assert stream[..i + 1][..i] == stream[..i];
        PublicationsConcat(id, StreamEvents(s, stream[..i]), NodeEvents(Shadow(s, stream[..i + 1]), stream[i]));
      }
      assert stream[..|stream|] == stream;
    }

    /** `_run_investigation`, for the items the engine streams and the way the run ends. */
    method RunInvestigation(id: string, stream: seq<Workflow.NodeUpdate>, ending: Ending)
      requires broker.Valid()
      modifies this`incidents, broker, broker.Objects()
      ensures broker.Valid() && broker.clients == old(broker.clients)
      ensures id !in old(incidents) ==> incidents == old(incidents) && broker.trace == old(broker.trace)
      ensures id in old(incidents) && old(incidents)[id].incidentId == id ==>
                var s := old(incidents)[id];
                && incidents == old(incidents)[id := FinalState(Shadow(s, stream), ending)]
                && broker.trace == old(broker.trace) + Publications(id, RunEvents(s, stream, ending))
    {
      hide EventBroker.EventBroker.Valid;
      hide Publications;
      hide FinalEvents;
      hide FinalState;
      hide StreamEvents;
      hide Shadow;
      if id !in incidents {
        return;
      }
      ghost var s := incidents[id];
      PublishAll(id, [TRIAGE]);
      StreamRun(id, stream);
      PublicationsConcat(id, [TRIAGE], StreamEvents(s, stream));
      ShadowKeepsId(s, stream);
      Finish(id, ending);
      PublicationsConcat(id, [TRIAGE] + StreamEvents(s, stream), FinalEvents(Shadow(s, stream), ending));
    }

    method Finish(id: string, ending: Ending)
      requires broker.Valid() && id in incidents
      modifies this`incidents, broker, broker.Objects()
      ensures broker.Valid() && broker.clients == old(broker.clients)
      ensures incidents == old(incidents)[id := FinalState(old(incidents)[id], ending)]
      ensures old(incidents)[id].incidentId == id ==>
                broker.trace == old(broker.trace) + Publications(id, FinalEvents(old(incidents)[id], ending))
    {
      hide EventBroker.EventBroker.Valid;
      var error: Option<string> := None;
      if ending.EngineRaised? {
        error := Some(ending.error);
      } else if incidents[id].currentStage == Resolved {
        PublishAll(id, [BP.Record("resolved", StatusPayload(id))]);
        if ending.ReportRaised? {
          error := Some(ending.error);
        }
      }
      if error.Some? {
        incidents := incidents[id := Failure(incidents[id], error.value)];
        PublishAll(id, [BP.Record("failed", ErrorPayload(error.value))]);
        PublicationsConcat(id, [BP.Record("resolved", StatusPayload(id))],
            [BP.Record("failed", ErrorPayload(error.value))]);
        assert [BP.Record("resolved", StatusPayload(id))] + [BP.Record("failed", ErrorPayload(error.value))]
            == [BP.Record("resolved", StatusPayload(id)), BP.Record("failed", ErrorPayload(error.value))];
      }
    }

    method GetApprovals(id: string) returns (r: seq<Approval>)
      ensures r == if id in incidents then ListApprovals(incidents[id]) else []
    {
      if id !in incidents || incidents[id].plan.None? {
        return [];
      }
      var s := incidents[id];
      var byAction: map<string, ApprovalDecision> := map[];
      for i := 0 to |s.approvalDecisions|
        invariant forall a :: LastDecision(s.approvalDecisions[..i], a) == if a in byAction then Some(byAction[a])
            else None
      {
        byAction := byAction[s.approvalDecisions[i].actionId := s.approvalDecisions[i]];
        assert s.approvalDecisions[..i + 1][..i] == s.approvalDecisions[..i];
      }
      assert s.approvalDecisions[..|s.approvalDecisions|] == s.approvalDecisions;
      r := [];
      var actions := s.plan.value.actions;
      for i := 0 to |actions|
        invariant |r| == i
        invariant forall j :: 0 <= j < i ==> r[j] == ListApprovals(s)[j]
      {
        var a := actions[i];
        var status := if a.actionId in byAction then Decided(byAction[a.actionId].decision)
                      else if a.requiresApproval then Pending else AutoApproved;
        r := r + [Approval(ApprovalId(a.actionId), a.actionId, status)];
      }
    }

    /** Whether an event loop is running decides whether the decision is published. */
    method SubmitApproval(id: string, approvalId: string, request: Request, loopRunning: bool)
      returns (r: Result<ApprovalDecision, SubmitError>)
      modifies this
      ensures r == if id in old(incidents) then Submit(old(incidents)[id], approvalId, request)
          else Err(NoRemediationPlan)
      ensures incidents == if id in old(incidents) && r.Ok? then
          old(incidents)[id := AfterSubmit(old(incidents)[id], approvalId, request)]
                           else old(incidents)
      ensures scheduled == old(scheduled) +
                if r.Ok? && loopRunning then [(id, BP.Record("approval_decision", DecisionPayload(r.value)))] else []
    {
      if id !in incidents || incidents[id].plan.None? {
        return Err(NoRemediationPlan);
      }
      var s := incidents[id];
      var actions := s.plan.value.actions;
      var i := 0;
      while i < |actions| && !Names(approvalId, actions[i])
        invariant 0 <= i <= FindTarget(actions, approvalId)
      {
        i := i + 1;
      }
      if i == |actions| {
        return Err(ApprovalNotFound);
      }
      var target := actions[i];
      var k := 0;
      while k < |s.approvalDecisions| && s.approvalDecisions[k].actionId != target.actionId
        invariant 0 <= k <= FindDecision(s.approvalDecisions, target.actionId)
      {
        k := k + 1;
      }
      if k < |s.approvalDecisions| {
        return Err(AlreadyDecided(s.approvalDecisions[k]));
      }
      match RiskPolicy.Authorize(target.riskTier, request.approverRole)
      case Err(denial) => return Err(Denied(denial));
      case Ok(_) =>
        var decision := ApprovalDecision(target.actionId, request.decision, request.approverId, request.reason);
        incidents := incidents[id := s.(approvalDecisions := s.approvalDecisions + [decision])];
        if loopRunning {
          scheduled := scheduled + [(id, DecisionEvent(decision))];
        }
        return Ok(decision);
    }

    /** The event loop runs the `k`-th of the tasks that are waiting. */
    method RunScheduled(k: nat)
      requires broker.Valid() && k < |scheduled|
      modifies this`scheduled, broker, broker.Objects()
      ensures broker.Valid() && broker.clients == old(broker.clients)
      ensures broker.trace == old(broker.trace) + [BP.Publish(old(scheduled)[k].0, old(scheduled)[k].1)]
      ensures scheduled == old(scheduled)[..k] + old(scheduled)[k + 1..]
    {
      hide EventBroker.EventBroker.Valid;
      var (id, event) := scheduled[k];
      scheduled := scheduled[..k] + scheduled[k + 1..];
      broker.Publish(id, event.event, event.data);
    }
  }

  lemma {:induction false} ShadowKeepsId(s: IncidentState, stream: seq<Workflow.NodeUpdate>)
    ensures Shadow(s, stream).incidentId == s.incidentId
  {
    if stream != [] {
      ShadowKeepsId(s, stream[..|stream| - 1]);
    }
  }
}
