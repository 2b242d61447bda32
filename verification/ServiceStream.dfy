/**
 * What the incident service makes of the stream of node updates: a shadow copy
 * of the graph's state, and events from which a subscriber can rebuild it.
 */
module ServiceStream {
  import opened Wrappers
  import opened Domain
  import opened StateUpdate
  import opened BrokerProtocol
  import opened Lists
  import Workflow
  import ExecutionRunner
  import Approvals

  datatype Payload =
    | EvidencePayload(evidence: Evidence)
    | ThoughtPayload(thought: TimelineEvent)
    | StagePayload(stage: Stage, node: Option<Workflow.Node>)
    | StatusPayload(incidentId: string)
    | ErrorPayload(error: string)
    | DecisionPayload(decision: ApprovalDecision)

  type Event = Record<Payload>

  function EvidenceEvents(items: seq<Evidence>): (r: seq<Event>)
    ensures |r| == |items|
  {
    seq(|items|, i requires 0 <= i < |items| => Record("evidence_found", EvidencePayload(items[i])))
  }

  function ThoughtEvents(items: seq<TimelineEvent>): (r: seq<Event>)
    ensures |r| == |items|
  {
    seq(|items|, i requires 0 <= i < |items| => Record("agent_thought", ThoughtPayload(items[i])))
  }

  function StageEvent(stage: Stage, node: Option<Workflow.Node>): Event {
    Record("stage_change", StagePayload(stage, node))
  }

  function DecisionEvent(d: ApprovalDecision): Event {
    Record("approval_decision", DecisionPayload(d))
  }

  /** What is published for one node: its evidence, its thoughts, and the stage after merging. */
  function NodeEvents(merged: IncidentState, nu: Workflow.NodeUpdate): seq<Event> {
    EvidenceEvents(nu.update.evidence) + ThoughtEvents(nu.update.timeline)
        + [StageEvent(merged.currentStage, Some(nu.node))]
  }

  /** The shadow after merging the streamed updates. */
  function Shadow(s: IncidentState, stream: seq<Workflow.NodeUpdate>): IncidentState {
    if stream == [] then s else Merge(Shadow(s, stream[..|stream| - 1]), stream[|stream| - 1].update)
  }

  /** What has been published for them. */
  function StreamEvents(s: IncidentState, stream: seq<Workflow.NodeUpdate>): seq<Event> {
    if stream == [] then [] else
      StreamEvents(s, stream[..|stream| - 1]) + NodeEvents(Shadow(s, stream), stream[|stream| - 1])
  }

  // How a run ends

  datatype Ending = Completed | EngineRaised(error: string) | ReportRaised(error: string)

  const TRIAGE: Event := StageEvent(Planning, None)

  function Failure(s: IncidentState, error: string): IncidentState {
    s.(currentStage := Failed, errors := s.errors + [error])
  }

  /** The state when the coroutine is over; a report is made only for a resolved incident. */
  function FinalState(s: IncidentState, ending: Ending): IncidentState {
    match ending
    case Completed => s
    case EngineRaised(error) => Failure(s, error)
    case ReportRaised(error) => if s.currentStage == Resolved then Failure(s, error) else s
  }

  function FinalEvents(s: IncidentState, ending: Ending): seq<Event> {
    var resolved := Record("resolved", StatusPayload(s.incidentId));
    match ending
    case Completed => if s.currentStage == Resolved then [resolved] else []
    case EngineRaised(error) => [Record("failed", ErrorPayload(error))]
    case ReportRaised(error) =>
      if s.currentStage == Resolved then [resolved, Record("failed", ErrorPayload(error))] else []
  }

  /** Everything the coroutine publishes. */
  function RunEvents(s: IncidentState, stream: seq<Workflow.NodeUpdate>, ending: Ending): seq<Event> {
    [TRIAGE] + StreamEvents(s, stream) + FinalEvents(Shadow(s, stream), ending)
  }

  // What a reader of events collects

  function EvidenceOf(events: seq<Event>): seq<Evidence> {
    if events == [] then [] else
      var last := events[|events| - 1];
      EvidenceOf(events[..|events| - 1]) + if last.event == "evidence_found" && last.data.EvidencePayload? then
          [last.data.evidence] else []
  }

  function ThoughtsOf(events: seq<Event>): seq<TimelineEvent> {
    if events == [] then [] else
      var last := events[|events| - 1];
      ThoughtsOf(events[..|events| - 1]) + if last.event == "agent_thought" && last.data.ThoughtPayload? then
          [last.data.thought] else []
  }

  lemma {:induction false} EvidenceOfConcat(a: seq<Event>, b: seq<Event>)
    ensures EvidenceOf(a + b) == EvidenceOf(a) + EvidenceOf(b)
  {
    if b == [] {
      assert a + b == a;
    } else {
      assert (a + b)[..|a + b| - 1] == a + b[..|b| - 1];
      EvidenceOfConcat(a, b[..|b| - 1]);
    }
  }

  lemma {:induction false} ThoughtsOfConcat(a: seq<Event>, b: seq<Event>)
    ensures ThoughtsOf(a + b) == ThoughtsOf(a) + ThoughtsOf(b)
  {
    if b == [] {
      assert a + b == a;
    } else {
      assert (a + b)[..|a + b| - 1] == a + b[..|b| - 1];
      ThoughtsOfConcat(a, b[..|b| - 1]);
    }
  }

  lemma {:induction false} EvidenceEventsRead(items: seq<Evidence>)
    ensures EvidenceOf(EvidenceEvents(items)) == items && ThoughtsOf(EvidenceEvents(items)) == []
  {
    if items != [] {
      var front := items[..|items| - 1];
      assert EvidenceEvents(items)[..|items| - 1] == EvidenceEvents(front);
      EvidenceEventsRead(front);
    }
  }

  lemma {:induction false} ThoughtEventsRead(items: seq<TimelineEvent>)
    ensures ThoughtsOf(ThoughtEvents(items)) == items && EvidenceOf(ThoughtEvents(items)) == []
  {
    if items != [] {
      var front := items[..|items| - 1];
      assert ThoughtEvents(items)[..|items| - 1] == ThoughtEvents(front);
      ThoughtEventsRead(front);
    }
  }

  lemma NodeEventsRead(merged: IncidentState, nu: Workflow.NodeUpdate)
    ensures EvidenceOf(NodeEvents(merged, nu)) == nu.update.evidence
    ensures ThoughtsOf(NodeEvents(merged, nu)) == nu.update.timeline
  {
    var es, ts, st := EvidenceEvents(nu.update.evidence), ThoughtEvents(nu.update.timeline),
        [StageEvent(merged.currentStage, Some(nu.node))];
    EvidenceEventsRead(nu.update.evidence);
    ThoughtEventsRead(nu.update.timeline);
    EvidenceOfConcat(es, ts);
    EvidenceOfConcat(es + ts, st);
    ThoughtsOfConcat(es, ts);
    ThoughtsOfConcat(es + ts, st);
    assert st[..0] == [];
  }

  /**
   * After each merged update, the evidence and the thoughts published so far
   * are what the shadow's evidence and timeline have gained, in order.
   */
  lemma {:induction false} EventsRebuildShadow(s: IncidentState, stream: seq<Workflow.NodeUpdate>)
    ensures Shadow(s, stream).evidence == s.evidence + EvidenceOf(StreamEvents(s, stream))
    ensures Shadow(s, stream).timeline == s.timeline + ThoughtsOf(StreamEvents(s, stream))
  {
    if stream != [] {
      var n := |stream| - 1;
      EventsRebuildShadow(s, stream[..n]);
      NodeEventsRead(Shadow(s, stream), stream[n]);
      EvidenceOfConcat(StreamEvents(s, stream[..n]), NodeEvents(Shadow(s, stream), stream[n]));
      ThoughtsOfConcat(StreamEvents(s, stream[..n]), NodeEvents(Shadow(s, stream), stream[n]));
    }
  }

  lemma FinalEventsRead(s: IncidentState, ending: Ending)
    ensures EvidenceOf(FinalEvents(s, ending)) == [] && ThoughtsOf(FinalEvents(s, ending)) == []
  {
    var e := FinalEvents(s, ending);
    if |e| == 2 {
      assert e == [e[0]] + [e[1]];
      EvidenceOfConcat([e[0]], [e[1]]);
      ThoughtsOfConcat([e[0]], [e[1]]);
      OtherEventRead(e[0]);
      OtherEventRead(e[1]);
    } else if |e| == 1 {
      OtherEventRead(e[0]);
      assert e == [e[0]];
    }
  }

  lemma OtherEventRead(e: Event)
    requires e.event != "evidence_found" && e.event != "agent_thought"
    ensures EvidenceOf([e]) == [] && ThoughtsOf([e]) == []
  {
    assert [e][..0] == [];
  }

  /** The same for everything a run publishes: the last events carry neither. */
  lemma RunEventsRebuildState(s: IncidentState, stream: seq<Workflow.NodeUpdate>, ending: Ending)
    ensures var final := FinalState(Shadow(s, stream), ending);
            && final.evidence == s.evidence + EvidenceOf(RunEvents(s, stream, ending))
            && final.timeline == s.timeline + ThoughtsOf(RunEvents(s, stream, ending))
  {
    EventsRebuildShadow(s, stream);
    FinalEventsRead(Shadow(s, stream), ending);
    ReadBetween(StreamEvents(s, stream), FinalEvents(Shadow(s, stream), ending));
  }

  lemma ReadBetween(mid: seq<Event>, last: seq<Event>)
    requires EvidenceOf(last) == [] && ThoughtsOf(last) == []
    ensures EvidenceOf([TRIAGE] + mid + last) == EvidenceOf(mid)
    ensures ThoughtsOf([TRIAGE] + mid + last) == ThoughtsOf(mid)
  {
    EvidenceOfConcat([TRIAGE], mid);
    EvidenceOfConcat([TRIAGE] + mid, last);
    ThoughtsOfConcat([TRIAGE], mid);
    ThoughtsOfConcat([TRIAGE] + mid, last);
    OtherEventRead(TRIAGE);
  }

  // The events, one by one

  /** The evidence of a node, its thoughts, then the stage after the merge, each with its name and payload. */
  lemma NodeEventsMeaning(merged: IncidentState, nu: Workflow.NodeUpdate)
    ensures var events, evidence, thoughts := NodeEvents(merged, nu), nu.update.evidence, nu.update.timeline;
            var n, m := |evidence|, |thoughts|;
            && |events| == n + m + 1
            && (forall i :: 0 <= i < n ==> events[i] == Record("evidence_found", EvidencePayload(evidence[i])))
            && (forall i :: 0 <= i < m ==> events[n + i] == Record("agent_thought", ThoughtPayload(thoughts[i])))
            && events[n + m] == Record("stage_change", StagePayload(merged.currentStage, Some(nu.node)))
  {
    var es, ts := EvidenceEvents(nu.update.evidence), ThoughtEvents(nu.update.timeline);
    assert forall i :: 0 <= i < |ts| ==> NodeEvents(merged, nu)[|es| + i] == ts[i];
  }

  /** A run that raises fails the incident with its error; one that ends resolved says so first. */
  lemma EndingMeaning(s: IncidentState, ending: Ending)
    ensures var resolved := s.currentStage == Resolved && !ending.EngineRaised?;
            var raised := ending.EngineRaised? || (ending.ReportRaised? && s.currentStage == Resolved);
            && FinalEvents(s, ending) ==
                 (if resolved then [Record("resolved", StatusPayload(s.incidentId))] else []) +
                 (if raised then [Record("failed", ErrorPayload(ending.error))] else [])
            && FinalState(s, ending) ==
                 if raised then s.(currentStage := Failed, errors := s.errors + [ending.error]) else s
  {
  }

  /** The stages and nodes that a reader of the `stage_change` events is told. */
  function StagesOf(events: seq<Event>): seq<(Stage, Option<Workflow.Node>)> {
    if events == [] then [] else
      var last := events[|events| - 1];
      StagesOf(events[..|events| - 1]) + if last.event == "stage_change" && last.data.StagePayload? then
          [(last.data.stage, last.data.node)] else []
  }

  lemma {:induction false} StagesOfConcat(a: seq<Event>, b: seq<Event>)
    ensures StagesOf(a + b) == StagesOf(a) + StagesOf(b)
  {
    if b == [] {
      assert a + b == a;
    } else {
      assert (a + b)[..|a + b| - 1] == a + b[..|b| - 1];
      StagesOfConcat(a, b[..|b| - 1]);
    }
  }

  lemma {:induction false} NoStages(events: seq<Event>)
    requires forall i :: 0 <= i < |events| ==> events[i].event != "stage_change"
    ensures StagesOf(events) == []
  {
    if events != [] {
      NoStages(events[..|events| - 1]);
    }
  }

  lemma StagesOfOne(stage: Stage, node: Option<Workflow.Node>)
    ensures StagesOf([Record("stage_change", StagePayload(stage, node))]) == [(stage, node)]
  {
    var e: Event := Record("stage_change", StagePayload(stage, node));
    assert [e][..0] == [];
  }

  lemma StagesOfNode(merged: IncidentState, nu: Workflow.NodeUpdate)
    ensures StagesOf(NodeEvents(merged, nu)) == [(merged.currentStage, Some(nu.node))]
  {
    hide StagesOf;
    NodeEventsMeaning(merged, nu);
    var events := NodeEvents(merged, nu);
    var n := |events| - 1;
    assert events == events[..n] + [events[n]];
    NoStages(events[..n]);
    StagesOfConcat(events[..n], [events[n]]);
    StagesOfOne(merged.currentStage, Some(nu.node));
  }

  /** The stage of the shadow after each of the streamed updates, with the node that wrote it. */
  function StagesAfter(s: IncidentState, stream: seq<Workflow.NodeUpdate>)
    : (r: seq<(Stage, Option<Workflow.Node>)>)
    ensures |r| == |stream|
  {
    seq(|stream|, i requires 0 <= i < |stream| => (Shadow(s, stream[..i + 1]).currentStage, Some(stream[i].node)))
  }

  lemma {:induction false} StagesOfStream(s: IncidentState, stream: seq<Workflow.NodeUpdate>)
    ensures StagesOf(StreamEvents(s, stream)) == StagesAfter(s, stream)
  {
    hide StagesOf;
    hide NodeEvents;
    if stream == [] {
      NoStages([]);
    } else {
      var n := |stream| - 1;
      StagesOfStream(s, stream[..n]);
      StagesOfNode(Shadow(s, stream), stream[n]);
      StagesOfConcat(StreamEvents(s, stream[..n]), NodeEvents(Shadow(s, stream), stream[n]));
      assert stream[..n + 1] == stream;
      forall i | 0 <= i < n ensures StagesAfter(s, stream[..n])[i] == StagesAfter(s, stream)[i] {
        assert stream[..n][..i + 1] == stream[..i + 1];
      }
    }
  }

  /**
   * A reader of a run's events is told PLANNING first, and then the stage of
   * the shadow after each node together with the node, in order.
   */
  lemma StagesOfRun(s: IncidentState, stream: seq<Workflow.NodeUpdate>, ending: Ending)
    ensures var stages := StagesOf(RunEvents(s, stream, ending));
            && |stages| == 1 + |stream|
            && stages[0] == (Planning, None)
            && forall i :: 0 <= i < |stream| ==>
                 stages[1 + i] == (Shadow(s, stream[..i + 1]).currentStage, Some(stream[i].node))
  {
    hide StagesOf;
    hide StreamEvents;
    hide Shadow;
    var mid, last := StreamEvents(s, stream), FinalEvents(Shadow(s, stream), ending);
    StagesOfOne(Planning, None);
    StagesOfStream(s, stream);
    NoStages(last);
    StagesOfConcat([TRIAGE], mid);
    StagesOfConcat([TRIAGE] + mid, last);
  }

  // Terminal events

  lemma {:induction false} StreamEventsNotTerminal(s: IncidentState, stream: seq<Workflow.NodeUpdate>, i: nat)
    requires i < |StreamEvents(s, stream)|
    ensures !Terminal(StreamEvents(s, stream)[i])
  {
    var n := |stream| - 1;
    var front := StreamEvents(s, stream[..n]);
    if i < |front| {
      StreamEventsNotTerminal(s, stream[..n], i);
    } else {
      var es := EvidenceEvents(stream[n].update.evidence);
      var ts := ThoughtEvents(stream[n].update.timeline);
      var events := NodeEvents(Shadow(s, stream), stream[n]);
      assert StreamEvents(s, stream)[i] == events[i - |front|];
    }
  }

  /**
   * A run publishes a terminal event exactly when it ends resolved or raises: a
   * run that completes in any other stage leaves its subscribers waiting.
   */
  lemma TerminalEventPublished(s: IncidentState, stream: seq<Workflow.NodeUpdate>, ending: Ending)
    ensures (exists i :: 0 <= i < |RunEvents(s, stream, ending)| && Terminal(RunEvents(s, stream, ending)[i]))
              <==> ending.EngineRaised? || Shadow(s, stream).currentStage == Resolved
  {
    var events, mid, last := RunEvents(s, stream, ending), StreamEvents(s, stream),
        FinalEvents(Shadow(s, stream), ending);
    if i :| 0 <= i < |events| && Terminal(events[i]) {
      if 1 <= i < 1 + |mid| {
        StreamEventsNotTerminal(s, stream, i - 1);
      }
      assert last != [];
    }
    if last != [] {
      assert events[1 + |mid|] == last[0];
    }
  }

  /** The first terminal event, at which subscribers stop. */
  function FirstTerminal(events: seq<Event>): Option<Event> {
    var i := FirstIndex(events, (e: Event) => Terminal(e));
    if i < |events| then Some(events[i]) else None
  }

  lemma FirstTerminalOfRun(s: IncidentState, stream: seq<Workflow.NodeUpdate>, ending: Ending)
    ensures var last := FinalEvents(Shadow(s, stream), ending);
            FirstTerminal(RunEvents(s, stream, ending)) == if last == [] then None else Some(last[0])
  {
    var events, mid, last := RunEvents(s, stream, ending), StreamEvents(s, stream),
        FinalEvents(Shadow(s, stream), ending);
    forall i | 0 <= i < 1 + |mid| ensures !Terminal(events[i]) {
      if i > 0 {
        StreamEventsNotTerminal(s, stream, i - 1);
        assert events[i] == mid[i - 1];
      }
    }
    if last != [] {
      assert events[1 + |mid|] == last[0] && Terminal(last[0]);
    }
  }

  /**
   * The terminal event a subscriber stops at tells whether the incident is
   * resolved in the end, except exactly when the report of a resolved incident
   * raises: then it says resolved while the incident has FAILED.
   */
  lemma TerminalEventTellsStage(s: IncidentState, stream: seq<Workflow.NodeUpdate>, ending: Ending)
    requires ending.EngineRaised? || Shadow(s, stream).currentStage == Resolved
    ensures FirstTerminal(RunEvents(s, stream, ending)).Some?
    ensures var saysResolved := FirstTerminal(RunEvents(s, stream, ending)).value.event == "resolved";
            (saysResolved <==> FinalState(Shadow(s, stream), ending).currentStage == Resolved)
              <==> !(ending.ReportRaised? && Shadow(s, stream).currentStage == Resolved)
  {
    FirstTerminalOfRun(s, stream, ending);
  }

  // The shadow and the graph

  lemma {:induction false} MergeAllSnoc(s: IncidentState, us: seq<Update>, u: Update)
    ensures MergeAll(s, us + [u]) == Merge(MergeAll(s, us), u)
    decreases |us|
  {
    if us == [] {
      assert us + [u] == [u] && [u][1..] == [];
      assert MergeAll(Merge(s, u), []) == Merge(s, u);
    } else {
      assert (us + [u])[1..] == us[1..] + [u];
      MergeAllSnoc(Merge(s, us[0]), us[1..], u);
    }
  }

  lemma {:induction false} ShadowIsMerge(s: IncidentState, stream: seq<Workflow.NodeUpdate>)
    ensures Shadow(s, stream) == MergeAll(s, Workflow.Updates(stream))
  {
    if stream != [] {
      var n := |stream| - 1;
      ShadowIsMerge(s, stream[..n]);
      MergeAllSnoc(s, Workflow.Updates(stream[..n]), stream[n].update);
      assert Workflow.Updates(stream) == Workflow.Updates(stream[..n]) + [stream[n].update];
    }
  }

  lemma UpdatesConcat(a: seq<Workflow.NodeUpdate>, b: seq<Workflow.NodeUpdate>)
    ensures Workflow.Updates(a + b) == Workflow.Updates(a) + Workflow.Updates(b)
  {
  }

  lemma {:induction false} UpdatesPermuted(us: seq<Workflow.NodeUpdate>, stream: seq<Workflow.NodeUpdate>)
    requires multiset(us) == multiset(stream)
    ensures multiset(Workflow.Updates(us)) == multiset(Workflow.Updates(stream))
    decreases |us|
  {
    if us == [] {
      assert |multiset(stream)| == |stream|;
      assert stream == us;
    } else {
      var j := FirstInPermutation(us, stream);
      var before, after := stream[..j], stream[j + 1..];
      UpdatesPermuted(us[1..], before + after);
      assert us == [us[0]] + us[1..];
      UpdatesConcat([us[0]], us[1..]);
      UpdatesConcat(before, after);
      UpdatesConcat(before, [us[0]]);
      UpdatesConcat(before + [us[0]], after);
    }
  }

  /** The nodes of a superstep finish in some order; between their updates approvals may be submitted. */
  datatype ShadowOp = Node(update: Workflow.NodeUpdate) | Submission(approvalId: string, request: Approvals.Request)

  function AfterShadowOps(s: IncidentState, ops: seq<ShadowOp>): IncidentState {
    if ops == [] then s else
      var before := AfterShadowOps(s, ops[..|ops| - 1]);
      match ops[|ops| - 1]
      case Node(nu) => Merge(before, nu.update)
      case Submission(id, r) => Approvals.AfterSubmit(before, id, r)
  }

  function NodesOf(ops: seq<ShadowOp>): seq<Workflow.NodeUpdate> {
    if ops == [] then [] else
      var last := ops[|ops| - 1];
      NodesOf(ops[..|ops| - 1]) + if last.Node? then [last.update] else []
  }

  lemma {:induction false} SubmissionsInvisible(s: IncidentState, ops: seq<ShadowOp>)
    ensures Similar(Shadow(s, NodesOf(ops)), AfterShadowOps(s, ops))
  {
    if ops != [] {
      var n := |ops| - 1;
      SubmissionsInvisible(s, ops[..n]);
      var a, b := Shadow(s, NodesOf(ops[..n])), AfterShadowOps(s, ops[..n]);
      match ops[n]
      case Node(nu) =>
        MergeSimilar(a, b, nu.update);
        assert NodesOf(ops)[..|NodesOf(ops)| - 1] == NodesOf(ops[..n]);
      case Submission(id, r) =>
        assert NodesOf(ops) == NodesOf(ops[..n]);
    }
  }

  function Nodes(us: seq<Workflow.NodeUpdate>): (r: seq<ShadowOp>)
    ensures |r| == |us|
  {
    seq(|us|, i requires 0 <= i < |us| => Node(us[i]))
  }

  lemma {:induction false} AfterNodes(s: IncidentState, ops: seq<ShadowOp>, us: seq<Workflow.NodeUpdate>)
    ensures AfterShadowOps(s, ops + Nodes(us)) == Shadow(AfterShadowOps(s, ops), us)
  {
    if us == [] {
      assert ops + Nodes(us) == ops;
    } else {
      var n := |us| - 1;
      assert (ops + Nodes(us))[..|ops| + n] == ops + Nodes(us[..n]);
      AfterNodes(s, ops, us[..n]);
    }
  }

  lemma {:induction false} ShadowConcat(s: IncidentState, a: seq<Workflow.NodeUpdate>, b: seq<Workflow.NodeUpdate>)
    ensures Shadow(s, a + b) == Shadow(Shadow(s, a), b)
  {
    if b == [] {
      assert a + b == a;
    } else {
      assert (a + b)[..|a + b| - 1] == a + b[..|b| - 1];
      ShadowConcat(s, a, b[..|b| - 1]);
    }
  }

  lemma ShadowOfSuperstep(env: Workflow.Env, c: Workflow.Config, a: Workflow.Answer)
    ensures Workflow.Step(env, c, a).state ==
            match Workflow.NodeOutputs(env, c, a)
            case Written(us, _) => Shadow(c.state, us)
            case Raised(_) => c.state
  {
    Workflow.NoWriteConflict(env, c, a);
    hide Workflow.NodeOutputs;
    hide AllCompatible;
    match Workflow.NodeOutputs(env, c, a)
    case Written(us, _) => ShadowIsMerge(c.state, us);
    case Raised(_) =>
  }

  /** The service's operations during the superstep that starts in `c`, in any order of completion. */
  ghost predicate StreamsSuperstep(env: Workflow.Env, c: Workflow.Config, a: Workflow.Answer, ops: seq<ShadowOp>) {
    match Workflow.NodeOutputs(env, c, a)
    case Written(us, _) => multiset(NodesOf(ops)) == multiset(us)
    case Raised(_) => NodesOf(ops) == []
  }

  lemma SuperstepKeepsShadow(env: Workflow.Env, c: Workflow.Config, a: Workflow.Answer, shadow: IncidentState,
          ops: seq<ShadowOp>)
    requires Similar(c.state, shadow) && StreamsSuperstep(env, c, a, ops)
    ensures Similar(Workflow.Step(env, c, a).state, AfterShadowOps(shadow, ops))
  {
    SubmissionsInvisible(shadow, ops);
    var stream := NodesOf(ops);
    ShadowIsMerge(shadow, stream);
    match Workflow.NodeOutputs(env, c, a)
    case Written(us, _) =>
      Workflow.NoWriteConflict(env, c, a);
      UpdatesPermuted(us, stream);
      OrderIndependent(c.state, shadow, Workflow.Updates(us), Workflow.Updates(stream));
      SimilarTransitive(MergeAll(c.state, Workflow.Updates(us)), Shadow(shadow, stream), AfterShadowOps(shadow, ops));
    case Raised(_) =>
      SimilarTransitive(c.state, shadow, AfterShadowOps(shadow, ops));
  }

  lemma SimilarToItself(s: IncidentState)
    ensures Similar(s, s)
  {
  }

  /** The service's operations over a whole run, one list for each superstep. */
  function AfterSupersteps(s: IncidentState, streams: seq<seq<ShadowOp>>): IncidentState {
    if streams == [] then s
    else AfterShadowOps(AfterSupersteps(s, streams[..|streams| - 1]), streams[|streams| - 1])
  }

  /**
   * At the end of every superstep of every run, whatever order nodes finished
   * in and whatever was submitted meanwhile, the shadow equals the graph's
   * state in every overwritten field and has the same evidence and timeline up
   * to order.
   */
  lemma {:induction false} ShadowFollowsGraph(env: Workflow.Env, s: IncidentState, runner: ExecutionRunner.RunnerState,
          answers: seq<Workflow.Answer>, streams: seq<seq<ShadowOp>>)
    requires |streams| == |answers|
    requires forall i :: 0 <= i < |answers| ==>
               StreamsSuperstep(env, Workflow.Run(env, s, runner, answers[..i]), answers[i], streams[i])
    ensures Similar(Workflow.Run(env, s, runner, answers).state, AfterSupersteps(s, streams))
  {
    hide Workflow.Step;
    hide StreamsSuperstep;
    hide AfterShadowOps;
    hide Similar;
    if answers == [] {
      SimilarToItself(s);
    } else {
      var n := |answers| - 1;
      forall i | 0 <= i < n
        ensures StreamsSuperstep(env, Workflow.Run(env, s, runner, answers[..n][..i]), answers[..n][i], streams[..n][i])
      {
        assert answers[..n][..i] == answers[..i];
      }
      ShadowFollowsGraph(env, s, runner, answers[..n], streams[..n]);
      SuperstepKeepsShadow(env, Workflow.Run(env, s, runner, answers[..n]), answers[n],
          AfterSupersteps(s, streams[..n]), streams[n]);
    }
  }

  // A subscriber

  /** The published events other than approval decisions, which come from submissions. */
  function RunPart(events: seq<Event>): seq<Event> {
    if events == [] then [] else
      var last := events[|events| - 1];
      RunPart(events[..|events| - 1]) + if last.event == "approval_decision" then [] else [last]
  }

  lemma {:induction false} RunPartReads(events: seq<Event>)
    ensures EvidenceOf(RunPart(events)) == EvidenceOf(events)
    ensures ThoughtsOf(RunPart(events)) == ThoughtsOf(events)
  {
    if events != [] {
      var n := |events| - 1;
      RunPartReads(events[..n]);
      var last := if events[n].event == "approval_decision" then [] else [events[n]];
      EvidenceOfConcat(RunPart(events[..n]), last);
      ThoughtsOfConcat(RunPart(events[..n]), last);
      if last != [] {
        assert last[..0] == [];
      }
    }
  }

  /** Neither evidence nor thoughts are among these events. */
  predicate Quiet(events: seq<Event>) {
    forall e :: e in events ==> e.event != "evidence_found" && e.event != "agent_thought"
  }

  lemma {:induction false} QuietRead(events: seq<Event>)
    requires Quiet(events)
    ensures EvidenceOf(events) == [] && ThoughtsOf(events) == []
  {
    if events != [] {
      assert events[|events| - 1] in events;
      forall e | e in events[..|events| - 1] ensures e in events {
      }
      QuietRead(events[..|events| - 1]);
    }
  }

  /** A subscriber that missed nothing and has nothing of interest queued has read what its incident's log says. */
  lemma DrainedReads(size: int, trace: seq<Step<Payload>>, i: nat)
    requires i < |Run(size, trace).clients|
    requires var c := Run(size, trace).clients[i]; c.phase != Closed && Quiet(c.queue)
    requires i < |Subscriptions(trace)| && Start(size, trace, i) == 0
    ensures var c := Run(size, trace).clients[i];
            && EvidenceOf(Delivered(c.output)) == EvidenceOf(Published(trace, c.incident))
            && ThoughtsOf(Delivered(c.output)) == ThoughtsOf(Published(trace, c.incident))
  {
    hide Run;
    hide EvidenceOf;
    hide ThoughtsOf;
    Delivery(size, trace, i);
    var c := Run(size, trace).clients[i];
    EvidenceOfConcat(Delivered(c.output), c.queue);
    ThoughtsOfConcat(Delivered(c.output), c.queue);
    QuietRead(c.queue);
  }

  /**
   * In every interleaving of the service with subscribers, with other incidents
   * and with approvals: a subscriber that came before the buffer overflowed, is
   * not closed and has no evidence or thought left in its queue has been given
   * exactly the evidence and the timeline that the service's state has gained
   * so far.
   */
  lemma DrainedSubscriberHoldsState(size: int, trace: seq<Step<Payload>>, i: nat, s: IncidentState,
          stream: seq<Workflow.NodeUpdate>)
    requires i < |Run(size, trace).clients|
    requires var c := Run(size, trace).clients[i];
             && c.phase != Closed && Quiet(c.queue)
             && RunPart(Published(trace, c.incident)) == [TRIAGE] + StreamEvents(s, stream)
    requires i < |Subscriptions(trace)| && Start(size, trace, i) == 0
    ensures var got := Delivered(Run(size, trace).clients[i].output);
            && Shadow(s, stream).evidence == s.evidence + EvidenceOf(got)
            && Shadow(s, stream).timeline == s.timeline + ThoughtsOf(got)
  {
    hide Run;
    DrainedReads(size, trace, i);
    LogRebuildsShadow(Published(trace, Run(size, trace).clients[i].incident), s, stream);
  }

  /** The same once the run is over and its last events have been published too. */
  lemma DrainedSubscriberHoldsFinalState(size: int, trace: seq<Step<Payload>>, i: nat, s: IncidentState,
          stream: seq<Workflow.NodeUpdate>, ending: Ending)
    requires i < |Run(size, trace).clients|
    requires i < |Subscriptions(trace)| && Start(size, trace, i) == 0
    ensures var c := Run(size, trace).clients[i];
            var got := Delivered(c.output);
            var final := FinalState(Shadow(s, stream), ending);
            c.phase != Closed && Quiet(c.queue) && RunPart(Published(trace, c.incident)) == RunEvents(s, stream, ending)
            ==>
              && final.evidence == s.evidence + EvidenceOf(got)
              && final.timeline == s.timeline + ThoughtsOf(got)
  {
    hide Run;
    hide FinalState;
    hide RunEvents;
    hide Quiet;
    var c := Run(size, trace).clients[i];
    if c.phase != Closed && Quiet(c.queue) && RunPart(Published(trace, c.incident)) == RunEvents(s, stream, ending) {
      DrainedReads(size, trace, i);
      RunPartReads(Published(trace, c.incident));
      RunEventsRebuildState(s, stream, ending);
    }
  }

  lemma LogRebuildsShadow(log: seq<Event>, s: IncidentState, stream: seq<Workflow.NodeUpdate>)
    requires RunPart(log) == [TRIAGE] + StreamEvents(s, stream)
    ensures Shadow(s, stream).evidence == s.evidence + EvidenceOf(log)
    ensures Shadow(s, stream).timeline == s.timeline + ThoughtsOf(log)
  {
    hide RunPart;
    hide EvidenceOf;
    hide ThoughtsOf;
    hide Shadow;
    hide StreamEvents;
    RunPartReads(log);
    EventsRebuildShadow(s, stream);
    EvidenceOfConcat([TRIAGE], StreamEvents(s, stream));
    ThoughtsOfConcat([TRIAGE], StreamEvents(s, stream));
    OtherEventRead(TRIAGE);
  }
}
