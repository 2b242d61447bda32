/**
 * Assessment and guard together: which work the guard of the runner skips, in
 * terms of incidents, action types, targets and parameters instead of keys.
 */
module GuardedActions {
  import opened Json
  import opened JsonOrder
  import opened Domain
  import opened IdempotencyKey
  import opened RiskPolicy
  import opened ExecutionRunner

  /** An action assessed for an incident and handed to the runner, to be executed or rolled back. */
  datatype Request = Request(action: RemediationAction, incident: string, rollback: bool, role: string,
      outcome: ToolOutcome)

  /** Different texts have different hashes, and no hash is empty. */
  ghost predicate CollisionFree(hash: string -> string) {
    && (forall s, t :: hash(s) == hash(t) ==> s == t)
    && forall s :: hash(s) != ""
  }

  /** Incident ids are hexadecimal and parameters are Python dictionaries. */
  ghost predicate Proper(action: RemediationAction, incident: string) {
    ColonFree(incident) && WellFormed(Obj(action.parameters))
  }

  /** The same type of action on the same target with the same parameters, in any key order, for the same incident. */
  ghost predicate SameWork(a: RemediationAction, i: string, b: RemediationAction, j: string) {
    && i == j && a.actionType == b.actionType && a.targetService == b.targetService
    && Meaning(Obj(a.parameters)) == Meaning(Obj(b.parameters))
  }

  function CallOf(e: Engine, r: Request): Call {
    var assessed := Assess(e, r.action, r.incident);
    if r.rollback then DoRollback(assessed, r.role, r.outcome) else DoExecute(assessed, r.role, r.outcome)
  }

  function Handle(e: Engine, registry: Registry, requests: seq<Request>): RunnerState {
    if requests == [] then RunnerState({}, [])
    else AfterCall(Handle(e, registry, requests[..|requests| - 1]), registry, CallOf(e, requests[|requests| - 1]))
  }

  /** The tool that the request asks for is within reach of the role, accepts the parameters and succeeds. */
  predicate Succeeds(registry: Registry, r: Request) {
    && r.outcome.ToolSuccess?
    && Invocable(registry, r.action.actionType, r.role)
    && (r.rollback ==> CompensatesInKind(r.action))
    && Unpacks(if r.rollback then CompensationParameters(r.action) else Obj(r.action.parameters))
  }

  /** Some request for the same work has succeeded. */
  ghost predicate DoneBefore(registry: Registry, requests: seq<Request>, a: RemediationAction, i: string) {
    exists k :: 0 <= k < |requests| && Succeeds(registry, requests[k])
                && SameWork(a, i, requests[k].action, requests[k].incident)
  }

  lemma DoneLast(registry: Registry, requests: seq<Request>, a: RemediationAction, i: string)
    requires requests != []
    ensures var n := |requests| - 1;
            DoneBefore(registry, requests, a, i) <==>
              || DoneBefore(registry, requests[..n], a, i)
              || (Succeeds(registry, requests[n]) && SameWork(a, i, requests[n].action, requests[n].incident))
  {
  }

  lemma TypeNames(a: ActionType, b: ActionType)
    ensures ColonFree(TypeName(a))
    ensures TypeName(a) == TypeName(b) ==> a == b
  {
  }

  /** Assessed actions share a key exactly when they are the same work. */
  lemma KeyIsWork(e: Engine, a: RemediationAction, i: string, b: RemediationAction, j: string)
    requires CollisionFree(e.hash) && Proper(a, i) && Proper(b, j)
    ensures Assess(e, a, i).idempotencyKey == Assess(e, b, j).idempotencyKey <==> SameWork(a, i, b, j)
  {
    TypeNames(a.actionType, b.actionType);
    TypeNames(b.actionType, a.actionType);
    KeyDeterminesAction(i, TypeName(a.actionType), a.targetService, Obj(a.parameters),
                        j, TypeName(b.actionType), b.targetService, Obj(b.parameters));
  }

  /** A call records the key of its action when the tool runs and succeeds, and nothing else. */
  lemma RequestRecords(e: Engine, registry: Registry, st: RunnerState, r: Request)
    requires Assess(e, r.action, r.incident).idempotencyKey != ""
    ensures AfterCall(st, registry, CallOf(e, r)).executed ==
            st.executed + if Succeeds(registry, r) then {Assess(e, r.action, r.incident).idempotencyKey} else {}
  {
  }

  /**
   * Over every history of executions and rollbacks, a key is recorded exactly
   * when some request for the same work has succeeded.
   */
  lemma {:induction false} RecordedWork(e: Engine, registry: Registry, requests: seq<Request>, a: RemediationAction,
          i: string)
    requires CollisionFree(e.hash) && Proper(a, i)
    requires forall k :: 0 <= k < |requests| ==> Proper(requests[k].action, requests[k].incident)
    ensures Assess(e, a, i).idempotencyKey in Handle(e, registry, requests).executed <==>
        DoneBefore(registry, requests, a, i)
  {
    hide AfterCall;
    hide CallOf;
    hide Assess;
    hide DoneBefore;
    hide CollisionFree;
    hide Proper;
    if requests == [] {
      NothingDone(registry, a, i);
    } else {
      var n := |requests| - 1;
      var r := requests[n];
      RecordedWork(e, registry, requests[..n], a, i);
      KeyNotEmpty(e, r.action, r.incident);
      RequestRecords(e, registry, Handle(e, registry, requests[..n]), r);
      KeyIsWork(e, a, i, r.action, r.incident);
      DoneLast(registry, requests, a, i);
    }
  }

  lemma NothingDone(registry: Registry, a: RemediationAction, i: string)
    ensures !DoneBefore(registry, [], a, i)
  {
  }

  lemma KeyNotEmpty(e: Engine, a: RemediationAction, i: string)
    requires CollisionFree(e.hash)
    ensures Assess(e, a, i).idempotencyKey != ""
  {
  }

  /**
   * The next execution of an assessed action reports success without running a
   * tool exactly when an earlier request for the same work has succeeded. That
   * request may have been a rollback: its copy keeps the key, so a successful
   * compensation of a rollback or configuration change also blocks the action.
   */
  lemma SkippedExactly(e: Engine, registry: Registry, requests: seq<Request>, next: Request)
    requires CollisionFree(e.hash) && !next.rollback && Proper(next.action, next.incident)
    requires forall k :: 0 <= k < |requests| ==> Proper(requests[k].action, requests[k].incident)
    ensures var st := Handle(e, registry, requests);
            var a := Assess(e, next.action, next.incident);
            var (st', reply) := Execute(st, registry, a, Obj(a.parameters), next.role, next.outcome);
            (st'.dispatches == st.dispatches && reply.Reply? && reply.result.status == Succeeded) <==>
              DoneBefore(registry, requests, next.action, next.incident)
  {
    RecordedWork(e, registry, requests, next.action, next.incident);
    KeyNotEmpty(e, next.action, next.incident);
    hide Assess;
    hide DoneBefore;
    hide CollisionFree;
    var st := Handle(e, registry, requests);
    SkipsRecorded(st, registry, Assess(e, next.action, next.incident), next.role, next.outcome);
  }

  lemma SkipsRecorded(st: RunnerState, registry: Registry, a: RemediationAction, role: string, outcome: ToolOutcome)
    requires a.idempotencyKey != ""
    ensures var (st', reply) := Execute(st, registry, a, Obj(a.parameters), role, outcome);
            (st'.dispatches == st.dispatches && reply.Reply? && reply.result.status == Succeeded) <==>
                a.idempotencyKey in st.executed
  {
  }

  // An action that fails, whose compensation succeeds

  const CHANGE := RemediationAction("ACT-1", RollbackDeployment, "payment-service", [], High, 800, true, "")

  const ENGINE := Engine([], parameters => false, text => "key:" + text, false)

  const OPERATORS: Registry := map[RollbackDeployment := "OPERATOR"]

  const FAILED_AND_COMPENSATED: seq<Request> := [
    Request(CHANGE, "inc-1", false, "OPERATOR", ToolFailure("timeout")),
    Request(CHANGE, "inc-1", true, "OPERATOR", ToolSuccess("redeployed"))]

  /** The action never ran with success, yet its next execution reports success without running a tool. */
  lemma CompensationBlocksAction(outcome: ToolOutcome)
    ensures var a := Assess(ENGINE, CHANGE, "inc-1");
            var st := Handle(ENGINE, OPERATORS, FAILED_AND_COMPENSATED);
            var (st', reply) := Execute(st, OPERATORS, a, Obj(a.parameters), "OPERATOR", outcome);
            && !Succeeds(OPERATORS, FAILED_AND_COMPENSATED[0])
            && FAILED_AND_COMPENSATED[1].rollback
            && st'.dispatches == st.dispatches && reply.Reply? && reply.result.status == Succeeded
  {
    hide Handle;
    hide Assess;
    var next := Request(CHANGE, "inc-1", false, "OPERATOR", outcome);
    OperatorMayInvoke(RollbackDeployment);
    RollbackUnpacks(CHANGE);
    assert Succeeds(OPERATORS, FAILED_AND_COMPENSATED[1]);
    PrefixedTextsDiffer();
    SkippedExactly(ENGINE, OPERATORS, FAILED_AND_COMPENSATED, next);
  }

  lemma PrefixedTextsDiffer()
    ensures CollisionFree(ENGINE.hash)
  {
    forall s, t ensures ENGINE.hash(s) == ENGINE.hash(t) ==> s == t {
      assert ENGINE.hash(s)[4..] == s && ENGINE.hash(t)[4..] == t;
    }
  }
}
