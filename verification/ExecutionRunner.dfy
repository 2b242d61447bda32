/**
 * Dispatching remediation tools behind the idempotency guard, and the
 * compensation that follows a failed verification.
 */
module ExecutionRunner {
  import opened Wrappers
  import opened Text
  import opened Json
  import opened Domain

  /** The role each registered tool requires. */
  type Registry = map<ActionType, string>

  datatype ToolOutcome = ToolSuccess(message: string) | ToolFailure(error: string)

  /** One invocation of a tool; it has no outcome while the tool is running. */
  datatype Dispatch = Dispatch(tool: ActionType, key: string, arguments: map<string, Json>,
      outcome: Option<ToolOutcome>)

  datatype RunnerState = RunnerState(executed: set<string>, dispatches: seq<Dispatch>)

  /** A call returns a result or raises, when its parameters cannot be unpacked into the tool's call. */
  datatype Reply = Reply(result: ExecutionResult) | TypeError

  const SKIPPED := "Skipped: action was already executed idempotently."

  function RoleWeight(role: string): nat {
    var r := Upper(role);
    if r == "VIEWER" then 1 else if r == "OPERATOR" then 2 else if r == "ADMIN" then 3 else 0
  }

  function RequiredWeight(role: string): nat {
    if RoleWeight(role) == 0 then 99 else RoleWeight(role)
  }

  /** Whether a tool of this type may be invoked by this role at all. */
  predicate Invocable(registry: Registry, t: ActionType, role: string) {
    t in registry && RoleWeight(role) >= RequiredWeight(registry[t])
  }

  function FieldMap(fields: seq<Field>): map<string, Json> {
    if fields == [] then map[] else
      FieldMap(fields[..|fields| - 1])[fields[|fields| - 1].key := fields[|fields| - 1].value]
  }

  /** `{"target_service": action.target_service, **parameters}` */
  function Arguments(action: RemediationAction, parameters: seq<Field>): map<string, Json> {
    map["target_service" := Str(action.targetService)] + FieldMap(parameters)
  }

  /** `parameters.get(key, default)` */
  function GetParameter(parameters: seq<Field>, key: string, default: Json): Json {
    if key in FieldMap(parameters) then FieldMap(parameters)[key] else default
  }

  /**
   * `tool.execute(**arguments)` binds the parameters: they have to be a mapping,
   * and one named `self` collides with the method's own receiver.
   */
  predicate Unpacks(parameters: Json) {
    parameters.Obj? && "self" !in FieldMap(parameters.fields)
  }

  // One execution has two halves, with the tool running in between.

  datatype Begun = Running(index: nat) | Answered(reply: Reply)

  /** The guard, the lookup of the tool, the role check and the start of the tool. */
  function Begin(st: RunnerState, registry: Registry, action: RemediationAction, parameters: Json, role: string)
    : (RunnerState, Begun)
  {
    if action.idempotencyKey != "" && action.idempotencyKey in st.executed then
      (st, Answered(Reply(ExecutionResult(action.actionId, Succeeded, SKIPPED))))
    else if action.actionType !in registry then
      (st, Answered(Reply(ExecutionResult(action.actionId, ExecutionFailed, ""))))
    else if !parameters.Obj? then
      (st, Answered(TypeError))
    else if RoleWeight(role) < RequiredWeight(registry[action.actionType]) then
      (st, Answered(Reply(ExecutionResult(action.actionId, ExecutionFailed, ""))))
    else if !Unpacks(parameters) then
      (st, Answered(TypeError))
    else
      var d := Dispatch(action.actionType, action.idempotencyKey, Arguments(action, parameters.fields), None);
      (st.(dispatches := st.dispatches + [d]), Running(|st.dispatches|))
  }

  /** The tool's answer arrives: a success under a key is recorded. */
  function Finish(st: RunnerState, index: nat, outcome: ToolOutcome): RunnerState
    requires index < |st.dispatches|
  {
    var d := st.dispatches[index];
    RunnerState(
      if outcome.ToolSuccess? && d.key != "" then st.executed + {d.key} else st.executed,
      st.dispatches[index := d.(outcome := Some(outcome))])
  }

  function OutcomeResult(actionId: string, outcome: ToolOutcome): ExecutionResult {
    match outcome
    case ToolSuccess(message) => ExecutionResult(actionId, Succeeded, message)
    case ToolFailure(_) => ExecutionResult(actionId, ExecutionFailed, "")
  }

  /** A whole execution, when nothing else runs in between. */
  function Execute(st: RunnerState, registry: Registry, action: RemediationAction, parameters: Json, role: string,
          outcome: ToolOutcome)
    : (r: (RunnerState, Reply))
    ensures Unpacks(parameters) ==> r.1.Reply?
    ensures r.1.Reply? ==> r.1.result.actionId == action.actionId && r.1.result.status != RolledBack
  {
    match Begin(st, registry, action, parameters, role)
    case (st', Answered(reply)) => (st', reply)
    case (st', Running(i)) => (Finish(st', i, outcome), Reply(OutcomeResult(action.actionId, outcome)))
  }

  /** The parameters of the copied action that compensates for a rollback or a configuration change. */
  function CompensationParameters(action: RemediationAction): Json {
    if action.actionType == RollbackDeployment then
      Obj([Field("target_version", GetParameter(action.parameters, "previous_version", Null))])
    else
      GetParameter(action.parameters, "rollback_config", Obj([]))
  }

  /** Rollbacks and configuration changes are compensated by a copy that keeps the key. */
  predicate CompensatesInKind(action: RemediationAction) {
    action.actionType == RollbackDeployment || action.actionType == ModifyConfiguration
  }

  function RestartOf(action: RemediationAction): RemediationAction {
    RemediationAction("rb-" + action.actionId, RestartService, action.targetService, [], High, 500, true, "")
  }

  function ExecuteRollback(st: RunnerState, registry: Registry, action: RemediationAction, role: string,
          outcome: ToolOutcome)
    : (RunnerState, Reply)
  {
    if CompensatesInKind(action) then
      match Execute(st, registry, action, CompensationParameters(action), role, outcome)
      case (st', Reply(r)) => (st', Reply(r.(status := RolledBack)))
      case (st', TypeError) => (st', TypeError)
    else
      match Execute(st, registry, RestartOf(action), Obj([]), role, outcome)
      case (st', Reply(r)) =>
        (st', Reply(ExecutionResult(action.actionId, RolledBack, "Executed compensatory rollback: " + r.output)))
      case (st', TypeError) => (st', TypeError)
  }

  // The runner

  class ExecutionRunner {
    const registry: Registry
    var executed: set<string>
    ghost var dispatches: seq<Dispatch>

    ghost function State(): RunnerState
      reads this
    {
      RunnerState(executed, dispatches)
    }

    constructor (registry: Registry)
      ensures this.registry == registry && State() == RunnerState({}, [])
    {
      this.registry := registry;
      executed, dispatches := {}, [];
    }

    /** `outcome` is the tool's answer, should it be invoked. */
    method ExecuteWith(action: RemediationAction, parameters: Json, role: string, outcome: ToolOutcome)
      returns (r: Reply)
      modifies this
      ensures (State(), r) == Execute(old(State()), registry, action, parameters, role, outcome)
    {
      if action.idempotencyKey != "" && action.idempotencyKey in executed {
        return Reply(ExecutionResult(action.actionId, Succeeded, SKIPPED));
      }
      if action.actionType !in registry {
        return Reply(ExecutionResult(action.actionId, ExecutionFailed, ""));
      }
      if !parameters.Obj? {
        return TypeError;
      }
      if RoleWeight(role) < RequiredWeight(registry[action.actionType]) {
        return Reply(ExecutionResult(action.actionId, ExecutionFailed, ""));
      }
      if !Unpacks(parameters) {
        return TypeError;
      }
      ghost var d := Dispatch(action.actionType, action.idempotencyKey, Arguments(action, parameters.fields), None);
      dispatches := dispatches + [d];
      dispatches := dispatches[|dispatches| - 1 := d.(outcome := Some(outcome))];
      match outcome
      case ToolSuccess(message) =>
        if action.idempotencyKey != "" {
          executed := executed + {action.idempotencyKey};
        }
        r := Reply(ExecutionResult(action.actionId, Succeeded, message));
      case ToolFailure(_) =>
        r := Reply(ExecutionResult(action.actionId, ExecutionFailed, ""));
    }

    method ExecuteAction(action: RemediationAction, role: string, outcome: ToolOutcome) returns (r: Reply)
      modifies this
      ensures (State(), r) == Execute(old(State()), registry, action, Obj(action.parameters), role, outcome)
      ensures r.Reply? ==> r.result.actionId == action.actionId
      ensures r.TypeError? <==>
                && (action.idempotencyKey == "" || action.idempotencyKey !in old(executed))
                && Invocable(registry, action.actionType, role)
                && "self" in FieldMap(action.parameters)
    {
      r := ExecuteWith(action, Obj(action.parameters), role, outcome);
    }

    method Rollback(action: RemediationAction, role: string, outcome: ToolOutcome) returns (r: Reply)
      modifies this
      ensures (State(), r) == ExecuteRollback(old(State()), registry, action, role, outcome)
    {
      if CompensatesInKind(action) {
        r := ExecuteWith(action, CompensationParameters(action), role, outcome);
        if r.Reply? {
          r := Reply(r.result.(status := RolledBack));
        }
      } else {
        r := ExecuteWith(RestartOf(action), Obj([]), role, outcome);
        if r.Reply? {
          r := Reply(ExecutionResult(action.actionId, RolledBack,
                                     "Executed compensatory rollback: " + r.result.output));
        }
      }
    }
  }

  // Interleaved callers

  datatype Step =
    | Start(action: RemediationAction, parameters: Json, role: string)
    | Answer(index: nat, outcome: ToolOutcome)

  function Next(st: RunnerState, registry: Registry, step: Step): RunnerState {
    match step
    case Start(action, parameters, role) => Begin(st, registry, action, parameters, role).0
    case Answer(i, outcome) =>
      if i < |st.dispatches| && st.dispatches[i].outcome.None? then Finish(st, i, outcome) else st
  }

  function Run(registry: Registry, steps: seq<Step>): RunnerState {
    if steps == [] then RunnerState({}, [])
    else Next(Run(registry, steps[..|steps| - 1]), registry, steps[|steps| - 1])
  }

  predicate Success(d: Dispatch) {
    d.outcome.Some? && d.outcome.value.ToolSuccess?
  }

  /** The keys are the nonempty ones under which a tool has succeeded. */
  ghost predicate KeysExact(st: RunnerState) {
    forall k :: k in st.executed <==> k != "" && HasSuccess(st.dispatches, k)
  }

  ghost predicate HasSuccess(dispatches: seq<Dispatch>, k: string) {
    exists i :: 0 <= i < |dispatches| && dispatches[i].key == k && Success(dispatches[i])
  }

  lemma BeginKeepsKeys(st: RunnerState, registry: Registry, action: RemediationAction, parameters: Json, role: string)
    requires KeysExact(st)
    ensures KeysExact(Begin(st, registry, action, parameters, role).0)
  {
    var st' := Begin(st, registry, action, parameters, role).0;
    forall k ensures HasSuccess(st.dispatches, k) <==> HasSuccess(st'.dispatches, k) {
      if HasSuccess(st.dispatches, k) {
        var i :| 0 <= i < |st.dispatches| && st.dispatches[i].key == k && Success(st.dispatches[i]);
        assert st'.dispatches[i] == st.dispatches[i];
      }
      if HasSuccess(st'.dispatches, k) {
        var i :| 0 <= i < |st'.dispatches| && st'.dispatches[i].key == k && Success(st'.dispatches[i]);
        assert st'.dispatches[i] == st.dispatches[i];
      }
    }
  }

  lemma FinishKeepsKeys(st: RunnerState, index: nat, outcome: ToolOutcome)
    requires KeysExact(st) && index < |st.dispatches| && st.dispatches[index].outcome.None?
    ensures KeysExact(Finish(st, index, outcome))
  {
    var st' := Finish(st, index, outcome);
    var d := st'.dispatches[index];
    forall k ensures HasSuccess(st'.dispatches, k) <==> HasSuccess(st.dispatches, k) || (k == d.key && Success(d)) {
      if HasSuccess(st.dispatches, k) {
        var i :| 0 <= i < |st.dispatches| && st.dispatches[i].key == k && Success(st.dispatches[i]);
        assert st'.dispatches[i] == st.dispatches[i];
      }
      if HasSuccess(st'.dispatches, k) {
        var i :| 0 <= i < |st'.dispatches| && st'.dispatches[i].key == k && Success(st'.dispatches[i]);
        assert i != index ==> st'.dispatches[i] == st.dispatches[i];
      }
    }
  }

  /**
   * However callers interleave, the recorded keys are exactly the nonempty keys
   * with a success: failures, missing tools and refused roles record nothing.
   */
  lemma {:induction false} RecordedKeys(registry: Registry, steps: seq<Step>)
    ensures KeysExact(Run(registry, steps))
  {
    if steps != [] {
      var front, last := steps[..|steps| - 1], steps[|steps| - 1];
      RecordedKeys(registry, front);
      var st := Run(registry, front);
      match last
      case Start(action, parameters, role) => BeginKeepsKeys(st, registry, action, parameters, role);
      case Answer(i, outcome) =>
        if i < |st.dispatches| && st.dispatches[i].outcome.None? {
          FinishKeepsKeys(st, i, outcome);
        }
    }
  }

  /** No tool is started under a key once a success under it is recorded. */
  lemma NothingStartsAfterSuccess(registry: Registry, steps: seq<Step>, action: RemediationAction, parameters: Json,
          role: string)
    requires action.idempotencyKey != "" && HasSuccess(Run(registry, steps).dispatches, action.idempotencyKey)
    ensures Run(registry, steps + [Start(action, parameters, role)]) == Run(registry, steps)
  {
    RecordedKeys(registry, steps);
    assert (steps + [Start(action, parameters, role)])[..|steps|] == steps;
  }

  predicate RunningUnder(dispatches: seq<Dispatch>, k: string) {
    exists i :: 0 <= i < |dispatches| && dispatches[i].key == k && dispatches[i].outcome.None?
  }

  /** The start reaches a tool while another dispatch under its key is still running. */
  ghost predicate Overlaps(st: RunnerState, registry: Registry, step: Step, k: string) {
    && step.Start? && step.action.idempotencyKey == k
    && Begin(st, registry, step.action, step.parameters, step.role).1.Running?
    && RunningUnder(st.dispatches, k)
  }

  ghost predicate HasOverlap(registry: Registry, steps: seq<Step>, k: string) {
    exists n :: 0 <= n < |steps| && Overlaps(Run(registry, steps[..n]), registry, steps[n], k)
  }

  /** Under the key, every dispatch but the last has failed. */
  ghost predicate OnlyLastOpen(dispatches: seq<Dispatch>, k: string) {
    forall i, j :: 0 <= i < j < |dispatches| && dispatches[i].key == dispatches[j].key == k ==>
      dispatches[i].outcome.Some? && dispatches[i].outcome.value.ToolFailure?
  }

  lemma OverlapStays(registry: Registry, steps: seq<Step>, n: nat, k: string)
    requires n <= |steps|
    ensures HasOverlap(registry, steps[..n], k) ==> HasOverlap(registry, steps, k)
  {
    hide Overlaps;
    hide Run;
    var front := steps[..n];
    if HasOverlap(registry, front, k) {
      var m :| 0 <= m < n && Overlaps(Run(registry, front[..m]), registry, front[m], k);
      assert front[..m] == steps[..m] && front[m] == steps[m];
    }
  }

  lemma {:induction false} NoOverlapKeepsOrder(registry: Registry, steps: seq<Step>, k: string)
    requires k != "" && !HasOverlap(registry, steps, k)
    ensures OnlyLastOpen(Run(registry, steps).dispatches, k)
  {
    if steps != [] {
      var n := |steps| - 1;
      var front := steps[..n];
      OverlapStays(registry, steps, n, k);
      NoOverlapKeepsOrder(registry, front, k);
      RecordedKeys(registry, front);
      assert !Overlaps(Run(registry, steps[..n]), registry, steps[n], k);
      StepKeepsOrder(Run(registry, front), registry, steps[n], k);
    }
  }

  lemma StepKeepsOrder(st: RunnerState, registry: Registry, step: Step, k: string)
    requires k != "" && KeysExact(st) && OnlyLastOpen(st.dispatches, k) && !Overlaps(st, registry, step, k)
    ensures OnlyLastOpen(Next(st, registry, step).dispatches, k)
  {
  }

  /**
   * When no start reaches a tool while another runs under the key, at most one
   * dispatch under it ever succeeds, and nothing is dispatched after that one.
   */
  lemma AtMostOnce(registry: Registry, steps: seq<Step>, k: string, i: nat, j: nat)
    requires k != "" && !HasOverlap(registry, steps, k)
    requires i < j < |Run(registry, steps).dispatches|
    requires var d := Run(registry, steps).dispatches; d[i].key == d[j].key == k
    ensures !Success(Run(registry, steps).dispatches[i])
  {
    NoOverlapKeepsOrder(registry, steps, k);
  }

  ghost predicate SucceedsTwice(dispatches: seq<Dispatch>, k: string) {
    exists i, j :: 0 <= i < j < |dispatches| && dispatches[i].key == dispatches[j].key == k
                   && Success(dispatches[i]) && Success(dispatches[j])
  }

  /** Both tools of an overlap may still succeed: the check and the record are separate steps. */
  lemma OverlapSucceedsTwice(registry: Registry, front: seq<Step>, start: Step, k: string) returns (answers: seq<Step>)
    requires k != "" && Overlaps(Run(registry, front), registry, start, k)
    ensures forall m :: 0 <= m < |answers| ==> answers[m].Answer?
    ensures SucceedsTwice(Run(registry, front + [start] + answers).dispatches, k)
  {
    var st := Run(registry, front);
    var n := |st.dispatches|;
    var i :| 0 <= i < n && st.dispatches[i].key == k && st.dispatches[i].outcome.None?;
    var first, second := Answer(i, ToolSuccess("")), Answer(n, ToolSuccess(""));
    answers := [first, second];
    RunSnoc(registry, front, start);
    RunSnoc(registry, front + [start], first);
    RunSnoc(registry, front + [start] + [first], second);
    assert front + [start] + answers == front + [start] + [first] + [second];
    var d := Run(registry, front + [start] + answers).dispatches;
    assert d[i].key == d[n].key == k && Success(d[i]) && Success(d[n]);
  }

  /** After `n` steps of the schedule these answers to the running tools give two successes under the key. */
  ghost predicate TwiceAfter(registry: Registry, steps: seq<Step>, n: nat, answers: seq<Step>, k: string)
    requires n <= |steps|
  {
    && (forall m :: 0 <= m < |answers| ==> answers[m].Answer?)
    && SucceedsTwice(Run(registry, steps[..n] + answers).dispatches, k)
  }

  ghost predicate CanSucceedTwice(registry: Registry, steps: seq<Step>, k: string) {
    exists n: nat, answers: seq<Step> :: n <= |steps| && TwiceAfter(registry, steps, n, answers, k)
  }

  /** Answers neither add nor remove overlaps. */
  lemma AnswersDoNotOverlap(registry: Registry, steps: seq<Step>, n: nat, answers: seq<Step>, k: string)
    requires n <= |steps| && forall m :: 0 <= m < |answers| ==> answers[m].Answer?
    requires HasOverlap(registry, steps[..n] + answers, k)
    ensures HasOverlap(registry, steps, k)
  {
    hide Run;
    var all := steps[..n] + answers;
    var m :| 0 <= m < |all| && Overlaps(Run(registry, all[..m]), registry, all[m], k);
    assert m < n;
    assert all[..m] == steps[..m] && all[m] == steps[m];
  }

  lemma OverlapCanSucceedTwice(registry: Registry, steps: seq<Step>, k: string)
    requires k != "" && HasOverlap(registry, steps, k)
    ensures CanSucceedTwice(registry, steps, k)
  {
    hide Overlaps;
    hide SucceedsTwice;
    hide Run;
    var n :| 0 <= n < |steps| && Overlaps(Run(registry, steps[..n]), registry, steps[n], k);
    var answers := OverlapSucceedsTwice(registry, steps[..n], steps[n], k);
    assert steps[..n] + [steps[n]] + answers == steps[..n + 1] + answers;
    assert TwiceAfter(registry, steps, n + 1, answers, k);
  }

  lemma SuccessesOverlap(registry: Registry, steps: seq<Step>, k: string)
    requires k != "" && SucceedsTwice(Run(registry, steps).dispatches, k)
    ensures HasOverlap(registry, steps, k)
  {
    hide Run;
    hide HasOverlap;
    if !HasOverlap(registry, steps, k) {
      NoOverlapKeepsOrder(registry, steps, k);
    }
  }

  /**
   * The guard keeps a nonempty key to one success, whatever the tools answer,
   * exactly when no start reaches a tool while another runs under the key.
   */
  lemma AtMostOnceExactly(registry: Registry, steps: seq<Step>, k: string)
    requires k != ""
    ensures !CanSucceedTwice(registry, steps, k) <==> !HasOverlap(registry, steps, k)
  {
    hide HasOverlap;
    hide SucceedsTwice;
    hide Run;
    if HasOverlap(registry, steps, k) {
      OverlapCanSucceedTwice(registry, steps, k);
    }
    if CanSucceedTwice(registry, steps, k) {
      var n: nat, answers: seq<Step> :| n <= |steps| && TwiceAfter(registry, steps, n, answers, k);
      SuccessesOverlap(registry, steps[..n] + answers, k);
      AnswersDoNotOverlap(registry, steps, n, answers, k);
    }
  }

  /** Two callers that hand in the same action at the same time. */
  lemma SameActionTwice(registry: Registry, action: RemediationAction)
    requires action.idempotencyKey != "" && Invocable(registry, action.actionType, "OPERATOR")
        && Unpacks(Obj(action.parameters))
    ensures var start := Start(action, Obj(action.parameters), "OPERATOR");
            CanSucceedTwice(registry, [start, start], action.idempotencyKey)
  {
    var start := Start(action, Obj(action.parameters), "OPERATOR");
    RunSnoc(registry, [], start);
    assert [] + [start] == [start];
    assert Run(registry, [start]).dispatches[0].outcome.None?;
    assert [start, start][..1] == [start];
    assert Overlaps(Run(registry, [start, start][..1]), registry, [start, start][1], action.idempotencyKey);
    AtMostOnceExactly(registry, [start, start], action.idempotencyKey);
  }

  lemma RunSnoc(registry: Registry, steps: seq<Step>, step: Step)
    ensures Run(registry, steps + [step]) == Next(Run(registry, steps), registry, step)
  {
    assert (steps + [step])[..|steps|] == steps;
  }

  // Sequential callers, which is how the workflow calls the runner

  datatype Call =
    | DoExecute(action: RemediationAction, role: string, outcome: ToolOutcome)
    | DoRollback(action: RemediationAction, role: string, outcome: ToolOutcome)

  function AfterCall(st: RunnerState, registry: Registry, call: Call): RunnerState {
    match call
    case DoExecute(action, role, outcome) => Execute(st, registry, action, Obj(action.parameters), role, outcome).0
    case DoRollback(action, role, outcome) => ExecuteRollback(st, registry, action, role, outcome).0
  }

  function RunCalls(registry: Registry, calls: seq<Call>): RunnerState {
    if calls == [] then RunnerState({}, [])
    else AfterCall(RunCalls(registry, calls[..|calls| - 1]), registry, calls[|calls| - 1])
  }

  /** What every sequence of calls keeps. */
  ghost predicate SequentialInv(st: RunnerState) {
    && KeysExact(st)
    && (forall k :: k != "" ==> OnlyLastOpen(st.dispatches, k))
    && forall i :: 0 <= i < |st.dispatches| ==> st.dispatches[i].outcome.Some?
  }

  lemma ExecuteKeepsInv(st: RunnerState, registry: Registry, action: RemediationAction, parameters: Json, role: string,
          outcome: ToolOutcome)
    requires SequentialInv(st)
    ensures SequentialInv(Execute(st, registry, action, parameters, role, outcome).0)
  {
    var (st', begun) := Begin(st, registry, action, parameters, role);
    BeginKeepsKeys(st, registry, action, parameters, role);
    forall k | k != "" ensures OnlyLastOpen(st'.dispatches, k) {
      StepKeepsOrder(st, registry, Start(action, parameters, role), k);
    }
    if begun.Running? {
      FinishKeepsKeys(st', begun.index, outcome);
      forall k | k != "" ensures OnlyLastOpen(Finish(st', begun.index, outcome).dispatches, k) {
        FinishKeepsOrder(st', begun.index, outcome, k);
      }
    }
  }

  lemma FinishKeepsOrder(st: RunnerState, index: nat, outcome: ToolOutcome, k: string)
    requires OnlyLastOpen(st.dispatches, k) && index == |st.dispatches| - 1
    ensures OnlyLastOpen(Finish(st, index, outcome).dispatches, k)
  {
  }

  lemma CallKeepsInv(st: RunnerState, registry: Registry, call: Call)
    requires SequentialInv(st)
    ensures SequentialInv(AfterCall(st, registry, call))
  {
    match call
    case DoExecute(action, role, outcome) =>
      ExecuteKeepsInv(st, registry, action, Obj(action.parameters), role, outcome);
    case DoRollback(action, role, outcome) =>
      ExecuteKeepsInv(st, registry, action, CompensationParameters(action), role, outcome);
      ExecuteKeepsInv(st, registry, RestartOf(action), Obj([]), role, outcome);
  }

  lemma {:induction false} CallsKeepInv(registry: Registry, calls: seq<Call>)
    ensures SequentialInv(RunCalls(registry, calls))
  {
    if calls != [] {
      CallsKeepInv(registry, calls[..|calls| - 1]);
      CallKeepsInv(RunCalls(registry, calls[..|calls| - 1]), registry, calls[|calls| - 1]);
    }
  }

  /**
   * Over every sequence of executions and rollbacks: the recorded keys are the
   * nonempty keys with a success, and under a key nothing is dispatched after
   * its first success.
   */
  lemma GuardOverCalls(registry: Registry, calls: seq<Call>)
    ensures var st := RunCalls(registry, calls);
            && (forall k :: k in st.executed <==> k != "" && HasSuccess(st.dispatches, k))
            && (forall i, j :: 0 <= i < j < |st.dispatches| && st.dispatches[i].key == st.dispatches[j].key != "" ==>
                  !Success(st.dispatches[i]))
  {
    CallsKeepInv(registry, calls);
    var d := RunCalls(registry, calls).dispatches;
    forall i, j | 0 <= i < j < |d| && d[i].key == d[j].key != "" ensures !Success(d[i]) {
      assert OnlyLastOpen(d, d[i].key);
    }
  }

  // What one execution does

  /**
   * A role may invoke a registered tool exactly when it is the role the tool
   * requires or a higher one, viewers below operators below administrators,
   * in any letter case. A tool that requires an unknown role is out of reach.
   */
  lemma WhoMayInvoke(registry: Registry, t: ActionType, role: string)
    ensures Invocable(registry, t, role) <==>
              && t in registry
              && (|| (SameIgnoringCase(registry[t], "VIEWER") &&
                        (|| SameIgnoringCase(role, "VIEWER")
                         || SameIgnoringCase(role, "OPERATOR")
                         || SameIgnoringCase(role, "ADMIN")))
                  || (SameIgnoringCase(registry[t], "OPERATOR") &&
                        (SameIgnoringCase(role, "OPERATOR") || SameIgnoringCase(role, "ADMIN")))
                  || (SameIgnoringCase(registry[t], "ADMIN") && SameIgnoringCase(role, "ADMIN")))
  {
    hide Upper;
    RoleWords(role);
    if t in registry {
      RoleWords(registry[t]);
    }
  }

  lemma RoleWords(role: string)
    ensures Upper(role) == "VIEWER" <==> SameIgnoringCase(role, "VIEWER")
    ensures Upper(role) == "OPERATOR" <==> SameIgnoringCase(role, "OPERATOR")
    ensures Upper(role) == "ADMIN" <==> SameIgnoringCase(role, "ADMIN")
  {
    UpperMeaning(role, "VIEWER");
    UpperMeaning(role, "OPERATOR");
    UpperMeaning(role, "ADMIN");
  }

  /** A Python dictionary has each key once. */
  ghost predicate DistinctKeys(fields: seq<Field>) {
    forall i, j :: 0 <= i < j < |fields| ==> fields[i].key != fields[j].key
  }

  predicate HasKey(fields: seq<Field>, key: string) {
    exists i :: 0 <= i < |fields| && fields[i].key == key
  }

  lemma {:induction false} FieldMapMeaning(fields: seq<Field>)
    requires DistinctKeys(fields)
    ensures forall k :: k in FieldMap(fields) <==> HasKey(fields, k)
    ensures forall i :: 0 <= i < |fields| ==>
              fields[i].key in FieldMap(fields) && FieldMap(fields)[fields[i].key] == fields[i].value
  {
    if fields != [] {
      var n := |fields| - 1;
      FieldMapMeaning(fields[..n]);
      forall k ensures k in FieldMap(fields) <==> HasKey(fields, k) {
        if HasKey(fields[..n], k) {
          var i :| 0 <= i < n && fields[..n][i].key == k;
          assert fields[i].key == k;
        }
        if HasKey(fields, k) && k != fields[n].key {
          var i :| 0 <= i < |fields| && fields[i].key == k;
          assert fields[..n][i].key == k;
        }
      }
      forall i | 0 <= i < |fields|
        ensures fields[i].key in FieldMap(fields) && FieldMap(fields)[fields[i].key] == fields[i].value
      {
        if i < n {
          assert fields[..n][i] == fields[i];
        }
      }
    }
  }

  /** The arguments are the target service and every parameter, and a parameter wins over the target. */
  ghost predicate ArgumentsOf(arguments: map<string, Json>, target: string, fields: seq<Field>) {
    && (forall k :: k in arguments <==> k == "target_service" || HasKey(fields, k))
    && (forall i :: 0 <= i < |fields| && fields[i].key in arguments ==>
          arguments[fields[i].key] == fields[i].value)
    && ("target_service" in arguments && !HasKey(fields, "target_service") ==>
          arguments["target_service"] == Str(target))
  }

  lemma ArgumentsMeaning(action: RemediationAction, fields: seq<Field>)
    requires DistinctKeys(fields)
    ensures ArgumentsOf(Arguments(action, fields), action.targetService, fields)
  {
    FieldMapMeaning(fields);
  }

  /** A parameter named `self` cannot be unpacked, nor can anything but a mapping. */
  lemma UnpacksMeaning(parameters: Json)
    requires parameters.Obj? ==> DistinctKeys(parameters.fields)
    ensures Unpacks(parameters) <==> parameters.Obj? && !HasKey(parameters.fields, "self")
  {
    if parameters.Obj? {
      FieldMapMeaning(parameters.fields);
    }
  }

  /**
   * An execution calls the action's tool exactly when its key is free, the role
   * may invoke the tool and the parameters unpack: once, under the action's key
   * and with the arguments above. It reports what the tool answered, records
   * the key of a success, and without a call changes nothing.
   */
  lemma ExecuteCases(st: RunnerState, registry: Registry, action: RemediationAction, parameters: Json, role: string,
          outcome: ToolOutcome)
    requires parameters.Obj? ==> DistinctKeys(parameters.fields)
    ensures var (st', reply) := Execute(st, registry, action, parameters, role, outcome);
            var key := action.idempotencyKey;
            var taken := key != "" && key in st.executed;
            var unpacks := parameters.Obj? && !HasKey(parameters.fields, "self");
            if !taken && Invocable(registry, action.actionType, role) && unpacks then
              && |st'.dispatches| == |st.dispatches| + 1
              && st'.dispatches[..|st.dispatches|] == st.dispatches
              && var d := st'.dispatches[|st.dispatches|];
                 && d.tool == action.actionType && d.key == key && d.outcome == Some(outcome)
                 && ArgumentsOf(d.arguments, action.targetService, parameters.fields)
                 && (match outcome
                     case ToolSuccess(message) =>
                       && reply == Reply(ExecutionResult(action.actionId, Succeeded, message))
                       && (forall k :: k in st'.executed <==> k in st.executed || (k == key && key != ""))
                     case ToolFailure(_) =>
                       && reply == Reply(ExecutionResult(action.actionId, ExecutionFailed, ""))
                       && st'.executed == st.executed)
            else
              && st' == st
              && reply == (if taken then Reply(ExecutionResult(action.actionId, Succeeded, SKIPPED))
                           else if action.actionType in registry
                                   && (!parameters.Obj? || Invocable(registry, action.actionType, role)) then TypeError
                           else Reply(ExecutionResult(action.actionId, ExecutionFailed, "")))
  {
    UnpacksMeaning(parameters);
    if parameters.Obj? {
      ArgumentsMeaning(action, parameters.fields);
    }
  }

  /** The value of the parameter with this key. */
  predicate HasParameter(fields: seq<Field>, key: string, value: Json) {
    exists i :: 0 <= i < |fields| && fields[i] == Field(key, value)
  }

  /** The value under the key is looked up, with a default when there is none. */
  lemma GetParameterMeaning(fields: seq<Field>, key: string, default: Json)
    requires DistinctKeys(fields)
    ensures var v := GetParameter(fields, key, default);
            if HasKey(fields, key) then HasParameter(fields, key, v) else v == default
  {
    FieldMapMeaning(fields);
    if HasKey(fields, key) {
      var i :| 0 <= i < |fields| && fields[i].key == key;
      assert fields[i] == Field(key, GetParameter(fields, key, default));
    }
  }

  /**
   * What a compensation calls its tool with: a rollback goes back to the
   * action's previous version, a configuration change gets its rollback
   * configuration, and a restart nothing but the action's own target.
   */
  lemma CompensationArguments(st: RunnerState, registry: Registry, action: RemediationAction, role: string,
          outcome: ToolOutcome)
    requires DistinctKeys(action.parameters)
    requires CompensationParameters(action).Obj? ==> DistinctKeys(CompensationParameters(action).fields)
    requires CompensationReachesTool(st, registry, action, role)
    ensures var st' := ExecuteRollback(st, registry, action, role, outcome).0;
            && |st'.dispatches| == |st.dispatches| + 1
            && var arguments := st'.dispatches[|st.dispatches|].arguments;
               match action.actionType
               case RollbackDeployment =>
                 && arguments.Keys == {"target_service", "target_version"}
                 && arguments["target_service"] == Str(action.targetService)
                 && (if HasKey(action.parameters, "previous_version") then
                       HasParameter(action.parameters, "previous_version", arguments["target_version"])
                     else arguments["target_version"] == Null)
               case ModifyConfiguration =>
                 (if HasKey(action.parameters, "rollback_config") then
                    exists fields :: HasParameter(action.parameters, "rollback_config", Obj(fields))
                                     && ArgumentsOf(arguments, action.targetService, fields)
                  else arguments == map["target_service" := Str(action.targetService)])
               case _ => arguments == map["target_service" := Str(action.targetService)]
  {
    hide RoleWeight;
    hide GetParameter;
    hide HasKey;
    hide HasParameter;
    hide ArgumentsOf;
    GetParameterMeaning(action.parameters, "previous_version", Null);
    GetParameterMeaning(action.parameters, "rollback_config", Obj([]));
    match action.actionType
    case RollbackDeployment =>
      var f := Field("target_version", GetParameter(action.parameters, "previous_version", Null));
      RollbackUnpacks(action);
      assert [f][..0] == [] && FieldMap([f]) == map["target_version" := f.value];
    case ModifyConfiguration =>
      var fields := CompensationParameters(action).fields;
      ArgumentsMeaning(action, fields);
    case _ =>
  }

  // Compensation

  /** The copy of a rollback has one parameter. */
  lemma RollbackUnpacks(action: RemediationAction)
    requires action.actionType == RollbackDeployment
    ensures Unpacks(CompensationParameters(action))
  {
    var f := Field("target_version", GetParameter(action.parameters, "previous_version", Null));
    assert [f][..0] == [];
  }

  /** The condition under which a rollback reaches a tool. */
  predicate CompensationReachesTool(st: RunnerState, registry: Registry, action: RemediationAction, role: string) {
    if CompensatesInKind(action) then
      && Invocable(registry, action.actionType, role)
      && (action.idempotencyKey == "" || action.idempotencyKey !in st.executed)
      && Unpacks(CompensationParameters(action))
    else Invocable(registry, RestartService, role)
  }

  /**
   * A rollback dispatches at most one tool, and one exactly when that condition
   * holds: a restart without a key, or the action's own tool under the action's
   * own key. It reports ROLLED_BACK in every case in which it does not raise.
   */
  lemma RollbackCases(st: RunnerState, registry: Registry, action: RemediationAction, role: string,
          outcome: ToolOutcome)
    ensures var (st', reply) := ExecuteRollback(st, registry, action, role, outcome);
            && (if CompensationReachesTool(st, registry, action, role) then
                  && |st'.dispatches| == |st.dispatches| + 1
                  && st'.dispatches[..|st.dispatches|] == st.dispatches
                  && var d := st'.dispatches[|st.dispatches|];
                     d.outcome == Some(outcome)
                     && (if CompensatesInKind(action) then d.tool == action.actionType && d.key == action.idempotencyKey
                         else d.tool == RestartService && d.key == "" && st'.executed == st.executed)
                else st' == st)
            && (reply.Reply? ==>
                  var told := if CompensationReachesTool(st, registry, action, role) && outcome.ToolSuccess? then
                                outcome.message else "";
                  reply.result == ExecutionResult(action.actionId, RolledBack,
                    if !CompensatesInKind(action) then "Executed compensatory rollback: " + told
                    else if CompensationReachesTool(st, registry, action, role) then told
                    else if action.idempotencyKey != "" && action.idempotencyKey in st.executed then SKIPPED
                    else ""))
            && (reply.TypeError? ==>
                    action.actionType == ModifyConfiguration && !Unpacks(CompensationParameters(action)))
  {
    if action.actionType == RollbackDeployment {
      RollbackUnpacks(action);
    }
  }

  /**
   * A keyed rollback or configuration change that has succeeded is never
   * compensated: its copy keeps the key, the guard skips it, and ROLLED_BACK is
   * reported although no tool ran.
   */
  lemma SucceededKeyedActionIsNotCompensated(registry: Registry, calls: seq<Call>, action: RemediationAction,
          role: string, outcome: ToolOutcome)
    requires CompensatesInKind(action) && action.idempotencyKey != ""
    requires HasSuccess(RunCalls(registry, calls).dispatches, action.idempotencyKey)
    ensures var st := RunCalls(registry, calls);
            ExecuteRollback(st, registry, action, role, outcome)
              == (st, Reply(ExecutionResult(action.actionId, RolledBack, SKIPPED)))
  {
    CallsKeepInv(registry, calls);
  }

  lemma OperatorMayInvoke(t: ActionType)
    ensures Invocable(map[t := "OPERATOR"], t, "OPERATOR")
  {
    assert Upper("OPERATOR") == "OPERATOR";
  }

  const ROLLBACK := RemediationAction("ACT-1", RollbackDeployment, "payment-service", [], High, 800, true, "key")

  /** The deployment is rolled back once; rolling that back runs no tool. */
  lemma RollbackOfRollbackIsSkipped()
    ensures var registry := map[RollbackDeployment := "OPERATOR"];
            var st := RunCalls(registry, [DoExecute(ROLLBACK, "OPERATOR", ToolSuccess("rolled back"))]);
            && |st.dispatches| == 1 && Success(st.dispatches[0])
            && ExecuteRollback(st, registry, ROLLBACK, "OPERATOR", ToolSuccess("redeployed"))
                 == (st, Reply(ExecutionResult("ACT-1", RolledBack, SKIPPED)))
  {
    OperatorMayInvoke(RollbackDeployment);
    var registry := map[RollbackDeployment := "OPERATOR"];
    var call := DoExecute(ROLLBACK, "OPERATOR", ToolSuccess("rolled back"));
    assert [call][..0] == [];
    assert RunCalls(registry, [call]) == AfterCall(RunnerState({}, []), registry, call);
    var d := RunCalls(registry, [call]).dispatches;
    assert d[0].key == "key" && Success(d[0]);
    SucceededKeyedActionIsNotCompensated(registry, [call], ROLLBACK, "OPERATOR", ToolSuccess("redeployed"));
  }

  // The service a tool acts on

  /**
   * A dispatched action acts on its target service exactly when its parameters
   * do not name another one: an entry `target_service` overrides the target.
   */
  lemma DispatchedTarget(st: RunnerState, registry: Registry, action: RemediationAction, role: string,
          outcome: ToolOutcome)
    requires Invocable(registry, action.actionType, role) && Unpacks(Obj(action.parameters))
    requires action.idempotencyKey == "" || action.idempotencyKey !in st.executed
    ensures var st' := Execute(st, registry, action, Obj(action.parameters), role, outcome).0;
            && |st'.dispatches| == |st.dispatches| + 1
            && var arguments := st'.dispatches[|st.dispatches|].arguments;
               "target_service" in arguments
               && (arguments["target_service"] == Str(action.targetService) <==>
                     GetParameter(action.parameters, "target_service", Str(action.targetService))
                         == Str(action.targetService))
  {
  }

  /** An action on one service that restarts another. */
  lemma TargetOverridden()
    ensures var action := RemediationAction("ACT-1", RestartService, "payment-service",
                            [Field("target_service", Str("auth-service"))], High, 750, true, "key");
            var st := Execute(RunnerState({}, []), map[RestartService := "OPERATOR"], action,
                              Obj(action.parameters), "OPERATOR", ToolSuccess("restarted")).0;
            |st.dispatches| == 1 && Success(st.dispatches[0])
            && st.dispatches[0].arguments == map["target_service" := Str("auth-service")]
  {
    OperatorMayInvoke(RestartService);
    var f := Field("target_service", Str("auth-service"));
    assert [f][..0] == [];
    assert FieldMap([f]) == map["target_service" := Str("auth-service")];
    assert "self" != "target_service";
  }
}
