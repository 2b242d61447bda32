/**
 * The approval records of one incident: finding the action an approval id
 * names, deciding it once, and listing the statuses.
 */
module Approvals {
  import opened Wrappers
  import opened Domain
  import opened Lists
  import opened StateUpdate
  import opened Text
  import RiskPolicy

  datatype Request = Request(decision: Decision, approverId: string, approverRole: string, reason: string)

  datatype SubmitError =
    | NoRemediationPlan
    | ApprovalNotFound
    | AlreadyDecided(existing: ApprovalDecision)
    | Denied(reason: RiskPolicy.Denial)

  datatype Status = Pending | AutoApproved | Decided(decision: Decision)

  datatype Approval = Approval(id: string, actionId: string, status: Status)

  /** The id under which an action is listed. */
  function ApprovalId(actionId: string): string { "appr-" + actionId }

  predicate Names(approvalId: string, a: RemediationAction) {
    ApprovalId(a.actionId) == approvalId || a.actionId == approvalId
  }

  /** The first action the id names, or the number of actions. */
  function FindTarget(actions: seq<RemediationAction>, approvalId: string): (i: nat)
    ensures i <= |actions|
    ensures i < |actions| ==> Names(approvalId, actions[i])
    ensures forall j :: 0 <= j < i ==> !Names(approvalId, actions[j])
  {
    FirstIndex(actions, (a: RemediationAction) => Names(approvalId, a))
  }

  /** The first decision on the action, or the number of decisions. */
  function FindDecision(decisions: seq<ApprovalDecision>, actionId: string): (i: nat)
    ensures i <= |decisions|
    ensures i < |decisions| ==> decisions[i].actionId == actionId
    ensures forall j :: 0 <= j < i ==> decisions[j].actionId != actionId
  {
    FirstIndex(decisions, (d: ApprovalDecision) => d.actionId == actionId)
  }

  /** What a submission appends, or why it is refused. */
  function Submit(s: IncidentState, approvalId: string, r: Request): Result<ApprovalDecision, SubmitError> {
    if s.plan.None? then Err(NoRemediationPlan)
    else
      var actions := s.plan.value.actions;
      var i := FindTarget(actions, approvalId);
      if i == |actions| then Err(ApprovalNotFound)
      else
        var k := FindDecision(s.approvalDecisions, actions[i].actionId);
        if k < |s.approvalDecisions| then Err(AlreadyDecided(s.approvalDecisions[k]))
        else
          match RiskPolicy.Authorize(actions[i].riskTier, r.approverRole)
          case Err(denial) => Err(Denied(denial))
          case Ok(_) => Ok(ApprovalDecision(actions[i].actionId, r.decision, r.approverId, r.reason))
  }

  function AfterSubmit(s: IncidentState, approvalId: string, r: Request): IncidentState {
    match Submit(s, approvalId, r)
    case Ok(d) => s.(approvalDecisions := s.approvalDecisions + [d])
    case Err(_) => s
  }

  /** `{d.action_id: d for d in decisions}.get(action_id)`: the last decision on the action. */
  function LastDecision(decisions: seq<ApprovalDecision>, actionId: string): Option<ApprovalDecision> {
    if decisions == [] then None
    else if decisions[|decisions| - 1].actionId == actionId then Some(decisions[|decisions| - 1])
    else LastDecision(decisions[..|decisions| - 1], actionId)
  }

  function StatusOf(a: RemediationAction, decisions: seq<ApprovalDecision>): Status {
    match LastDecision(decisions, a.actionId)
    case Some(d) => Decided(d.decision)
    case None => if a.requiresApproval then Pending else AutoApproved
  }

  function ListApprovals(s: IncidentState): seq<Approval> {
    if s.plan.None? then [] else
      var actions := s.plan.value.actions;
      seq(|actions|, i requires 0 <= i < |actions| =>
        Approval(ApprovalId(actions[i].actionId), actions[i].actionId, StatusOf(actions[i], s.approvalDecisions)))
  }

  // Which action a listed id reaches

  /**
   * Submitting the id under which an action is listed reaches that action
   * exactly when no earlier action has its id or the listed id itself.
   */
  lemma ListedIdReachesItsAction(actions: seq<RemediationAction>, i: nat)
    requires i < |actions|
    ensures FindTarget(actions, ApprovalId(actions[i].actionId)) == i <==>
              forall j :: 0 <= j < i ==>
                actions[j].actionId != actions[i].actionId && actions[j].actionId != ApprovalId(actions[i].actionId)
  {
    var id := ApprovalId(actions[i].actionId);
    forall j | 0 <= j < i
      ensures Names(id, actions[j]) <==>
                actions[j].actionId == actions[i].actionId || actions[j].actionId == id
    {
      SamePrefix(actions[j].actionId, actions[i].actionId);
    }
    assert Names(id, actions[i]);
  }

  lemma SamePrefix(a: string, b: string)
    ensures ApprovalId(a) == ApprovalId(b) <==> a == b
  {
    assert ApprovalId(a)[5..] == a && ApprovalId(b)[5..] == b;
  }

  /** Every listed id reaches its action. */
  ghost predicate Unambiguous(actions: seq<RemediationAction>) {
    forall j, i :: 0 <= j < i < |actions| ==>
      actions[j].actionId != actions[i].actionId && actions[j].actionId != ApprovalId(actions[i].actionId)
  }

  // What one submission changes

  lemma LastDecisionAfter(decisions: seq<ApprovalDecision>, d: ApprovalDecision, actionId: string)
    ensures LastDecision(decisions + [d], actionId) == if d.actionId == actionId then Some(d)
        else LastDecision(decisions, actionId)
  {
  }

  /**
   * Under an unambiguous plan, an accepted submission of the id of the `i`-th
   * listed approval decides that action and leaves every other status alone.
   */
  lemma SubmitDecidesListed(s: IncidentState, i: nat, r: Request)
    requires s.plan.Some? && i < |s.plan.value.actions| && Unambiguous(s.plan.value.actions)
    requires Submit(s, ListApprovals(s)[i].id, r).Ok?
    ensures ListApprovals(AfterSubmit(s, ListApprovals(s)[i].id, r)) ==
            ListApprovals(s)[i := ListApprovals(s)[i].(status := Decided(r.decision))]
  {
    var actions := s.plan.value.actions;
    var id := ListApprovals(s)[i].id;
    ListedIdReachesItsAction(actions, i);
    var d := Submit(s, id, r).value;
    var s' := AfterSubmit(s, id, r);
    forall j | 0 <= j < |actions|
      ensures ListApprovals(s')[j] == ListApprovals(s)[i := ListApprovals(s)[i].(status := Decided(r.decision))][j]
    {
      LastDecisionAfter(s.approvalDecisions, d, actions[j].actionId);
    }
  }

  /** Actions named `appr-x` and `x`: submitting the id that lists the second decides the first. */
  lemma ListedIdReachesAnother(s: IncidentState, first: RemediationAction, second: RemediationAction, r: Request)
    requires first.actionId == "appr-x" && second.actionId == "x"
    requires s.plan == Some(RemediationPlan(s.incidentId, "H-1", [first, second])) && s.approvalDecisions == []
    requires r.approverRole == "ADMIN"
    ensures ListApprovals(s)[1].actionId == "x" && ListApprovals(s)[1].id == "appr-x"
    ensures Submit(s, ListApprovals(s)[1].id, r) == Ok(ApprovalDecision("appr-x", r.decision, r.approverId, r.reason))
  {
    var actions := [first, second];
    assert s.plan.value.actions == actions;
    assert Names("appr-x", actions[0]);
    assert FindTarget(actions, "appr-x") == 0;
    assert Upper("ADMIN") == "ADMIN";
  }

  // Whole histories: submissions and merged node updates in any order

  datatype Op = MergeNode(update: Update) | SubmitApproval(approvalId: string, request: Request)

  function AfterOp(s: IncidentState, op: Op): IncidentState {
    match op
    case MergeNode(u) => Merge(s, u)
    case SubmitApproval(id, r) => AfterSubmit(s, id, r)
  }

  function AfterOps(s: IncidentState, ops: seq<Op>): IncidentState {
    if ops == [] then s else AfterOp(AfterOps(s, ops[..|ops| - 1]), ops[|ops| - 1])
  }

  ghost predicate DecidedOnce(decisions: seq<ApprovalDecision>) {
    forall i, j :: 0 <= i < j < |decisions| ==> decisions[i].actionId != decisions[j].actionId
  }

  /**
   * The submission at position `k` of the history was for an action of the plan
   * of that moment, by a role its tier admits, and it is the `i`-th decision.
   */
  ghost predicate AcceptedAt(s: IncidentState, ops: seq<Op>, k: nat, d: ApprovalDecision) {
    && k < |ops| && ops[k].SubmitApproval?
    && var before := AfterOps(s, ops[..k]);
       var r := ops[k].request;
       && before.plan.Some?
       && var i := FindTarget(before.plan.value.actions, ops[k].approvalId);
          && i < |before.plan.value.actions|
          && d == ApprovalDecision(before.plan.value.actions[i].actionId, r.decision, r.approverId, r.reason)
          && RiskPolicy.Authorize(before.plan.value.actions[i].riskTier, r.approverRole).Ok?
  }

  ghost predicate WasAccepted(s: IncidentState, ops: seq<Op>, d: ApprovalDecision) {
    exists k: nat :: AcceptedAt(s, ops, k, d)
  }

  /** One operation appends at most one decision, on an action not decided before. */
  lemma OpAppends(s: IncidentState, op: Op)
    requires DecidedOnce(s.approvalDecisions)
    ensures var after := AfterOp(s, op).approvalDecisions;
            && s.approvalDecisions <= after
            && |after| <= |s.approvalDecisions| + 1
            && DecidedOnce(after)
  {
  }

  lemma LastOpAccepted(s: IncidentState, front: seq<Op>, op: Op)
    requires var before := AfterOps(s, front); |AfterOp(before, op).approvalDecisions| > |before.approvalDecisions|
    ensures var before := AfterOps(s, front);
            AcceptedAt(s, front + [op], |front|, AfterOp(before, op).approvalDecisions[|before.approvalDecisions|])
  {
  }

  lemma AcceptedStays(s: IncidentState, ops: seq<Op>, op: Op, d: ApprovalDecision)
    requires WasAccepted(s, ops, d)
    ensures WasAccepted(s, ops + [op], d)
  {
    var k: nat :| AcceptedAt(s, ops, k, d);
    assert (ops + [op])[..k] == ops[..k];
    assert AcceptedAt(s, ops + [op], k, d);
  }

  /**
   * Over every history: decisions are only appended, no action id is decided
   * twice, and each decision was submitted by a role that the tier of its
   * action admitted at that moment.
   */
  lemma {:induction false} DecisionsOverHistory(s: IncidentState, ops: seq<Op>)
    requires s.approvalDecisions == []
    ensures var after := AfterOps(s, ops);
            && DecidedOnce(after.approvalDecisions)
            && (forall i :: 0 <= i < |after.approvalDecisions| ==> WasAccepted(s, ops, after.approvalDecisions[i]))
            && (ops != [] ==> AfterOps(s, ops[..|ops| - 1]).approvalDecisions <= after.approvalDecisions)
  {
    if ops != [] {
      hide AfterOp;
      hide AcceptedAt;
      var n := |ops| - 1;
      var front, op := ops[..n], ops[n];
      DecisionsOverHistory(s, front);
      assert ops == front + [op];
      var before, after := AfterOps(s, front), AfterOps(s, ops);
      OpAppends(before, op);
      forall i | 0 <= i < |after.approvalDecisions| ensures WasAccepted(s, ops, after.approvalDecisions[i]) {
        if i < |before.approvalDecisions| {
          AcceptedStays(s, front, op, before.approvalDecisions[i]);
        } else {
          LastOpAccepted(s, front, op);
          assert AcceptedAt(s, ops, n, after.approvalDecisions[i]);
        }
      }
    }
  }

  // Roles and refusals

  /**
   * Over every history, each decision was submitted for an action of the plan
   * of that moment, in the submitter's name and for their reason: by an
   * administrator when the action was critical, and otherwise by an
   * administrator or an operator.
   */
  lemma DecisionsByRole(s: IncidentState, ops: seq<Op>, d: ApprovalDecision)
    requires s.approvalDecisions == [] && d in AfterOps(s, ops).approvalDecisions
    ensures exists k: nat, i: nat :: DecidedAt(s, ops, k, i, d)
  {
    hide SameIgnoringCase;
    hide RiskPolicy.Authorize;
    hide AfterOps;
    DecisionsOverHistory(s, ops);
    var after := AfterOps(s, ops).approvalDecisions;
    var n :| 0 <= n < |after| && after[n] == d;
    assert WasAccepted(s, ops, d);
    var k: nat :| AcceptedAt(s, ops, k, d);
    var before := AfterOps(s, ops[..k]);
    var i := FindTarget(before.plan.value.actions, ops[k].approvalId);
    RiskPolicy.WhoMayApprove(before.plan.value.actions[i].riskTier, ops[k].request.approverRole);
    assert DecidedAt(s, ops, k, i, d);
  }

  /** The `k`-th operation submitted this decision on the `i`-th action of the plan. */
  ghost predicate DecidedAt(s: IncidentState, ops: seq<Op>, k: nat, i: nat, d: ApprovalDecision) {
    && k < |ops| && ops[k].SubmitApproval?
    && var before, r := AfterOps(s, ops[..k]), ops[k].request;
       && before.plan.Some? && i < |before.plan.value.actions|
       && var action := before.plan.value.actions[i];
          && d == ApprovalDecision(action.actionId, r.decision, r.approverId, r.reason)
          && (ops[k].approvalId == action.actionId || ops[k].approvalId == "appr-" + action.actionId)
          && (if action.riskTier == Critical then SameIgnoringCase(r.approverRole, "ADMIN")
              else SameIgnoringCase(r.approverRole, "ADMIN") || SameIgnoringCase(r.approverRole, "OPERATOR"))
  }

  /** The `i`-th action is the first that the id names, by itself or with its prefix. */
  predicate NamesFirst(actions: seq<RemediationAction>, approvalId: string, i: nat) {
    && i < |actions|
    && (actions[i].actionId == approvalId || "appr-" + actions[i].actionId == approvalId)
    && forall j :: 0 <= j < i ==> actions[j].actionId != approvalId && "appr-" + actions[j].actionId != approvalId
  }

  /**
   * After any history, a submission for a planned action that nobody has
   * decided is accepted exactly when it comes from an administrator, or from an
   * operator and the action is not critical; it then adds its decision.
   */
  lemma SubmissionByRole(s: IncidentState, ops: seq<Op>, approvalId: string, r: Request, i: nat)
    requires var t := AfterOps(s, ops);
             && t.plan.Some? && NamesFirst(t.plan.value.actions, approvalId, i)
             && forall d :: d in t.approvalDecisions ==> d.actionId != t.plan.value.actions[i].actionId
    ensures var t := AfterOps(s, ops);
            var action := t.plan.value.actions[i];
            var after := AfterOps(s, ops + [SubmitApproval(approvalId, r)]).approvalDecisions;
            if SameIgnoringCase(r.approverRole, "ADMIN")
               || (SameIgnoringCase(r.approverRole, "OPERATOR") && action.riskTier != Critical) then
              after == t.approvalDecisions + [ApprovalDecision(action.actionId, r.decision, r.approverId, r.reason)]
            else after == t.approvalDecisions
  {
    hide SameIgnoringCase;
    hide RiskPolicy.Authorize;
    hide Merge;
    var t := AfterOps(s, ops);
    assert (ops + [SubmitApproval(approvalId, r)])[..|ops|] == ops;
    assert FindTarget(t.plan.value.actions, approvalId) == i;
    RiskPolicy.WhoMayApprove(t.plan.value.actions[i].riskTier, r.approverRole);
  }

  /** Why a submission is refused: there is no plan, no such action, an earlier decision, or the role. */
  lemma RefusalMeaning(s: IncidentState, approvalId: string, r: Request)
    ensures s.plan.None? ==> Submit(s, approvalId, r) == Err(NoRemediationPlan)
    ensures s.plan.Some? && (forall i: nat :: !NamesFirst(s.plan.value.actions, approvalId, i)) ==>
              Submit(s, approvalId, r) == Err(ApprovalNotFound)
    ensures forall i: nat, k: nat ::
              s.plan.Some? && NamesFirst(s.plan.value.actions, approvalId, i) && k < |s.approvalDecisions|
              && s.approvalDecisions[k].actionId == s.plan.value.actions[i].actionId
              && (forall j :: 0 <= j < k ==> s.approvalDecisions[j].actionId != s.plan.value.actions[i].actionId) ==>
                Submit(s, approvalId, r) == Err(AlreadyDecided(s.approvalDecisions[k]))
    ensures forall i: nat ::
              s.plan.Some? && NamesFirst(s.plan.value.actions, approvalId, i)
              && (forall d :: d in s.approvalDecisions ==> d.actionId != s.plan.value.actions[i].actionId)
              && !SameIgnoringCase(r.approverRole, "ADMIN")
              && (SameIgnoringCase(r.approverRole, "OPERATOR") ==> s.plan.value.actions[i].riskTier == Critical) ==>
                Submit(s, approvalId, r) == Err(Denied(
                  if SameIgnoringCase(r.approverRole, "OPERATOR") then RiskPolicy.NeedsAdmin
                  else if SameIgnoringCase(r.approverRole, "VIEWER") then RiskPolicy.ViewerReadOnly
                  else RiskPolicy.UnknownRole))
  {
    hide SameIgnoringCase;
    if s.plan.Some? {
      var actions := s.plan.value.actions;
      var i := FindTarget(actions, approvalId);
      if i < |actions| {
        assert NamesFirst(actions, approvalId, i);
        assert forall j: nat :: NamesFirst(actions, approvalId, j) ==> j == i;
        var k := FindDecision(s.approvalDecisions, actions[i].actionId);
        RiskPolicy.WhoMayApprove(actions[i].riskTier, r.approverRole);
      }
    }
  }

  // What is listed

  /**
   * The list has one approval for each action, in the plan's order and under
   * its prefixed id: decided as the last decision on it says, and while there
   * is none pending exactly when the action needs approval.
   */
  lemma ListingMeaning(s: IncidentState)
    ensures s.plan.None? ==> ListApprovals(s) == []
    ensures s.plan.Some? ==> |ListApprovals(s)| == |s.plan.value.actions|
    ensures s.plan.Some? ==> forall i :: 0 <= i < |ListApprovals(s)| ==>
              var a, entry := s.plan.value.actions[i], ListApprovals(s)[i];
              && entry.id == "appr-" + a.actionId && entry.actionId == a.actionId
              && (entry.status == Pending <==>
                    a.requiresApproval && forall d :: d in s.approvalDecisions ==> d.actionId != a.actionId)
              && (entry.status == AutoApproved <==>
                    !a.requiresApproval && forall d :: d in s.approvalDecisions ==> d.actionId != a.actionId)
              && (forall k :: IsLast(s.approvalDecisions, a.actionId, k) ==>
                    entry.status == Decided(s.approvalDecisions[k].decision))
  {
    forall i | 0 <= i < |ListApprovals(s)|
      ensures var a, entry := s.plan.value.actions[i], ListApprovals(s)[i];
              && (entry.status == Pending <==>
                    a.requiresApproval && forall d :: d in s.approvalDecisions ==> d.actionId != a.actionId)
              && (entry.status == AutoApproved <==>
                    !a.requiresApproval && forall d :: d in s.approvalDecisions ==> d.actionId != a.actionId)
              && (forall k :: IsLast(s.approvalDecisions, a.actionId, k) ==>
                    entry.status == Decided(s.approvalDecisions[k].decision))
    {
      LastDecisionMeaning(s.approvalDecisions, s.plan.value.actions[i].actionId);
    }
  }

  /** The `k`-th decision is on the action and no later one is. */
  predicate IsLast(decisions: seq<ApprovalDecision>, actionId: string, k: int) {
    && 0 <= k < |decisions| && decisions[k].actionId == actionId
    && forall j :: k < j < |decisions| ==> decisions[j].actionId != actionId
  }

  lemma {:induction false} LastDecisionMeaning(decisions: seq<ApprovalDecision>, actionId: string)
    ensures LastDecision(decisions, actionId).None? <==> forall d :: d in decisions ==> d.actionId != actionId
    ensures forall k :: IsLast(decisions, actionId, k) ==> LastDecision(decisions, actionId) == Some(decisions[k])
  {
    if decisions != [] {
      var n := |decisions| - 1;
      LastDecisionMeaning(decisions[..n], actionId);
      assert decisions == decisions[..n] + [decisions[n]];
      forall k | IsLast(decisions, actionId, k) ensures LastDecision(decisions, actionId) == Some(decisions[k]) {
        if k < n {
          assert IsLast(decisions[..n], actionId, k);
        }
      }
    }
  }
}
