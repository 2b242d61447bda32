/**
 * What a node writes and how writes are merged: evidence and timeline are
 * appended, every other field is overwritten.
 */
module StateUpdate {
  import opened Wrappers
  import opened Domain

  /** The dictionary a node returns; a field that is `None` is not a key of it. */
  datatype Update = Update(
    currentStage: Option<Stage>,
    tasks: Option<seq<string>>,
    evidence: seq<Evidence>,
    hypotheses: Option<seq<Hypothesis>>,
    selected: Option<Option<Hypothesis>>,
    critique: Option<Option<Critique>>,
    plan: Option<Option<RemediationPlan>>,
    pendingApprovals: Option<seq<RemediationAction>>,
    executionResults: Option<seq<ExecutionResult>>,
    verification: Option<Option<Assessment>>,
    timeline: seq<TimelineEvent>,
    iterationCount: Option<int>)

  const NOTHING := Update(None, None, [], None, None, None, None, None, None, None, [], None)

  function Set<T>(write: Option<T>, old': T): T {
    if write.Some? then write.value else old'
  }

  function Merge(s: IncidentState, u: Update): IncidentState {
    s.(currentStage := Set(u.currentStage, s.currentStage),
       tasks := Set(u.tasks, s.tasks),
       evidence := s.evidence + u.evidence,
       hypotheses := Set(u.hypotheses, s.hypotheses),
       selected := Set(u.selected, s.selected),
       critique := Set(u.critique, s.critique),
       plan := Set(u.plan, s.plan),
       pendingApprovals := Set(u.pendingApprovals, s.pendingApprovals),
       executionResults := Set(u.executionResults, s.executionResults),
       verification := Set(u.verification, s.verification),
       timeline := s.timeline + u.timeline,
       iterationCount := Set(u.iterationCount, s.iterationCount))
  }

  function MergeAll(s: IncidentState, us: seq<Update>): IncidentState
    decreases |us|
  {
    if us == [] then s else MergeAll(Merge(s, us[0]), us[1..])
  }

  /** No overwritten field is written by both. */
  predicate Compatible(u: Update, v: Update) {
    && (u.currentStage.None? || v.currentStage.None?)
    && (u.tasks.None? || v.tasks.None?)
    && (u.hypotheses.None? || v.hypotheses.None?)
    && (u.selected.None? || v.selected.None?)
    && (u.critique.None? || v.critique.None?)
    && (u.plan.None? || v.plan.None?)
    && (u.pendingApprovals.None? || v.pendingApprovals.None?)
    && (u.executionResults.None? || v.executionResults.None?)
    && (u.verification.None? || v.verification.None?)
    && (u.iterationCount.None? || v.iterationCount.None?)
  }

  predicate AllCompatible(us: seq<Update>) {
    forall i, j :: 0 <= i < j < |us| ==> Compatible(us[i], us[j])
  }

  /** The end of a superstep: two writes to one overwritten field are an error. */
  function Reduce(s: IncidentState, us: seq<Update>): Option<IncidentState> {
    if AllCompatible(us) then Some(MergeAll(s, us)) else None
  }

  lemma MergeOne(s: IncidentState, u: Update)
    ensures Reduce(s, [u]) == Some(Merge(s, u))
  {
    assert [u][1..] == [];
    assert MergeAll(Merge(s, u), []) == Merge(s, u);
  }

  lemma MergeFour(s: IncidentState, u0: Update, u1: Update, u2: Update, u3: Update)
    ensures MergeAll(s, [u0, u1, u2, u3]) == Merge(Merge(Merge(Merge(s, u0), u1), u2), u3)
  {
    assert [u0, u1, u2, u3][1..] == [u1, u2, u3];
    assert [u1, u2, u3][1..] == [u2, u3];
    assert [u2, u3][1..] == [u3];
    var s1, s2, s3 := Merge(s, u0), Merge(Merge(s, u0), u1), Merge(Merge(Merge(s, u0), u1), u2);
    MergeOne(s3, u3);
    assert MergeAll(s2, [u2, u3]) == MergeAll(s3, [u3]);
    assert MergeAll(s1, [u1, u2, u3]) == MergeAll(s2, [u2, u3]);
  }

  // The order of merging

  /**
   * Equal in every field that nodes overwrite, and the same evidence and the
   * same timeline up to order. Approval decisions are not written by nodes.
   */
  ghost predicate Similar(s: IncidentState, t: IncidentState) {
    && t == s.(evidence := t.evidence, timeline := t.timeline, approvalDecisions := t.approvalDecisions)
    && multiset(s.evidence) == multiset(t.evidence)
    && multiset(s.timeline) == multiset(t.timeline)
  }

  lemma MergeSimilar(s: IncidentState, t: IncidentState, u: Update)
    requires Similar(s, t)
    ensures Similar(Merge(s, u), Merge(t, u))
  {
  }

  lemma MergeCommutes(s: IncidentState, t: IncidentState, u: Update, v: Update)
    requires Similar(s, t) && Compatible(u, v)
    ensures Similar(Merge(Merge(s, u), v), Merge(Merge(t, v), u))
  {
  }

  lemma {:induction false} MergeAllSimilar(s: IncidentState, t: IncidentState, us: seq<Update>)
    requires Similar(s, t)
    ensures Similar(MergeAll(s, us), MergeAll(t, us))
    decreases |us|
  {
    if us != [] {
      MergeSimilar(s, t, us[0]);
      MergeAllSimilar(Merge(s, us[0]), Merge(t, us[0]), us[1..]);
    }
  }

  lemma SimilarTransitive(s: IncidentState, t: IncidentState, r: IncidentState)
    requires Similar(s, t) && Similar(t, r)
    ensures Similar(s, r)
  {
  }

  /** An update may be merged before others it is compatible with. */
  lemma {:induction false} MoveToFront(s: IncidentState, before: seq<Update>, u: Update, after: seq<Update>)
    requires forall v :: v in before ==> Compatible(u, v)
    ensures Similar(MergeAll(Merge(s, u), before + after), MergeAll(s, before + [u] + after))
    decreases |before|
  {
    if before == [] {
      assert before + after == after && (before + [u] + after)[1..] == after;
    } else {
      var v, rest := before[0], before[1..];
      assert (before + after)[1..] == rest + after;
      assert (before + [u] + after)[1..] == rest + [u] + after;
      MergeCommutes(s, s, u, v);
      MergeAllSimilar(Merge(Merge(s, u), v), Merge(Merge(s, v), u), rest + after);
      MoveToFront(Merge(s, v), rest, u, after);
      SimilarTransitive(MergeAll(Merge(Merge(s, u), v), rest + after),
                        MergeAll(Merge(Merge(s, v), u), rest + after),
                        MergeAll(Merge(s, v), rest + [u] + after));
    }
  }

  /** The position of the first element in a permutation, and what is left of both. */
  lemma FirstInPermutation<T>(s: seq<T>, t: seq<T>) returns (j: nat)
    requires s != [] && multiset(s) == multiset(t)
    ensures j < |t| && t == t[..j] + [s[0]] + t[j + 1..]
    ensures multiset(s[1..]) == multiset(t[..j] + t[j + 1..])
  {
    assert s == [s[0]] + s[1..];
    assert s[0] in multiset(t);
    j :| 0 <= j < |t| && t[j] == s[0];
    assert t == t[..j] + [s[0]] + t[j + 1..];
    assert multiset(t) == multiset(t[..j] + t[j + 1..]) + multiset{s[0]};
    assert multiset(s) == multiset(s[1..]) + multiset{s[0]};
    assert multiset(s[1..]) == multiset(s) - multiset{s[0]};
  }

  lemma CompatibleWithRest(us: seq<Update>, others: seq<Update>)
    requires us != [] && AllCompatible(us) && multiset(us[1..]) == multiset(others)
    ensures AllCompatible(us[1..])
    ensures forall v :: v in others ==> Compatible(us[0], v)
  {
    forall v | v in others ensures Compatible(us[0], v) {
      assert v in multiset(us[1..]);
      var i :| 0 <= i < |us[1..]| && us[1..][i] == v;
      assert us[i + 1] == v;
    }
  }

  /** Compatible updates may be merged in any order. */
  lemma {:induction false} OrderIndependent(s: IncidentState, t: IncidentState, us: seq<Update>, stream: seq<Update>)
    requires Similar(s, t) && AllCompatible(us) && multiset(us) == multiset(stream)
    ensures Similar(MergeAll(s, us), MergeAll(t, stream))
    decreases |us|
  {
    if us == [] {
      assert |multiset(stream)| == |stream|;
    } else {
      var j := FirstInPermutation(us, stream);
      var before, after := stream[..j], stream[j + 1..];
      CompatibleWithRest(us, before + after);
      forall v | v in before ensures Compatible(us[0], v) {
        assert v in before + after;
      }
      MergeSimilar(s, t, us[0]);
      OrderIndependent(Merge(s, us[0]), Merge(t, us[0]), us[1..], before + after);
      MoveToFront(t, before, us[0], after);
      SimilarTransitive(MergeAll(s, us), MergeAll(Merge(t, us[0]), before + after), MergeAll(t, stream));
    }
  }
}
