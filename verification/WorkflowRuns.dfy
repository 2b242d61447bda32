/**
 * What holds on every run of the incident workflow, whatever the agents and
 * the tools answer.
 */
module WorkflowRuns {
  import opened Arithmetic
  import opened Wrappers
  import opened Domain
  import opened StateUpdate
  import ExecutionRunner
  import opened Workflow

  predicate InRound(p: Phase) {
    p == AtSupervisor || p == AtAnalysts || p == AtJoin || p == AtRca || p == AtCritic
  }

  predicate InRemediation(p: Phase) {
    p == AtPlanning || p == AtExecution || p == AtVerification
  }

  predicate Ended(p: Phase) {
    p == Done || p == Crashed
  }

  /** How far a round is. */
  function Offset(p: Phase): nat
    requires InRound(p)
  {
    match p
    case AtSupervisor => 0
    case AtAnalysts => 1
    case AtJoin => 2
    case AtRca => 3
    case AtCritic => 4
  }

  lemma RunSnoc(env: Env, s: IncidentState, runner: ExecutionRunner.RunnerState, answers: seq<Answer>, a: Answer)
    ensures Run(env, s, runner, answers + [a]) == Step(env, Run(env, s, runner, answers), a)
  {
    assert (answers + [a])[..|answers|] == answers;
  }

  // The phases one by one

  lemma SupervisorStep(env: Env, c: Config, a: Answer)
    requires c.phase == AtSupervisor
    ensures Step(env, c, a) == Config(AtAnalysts, Merge(c.state, SupervisorUpdate(a)), c.runner)
  {
    SingleNode(env, c, a);
  }

  lemma JoinStep(env: Env, c: Config, a: Answer)
    requires c.phase == AtJoin
    ensures Step(env, c, a) == Config(AtRca, Merge(c.state, JoinUpdate()), c.runner)
  {
    SingleNode(env, c, a);
  }

  lemma RcaStep(env: Env, c: Config, a: Answer)
    requires c.phase == AtRca
    ensures Step(env, c, a) == Config(AtCritic, Merge(c.state, RcaUpdate(a)), c.runner)
  {
    SingleNode(env, c, a);
  }

  lemma CriticStep(env: Env, c: Config, a: Answer)
    requires c.phase == AtCritic
    ensures var s := Merge(c.state, CriticUpdate(c.state, a));
            Step(env, c, a) == Config(NextPhase(AtCritic, s), s, c.runner)
  {
    SingleNode(env, c, a);
  }

  lemma PlanningStep(env: Env, c: Config, a: Answer)
    requires c.phase == AtPlanning
    ensures Step(env, c, a) == Config(AtExecution, Merge(c.state, PlanningUpdate(env, c.state, a)), c.runner)
  {
    SingleNode(env, c, a);
  }

  lemma ExecutionStep(env: Env, c: Config, a: Answer)
    requires c.phase == AtExecution
    ensures var (runner, results) := ExecuteAll(c.runner, env.registry, Actions(c.state), a.outcomes);
            Step(env, c, a) ==
              if results.None? then Config(Crashed, c.state, runner)
              else Config(AtVerification, Merge(c.state, ExecutionUpdate(c.state, results.value)), runner)
  {
    if NodeOutputs(env, c, a).Written? {
      SingleNode(env, c, a);
    }
  }

  lemma VerificationStep(env: Env, c: Config, a: Answer)
    requires c.phase == AtVerification
    ensures var c' := Step(env, c, a);
            if NodeOutputs(env, c, a).Raised? then c' == Config(Crashed, c.state, NodeOutputs(env, c, a).runner)
            else c' == Config(Done, Merge(c.state, VerificationUpdate(c.state, a)), NodeOutputs(env, c, a).runner)
  {
    if NodeOutputs(env, c, a).Written? {
      SingleNode(env, c, a);
    }
  }

  lemma EndedStep(env: Env, c: Config, a: Answer)
    requires Ended(c.phase)
    ensures Step(env, c, a) == c
  {
    NoWriteConflict(env, c, a);
    assert Updates([]) == [];
  }

  // The control flow on its own

  /** The part of a configuration that routing depends on. */
  datatype Control = Control(phase: Phase, count: int, max: int, critique: Option<Critique>,
      selected: Option<Hypothesis>)

  function ControlOf(c: Config): Control {
    Control(c.phase, c.state.iterationCount, c.state.maxIterations, c.state.critique, c.state.selected)
  }

  function Routed(k: Control): Control {
    if k.critique.Some? && k.critique.value.decision == NeedsMoreEvidence && k.count < k.max then
        k.(phase := AtSupervisor)
    else if k.critique.Some? && k.critique.value.decision == Approve then k.(phase := AtPlanning)
    else k.(phase := Done)
  }

  /**
   * What one superstep feeds into the control flow: an analysis' selection, a
   * critic's review, a call that raises.
   */
  datatype Input = Input(selection: Option<Hypothesis>, review: Critique, raises: bool)

  function ControlStep(k: Control, x: Input): Control {
    match k.phase
    case AtSupervisor => k.(phase := AtAnalysts)
    case AtAnalysts => k.(phase := AtJoin)
    case AtJoin => k.(phase := AtRca)
    case AtRca => k.(phase := AtCritic, selected := x.selection)
    case AtCritic =>
      if k.selected.None? then Routed(k) else Routed(k.(critique := Some(x.review), count := k.count + 1))
    case AtPlanning => k.(phase := AtExecution)
    case AtExecution => k.(phase := if x.raises then Crashed else AtVerification)
    case AtVerification => k.(phase := if x.raises then Crashed else Done)
    case Done => k
    case Crashed => k
  }

  function RunControl(k: Control, xs: seq<Input>): Control {
    if xs == [] then k else ControlStep(RunControl(k, xs[..|xs| - 1]), xs[|xs| - 1])
  }

  function ReviewIn(c: Config, a: Answer): Critique {
    if c.state.selected.Some? then Review(c.state.selected.value, c.state.evidence, a.critique) else a.critique
  }

  function InputOf(env: Env, c: Config, a: Answer): Input {
    Input(SelectHypothesis(a.hypotheses, a.primaryId), ReviewIn(c, a), NodeOutputs(env, c, a).Raised?)
  }

  lemma ControlFollowsRound(env: Env, c: Config, a: Answer)
    requires InRound(c.phase) && c.phase != AtCritic
    ensures ControlOf(Step(env, c, a)) == ControlStep(ControlOf(c), InputOf(env, c, a))
  {
    match c.phase
    case AtSupervisor => SupervisorStep(env, c, a);
    case AtAnalysts => AnalystsStep(env, c, a);
    case AtJoin => JoinStep(env, c, a);
    case AtRca => RcaStep(env, c, a);
  }

  lemma ControlFollowsCritic(env: Env, c: Config, a: Answer)
    requires c.phase == AtCritic
    ensures ControlOf(Step(env, c, a)) == ControlStep(ControlOf(c), InputOf(env, c, a))
  {
    hide Step;
    hide NodeOutputs;
    CriticStep(env, c, a);
  }

  lemma ControlFollowsPlan(env: Env, c: Config, a: Answer)
    requires c.phase == AtPlanning || c.phase == AtExecution
    ensures ControlOf(Step(env, c, a)) == ControlStep(ControlOf(c), InputOf(env, c, a))
  {
    match c.phase
    case AtPlanning => PlanningStep(env, c, a);
    case AtExecution => ExecutionStep(env, c, a);
  }

  lemma ControlFollowsVerification(env: Env, c: Config, a: Answer)
    requires c.phase == AtVerification
    ensures ControlOf(Step(env, c, a)) == ControlStep(ControlOf(c), InputOf(env, c, a))
  {
    VerificationStep(env, c, a);
  }

  lemma ControlFollows(env: Env, c: Config, a: Answer)
    ensures ControlOf(Step(env, c, a)) == ControlStep(ControlOf(c), InputOf(env, c, a))
  {
    if c.phase == AtCritic {
      ControlFollowsCritic(env, c, a);
    } else if InRound(c.phase) {
      ControlFollowsRound(env, c, a);
    } else if c.phase == AtVerification {
      ControlFollowsVerification(env, c, a);
    } else if InRemediation(c.phase) {
      ControlFollowsPlan(env, c, a);
    } else {
      EndedStep(env, c, a);
    }
  }

  function InitialControl(s: IncidentState): Control {
    Control(AtSupervisor, s.iterationCount, s.maxIterations, s.critique, s.selected)
  }

  /** What the supersteps of a run feed into its control flow. */
  function Inputs(env: Env, s: IncidentState, runner: ExecutionRunner.RunnerState, answers: seq<Answer>)
    : (xs: seq<Input>)
    ensures |xs| == |answers|
  {
    if answers == [] then [] else
      var n := |answers| - 1;
      Inputs(env, s, runner, answers[..n]) + [InputOf(env, Run(env, s, runner, answers[..n]), answers[n])]
  }

  lemma {:induction false} InputsAt(env: Env, s: IncidentState, runner: ExecutionRunner.RunnerState,
          answers: seq<Answer>, i: nat)
    requires i < |answers|
    ensures Inputs(env, s, runner, answers)[i] == InputOf(env, Run(env, s, runner, answers[..i]), answers[i])
    ensures Inputs(env, s, runner, answers)[..i] == Inputs(env, s, runner, answers[..i])
  {
    hide InputOf;
    hide Run;
    var n := |answers| - 1;
    if i < n {
      InputsAt(env, s, runner, answers[..n], i);
      assert answers[..n][..i] == answers[..i];
    }
  }

  /** The control flow of a run is a run of the control flow on exactly these inputs. */
  lemma {:induction false} ControlOfRun(env: Env, s: IncidentState, runner: ExecutionRunner.RunnerState,
          answers: seq<Answer>)
    ensures ControlOf(Run(env, s, runner, answers))
              == RunControl(InitialControl(s), Inputs(env, s, runner, answers))
  {
    hide Step;
    hide InputOf;
    hide ControlStep;
    if answers != [] {
      var n := |answers| - 1;
      var xs := Inputs(env, s, runner, answers);
      ControlOfRun(env, s, runner, answers[..n]);
      ControlFollows(env, Run(env, s, runner, answers[..n]), answers[n]);
      assert xs[..n] == Inputs(env, s, runner, answers[..n]);
    }
  }

  lemma ReviewOfUncited(c: Config, a: Answer)
    ensures c.state.selected.Some? && c.state.selected.value.supportingEvidenceIds == [] ==>
        ReviewIn(c, a) == a.critique
  {
  }

  /**
   * During a round the stored critique, if there is one, is from an earlier
   * round that asked for more evidence, and the iteration count leaves room.
   */
  ghost predicate RoundInv(k: Control) {
    && 0 <= k.count <= Max(1, k.max)
    && (InRound(k.phase) ==>
          && k.count < Max(1, k.max)
          && (k.critique.Some? ==> k.critique.value.decision == NeedsMoreEvidence && 1 <= k.count < k.max))
  }

  /** The control flow of a fresh incident. */
  ghost predicate FreshControl(k: Control) {
    k.phase == AtSupervisor && k.count == 0 && k.critique.None? && k.selected.None?
  }

  lemma StepKeepsRoundInv(k: Control, x: Input)
    requires RoundInv(k)
    ensures RoundInv(ControlStep(k, x)) && ControlStep(k, x).max == k.max
  {
  }

  lemma {:induction false} RunKeepsRoundInv(k: Control, xs: seq<Input>)
    requires FreshControl(k)
    ensures RoundInv(RunControl(k, xs)) && RunControl(k, xs).max == k.max
  {
    if xs != [] {
      RunKeepsRoundInv(k, xs[..|xs| - 1]);
      StepKeepsRoundInv(RunControl(k, xs[..|xs| - 1]), xs[|xs| - 1]);
    }
  }

  /** On every run the number of critiques stays within the limit, or one when the limit is lower. */
  lemma IterationsBounded(env: Env, s: IncidentState, runner: ExecutionRunner.RunnerState, answers: seq<Answer>)
    requires Fresh(s)
    ensures 0 <= Run(env, s, runner, answers).state.iterationCount <= Max(1, s.maxIterations)
  {
    ControlOfRun(env, s, runner, answers);
    RunKeepsRoundInv(InitialControl(s), Inputs(env, s, runner, answers));
  }

  // Termination

  lemma RunLast(env: Env, s: IncidentState, runner: ExecutionRunner.RunnerState, answers: seq<Answer>)
    requires answers != []
    ensures var n := |answers| - 1;
            Run(env, s, runner, answers) == Step(env, Run(env, s, runner, answers[..n]), answers[n])
  {
  }

  lemma RunRoundInv(env: Env, s: IncidentState, runner: ExecutionRunner.RunnerState, answers: seq<Answer>)
    requires Fresh(s)
    ensures RoundInv(ControlOf(Run(env, s, runner, answers)))
    ensures Run(env, s, runner, answers).state.maxIterations == s.maxIterations
  {
    ControlOfRun(env, s, runner, answers);
    RunKeepsRoundInv(InitialControl(s), Inputs(env, s, runner, answers));
  }

  lemma PhaseBefore(env: Env, c: Config, a: Answer)
    ensures Step(env, c, a).phase == AtExecution ==> c.phase == AtPlanning
    ensures Step(env, c, a).phase == AtVerification ==> c.phase == AtExecution
    ensures InRound(Step(env, c, a).phase) ==> InRound(c.phase)
    ensures Step(env, c, a).phase == AtPlanning ==> c.phase == AtCritic
  {
    hide Step;
    hide NodeOutputs;
    hide ReviewIn;
    ControlFollows(env, c, a);
  }

  /** Rounds completed by the critic whose analysis found a hypothesis, or those whose analysis found none. */
  function Rounds(answers: seq<Answer>, found: bool): nat {
    if answers == [] then 0 else
      var n := |answers| - 1;
      Rounds(answers[..n], found) + if n % 5 == 4 && (answers[n - 1].hypotheses != []) == found then 1 else 0
  }

  /** The control flow after these answers, all of them given while rounds were running. */
  ghost predicate OnClock(k: Control, answers: seq<Answer>) {
    && k.count == Rounds(answers, true)
    && |answers| / 5 == Rounds(answers, true) + Rounds(answers, false)
    && |answers| % 5 == (if InRound(k.phase) then Offset(k.phase) else 0)
    && (k.phase == AtCritic ==> answers != [] && (k.selected.Some? <==> answers[|answers| - 1].hypotheses != []))
  }

  lemma RoundArithmetic(n: nat)
    ensures n % 5 == 4 ==> (n + 1) % 5 == 0 && (n + 1) / 5 == n / 5 + 1
    ensures n % 5 < 4 ==> (n + 1) % 5 == n % 5 + 1 && (n + 1) / 5 == n / 5
  {
  }

  lemma RoundsLast(answers: seq<Answer>, a: Answer)
    ensures forall found ::
              Rounds(answers + [a], found) == Rounds(answers, found)
                + if |answers| % 5 == 4 && (answers[|answers| - 1].hypotheses != []) == found then 1 else 0
  {
    assert (answers + [a])[..|answers|] == answers;
  }

  lemma ClockTicks(k: Control, x: Input, answers: seq<Answer>, a: Answer)
    requires InRound(k.phase) && OnClock(k, answers)
    requires x.selection == SelectHypothesis(a.hypotheses, a.primaryId)
    ensures OnClock(ControlStep(k, x), answers + [a])
  {
    RoundsLast(answers, a);
    RoundArithmetic(|answers|);
  }

  /** While a run investigates, and after the round that ends its investigation, its control flow is on the clock. */
  lemma {:induction false} ClockOfRun(env: Env, s: IncidentState, runner: ExecutionRunner.RunnerState,
          answers: seq<Answer>)
    requires Fresh(s)
    requires answers != [] ==> InRound(Run(env, s, runner, answers[..|answers| - 1]).phase)
    ensures OnClock(ControlOf(Run(env, s, runner, answers)), answers)
    decreases |answers|
  {
    hide Step;
    hide OnClock;
    if answers == [] {
      FreshOnClock(s);
    } else {
      var n := |answers| - 1;
      var c := Run(env, s, runner, answers[..n]);
      if n > 0 {
        assert answers[..n][..n - 1] == answers[..n - 1];
        RunLast(env, s, runner, answers[..n]);
        PhaseBefore(env, Run(env, s, runner, answers[..n - 1]), answers[n - 1]);
      }
      ClockOfRun(env, s, runner, answers[..n]);
      ControlFollows(env, c, answers[n]);
      ClockTicks(ControlOf(c), InputOf(env, c, answers[n]), answers[..n], answers[n]);
      assert answers[..n] + [answers[n]] == answers;
    }
  }

  lemma FreshOnClock(s: IncidentState)
    requires Fresh(s)
    ensures OnClock(InitialControl(s), [])
  {
  }

  /** The iteration count is the number of completed rounds whose analysis found a hypothesis. */
  lemma IterationsCountFindings(env: Env, s: IncidentState, runner: ExecutionRunner.RunnerState, answers: seq<Answer>)
    requires Fresh(s)
    requires answers != [] ==> InRound(Run(env, s, runner, answers[..|answers| - 1]).phase)
    ensures Run(env, s, runner, answers).state.iterationCount == Rounds(answers, true)
    ensures |answers| / 5 == Rounds(answers, true) + Rounds(answers, false)
  {
    ClockOfRun(env, s, runner, answers);
  }

  /** Supersteps since the critic's, during a remediation. */
  function SinceCritic(p: Phase): nat
    requires InRemediation(p)
  {
    match p
    case AtPlanning => 1
    case AtExecution => 2
    case AtVerification => 3
  }

  /** The planning that a remediation under way began with. */
  lemma {:induction false} PlanningOf(env: Env, s: IncidentState, runner: ExecutionRunner.RunnerState,
          answers: seq<Answer>)
    returns (m: nat)
    requires InRemediation(Run(env, s, runner, answers).phase)
    ensures m + SinceCritic(Run(env, s, runner, answers).phase) == |answers| + 1
    ensures Run(env, s, runner, answers[..m]).phase == AtPlanning
    decreases |answers|
  {
    hide Step;
    assert answers != [];
    var n := |answers| - 1;
    if Run(env, s, runner, answers).phase == AtPlanning {
      m := |answers|;
      assert answers[..m] == answers;
    } else {
      RunLast(env, s, runner, answers);
      PhaseBefore(env, Run(env, s, runner, answers[..n]), answers[n]);
      m := PlanningOf(env, s, runner, answers[..n]);
      assert answers[..n][..m] == answers[..m];
    }
  }

  lemma {:induction false} RoundsMonotone(answers: seq<Answer>, m: nat, found: bool)
    requires m <= |answers|
    ensures Rounds(answers[..m], found) <= Rounds(answers, found)
  {
    if m == |answers| {
      assert answers[..m] == answers;
    } else {
      var n := |answers| - 1;
      assert answers[..n][..m] == answers[..m];
      RoundsMonotone(answers[..n], m, found);
    }
  }

  lemma ClockAtRoundEnd(env: Env, s: IncidentState, runner: ExecutionRunner.RunnerState, answers: seq<Answer>)
    requires Fresh(s)
    requires var p := Run(env, s, runner, answers).phase; InRound(p) || p == AtPlanning
    ensures OnClock(ControlOf(Run(env, s, runner, answers)), answers)
  {
    hide Step;
    if answers != [] {
      var n := |answers| - 1;
      RunLast(env, s, runner, answers);
      PhaseBefore(env, Run(env, s, runner, answers[..n]), answers[n]);
    }
    ClockOfRun(env, s, runner, answers);
  }

  /**
   * Every run has ended after five supersteps for each iteration and for each
   * round without a hypothesis, and three for the remediation.
   */
  lemma TerminatesByFindings(env: Env, s: IncidentState, runner: ExecutionRunner.RunnerState, answers: seq<Answer>)
    requires Fresh(s)
    requires |answers| >= 5 * (Max(1, s.maxIterations) + Rounds(answers, false)) + 3
    ensures Ended(Run(env, s, runner, answers).phase)
  {
    hide Step;
    hide Run;
    hide Rounds;
    var p := Run(env, s, runner, answers).phase;
    if InRound(p) {
      ClockAtRoundEnd(env, s, runner, answers);
      RunRoundInv(env, s, runner, answers);
    } else if InRemediation(p) {
      var m := PlanningOf(env, s, runner, answers);
      ClockAtRoundEnd(env, s, runner, answers[..m]);
      RunRoundInv(env, s, runner, answers[..m]);
      RoundsMonotone(answers, m, false);
    }
  }

  lemma {:induction false} NoEmptyRounds(answers: seq<Answer>)
    requires forall i :: 0 <= i < |answers| ==> answers[i].hypotheses != []
    ensures Rounds(answers, false) == 0
  {
    if answers != [] {
      NoEmptyRounds(answers[..|answers| - 1]);
    }
  }

  /**
   * When every analysis yields at least one hypothesis, every run has ended
   * after five supersteps for each iteration and three for the remediation.
   */
  lemma TerminatesWithHypotheses(env: Env, s: IncidentState, runner: ExecutionRunner.RunnerState, answers: seq<Answer>)
    requires Fresh(s) && forall i :: 0 <= i < |answers| ==> answers[i].hypotheses != []
    requires |answers| >= 5 * Max(1, s.maxIterations) + 3
    ensures Ended(Run(env, s, runner, answers).phase)
  {
    NoEmptyRounds(answers);
    TerminatesByFindings(env, s, runner, answers);
  }

  // ... and without that assumption

  /** A round in which the analysis yields nothing, or one hypothesis on which the critic wants more evidence. */
  function RoundAnswer(hypotheses: seq<Hypothesis>): Answer {
    Answer([], [], [], [], [], hypotheses, "", Critique(NeedsMoreEvidence, ""), [],
        (n: nat) => ExecutionRunner.ToolSuccess(""), Assessment(Recovered, false))
  }

  /** The first answers give a hypothesis, later ones none. */
  function StallingAnswers(n: nat): (r: seq<Answer>)
    ensures |r| == n
    ensures forall i :: 0 <= i < n ==> r[i] == RoundAnswer(if i < 5 then [Hypothesis("", "", [])] else [])
  {
    seq(n, i requires 0 <= i < n => RoundAnswer(if i < 5 then [Hypothesis("", "", [])] else []))
  }

  /** The run after `n` stalling answers: it keeps going round. */
  ghost predicate Stalling(k: Control, n: nat) {
    && InRound(k.phase) && Offset(k.phase) == n % 5
    && (n < 5 ==> k.count == 0 && k.critique.None?)
    && (n == 4 ==> k.selected == Some(Hypothesis("", "", [])))
    && (n >= 5 ==> k.count == 1 && k.critique == Some(Critique(NeedsMoreEvidence, "")))
    && (n >= 5 && k.phase == AtCritic ==> k.selected.None?)
  }

  ghost predicate StallingInput(x: Input, n: nat, k: Control) {
    && x.selection == (if n < 5 then Some(Hypothesis("", "", [])) else None)
    && (k.selected == Some(Hypothesis("", "", [])) ==> x.review == Critique(NeedsMoreEvidence, ""))
  }

  lemma StallingStep(k: Control, n: nat, x: Input)
    requires Stalling(k, n) && k.max >= 2 && StallingInput(x, n, k)
    ensures Stalling(ControlStep(k, x), n + 1)
  {
  }

  lemma {:induction false} StallingControl(k: Control, xs: seq<Input>)
    requires FreshControl(k) && k.max >= 2
    requires forall i :: 0 <= i < |xs| ==> StallingInput(xs[i], i, RunControl(k, xs[..i]))
    ensures Stalling(RunControl(k, xs), |xs|)
  {
    if xs != [] {
      var n := |xs| - 1;
      forall i | 0 <= i < n ensures StallingInput(xs[..n][i], i, RunControl(k, xs[..n][..i])) {
        assert xs[..n][..i] == xs[..i];
        assert StallingInput(xs[i], i, RunControl(k, xs[..i]));
      }
      StallingControl(k, xs[..n]);
      RunKeepsRoundInv(k, xs[..n]);
      assert StallingInput(xs[n], n, RunControl(k, xs[..n]));
      StallingStep(RunControl(k, xs[..n]), n, xs[n]);
    }
  }

  lemma StallingRun(env: Env, s: IncidentState, runner: ExecutionRunner.RunnerState, n: nat)
    requires Fresh(s) && s.maxIterations >= 2
    ensures !Ended(Run(env, s, runner, StallingAnswers(n)).phase)
  {
    var k := InitialControl(s);
    var answers := StallingAnswers(n);
    var xs := Inputs(env, s, runner, answers);
    hide Run;
    hide Inputs;
    forall i | 0 <= i < n ensures StallingInput(xs[i], i, RunControl(k, xs[..i])) {
      InputsAt(env, s, runner, answers, i);
      ControlOfRun(env, s, runner, answers[..i]);
      ReviewOfUncited(Run(env, s, runner, answers[..i]), answers[i]);
    }
    ControlOfRun(env, s, runner, answers);
    StallingControl(k, xs);
  }

  ghost predicate AlwaysEnds(env: Env, s: IncidentState, runner: ExecutionRunner.RunnerState, bound: nat) {
    forall answers :: |answers| >= bound ==> Ended(Run(env, s, runner, answers).phase)
  }

  /** Supersteps left at most, when there is one iteration. */
  function SuperstepsLeft(p: Phase): nat {
    match p
    case AtSupervisor => 8
    case AtAnalysts => 7
    case AtJoin => 6
    case AtRca => 5
    case AtCritic => 4
    case AtPlanning => 3
    case AtExecution => 2
    case AtVerification => 1
    case _ => 0
  }

  lemma OneIterationStep(k: Control, x: Input)
    requires RoundInv(k) && k.max <= 1
    ensures var p := ControlStep(k, x).phase;
            if Ended(k.phase) then Ended(p) else SuperstepsLeft(p) < SuperstepsLeft(k.phase)
  {
  }

  lemma {:induction false} EndsWithOneIteration(k: Control, xs: seq<Input>)
    requires FreshControl(k) && k.max <= 1
    ensures var p := RunControl(k, xs).phase; Ended(p) || SuperstepsLeft(p) + |xs| <= 8
  {
    if xs != [] {
      var n := |xs| - 1;
      EndsWithOneIteration(k, xs[..n]);
      RunKeepsRoundInv(k, xs[..n]);
      OneIterationStep(RunControl(k, xs[..n]), xs[n]);
    }
  }

  /**
   * Without any assumption on the answers, runs are bounded exactly when the
   * limit is at most one. With a higher limit, as the default three is, an
   * analysis without hypotheses leaves the last critique in place, which sends
   * the run round again without counting.
   */
  lemma BoundedExactly(env: Env, s: IncidentState, runner: ExecutionRunner.RunnerState)
    requires Fresh(s)
    ensures (exists bound: nat :: AlwaysEnds(env, s, runner, bound)) <==> s.maxIterations <= 1
  {
    if s.maxIterations <= 1 {
      EndsWithinEight(env, s, runner);
    } else {
      forall bound: nat ensures !AlwaysEnds(env, s, runner, bound) {
        NotBounded(env, s, runner, bound);
      }
    }
  }

  lemma EndsWithinEight(env: Env, s: IncidentState, runner: ExecutionRunner.RunnerState)
    requires Fresh(s) && s.maxIterations <= 1
    ensures AlwaysEnds(env, s, runner, 8)
  {
    forall answers | |answers| >= 8 ensures Ended(Run(env, s, runner, answers).phase) {
      var xs := Inputs(env, s, runner, answers);
      ControlOfRun(env, s, runner, answers);
      EndsWithOneIteration(InitialControl(s), xs);
      RunKeepsRoundInv(InitialControl(s), xs);
    }
  }

  lemma NotBounded(env: Env, s: IncidentState, runner: ExecutionRunner.RunnerState, bound: nat)
    requires Fresh(s) && s.maxIterations >= 2
    ensures !AlwaysEnds(env, s, runner, bound)
  {
    StallingRun(env, s, runner, bound);
    assert |StallingAnswers(bound)| >= bound;
  }

  // The first round, when every superstep is given the same answer

  function Repeated(a: Answer, n: nat): (r: seq<Answer>)
    ensures |r| == n && forall i :: 0 <= i < n ==> r[i] == a
  {
    if n == 0 then [] else Repeated(a, n - 1) + [a]
  }

  lemma RepeatedLast(env: Env, s: IncidentState, runner: ExecutionRunner.RunnerState, a: Answer, n: nat)
    ensures Run(env, s, runner, Repeated(a, n + 1)) == Step(env, Run(env, s, runner, Repeated(a, n)), a)
  {
    RunSnoc(env, s, runner, Repeated(a, n), a);
  }

  lemma FirstAnalysis(env: Env, s: IncidentState, runner: ExecutionRunner.RunnerState, a: Answer)
    requires Fresh(s)
    ensures var c := Run(env, s, runner, Repeated(a, 4));
            && c.phase == AtCritic && c.runner == runner
            && c.state.selected == SelectHypothesis(a.hypotheses, a.primaryId)
            && c.state.evidence == a.logs + a.metrics + a.code + a.memory
            && c.state.iterationCount == 0 && c.state.incidentId == s.incidentId
  {
    hide Step;
    hide Run;
    hide SelectHypothesis;
    RepeatedLast(env, s, runner, a, 0);
    RepeatedLast(env, s, runner, a, 1);
    RepeatedLast(env, s, runner, a, 2);
    RepeatedLast(env, s, runner, a, 3);
    RunOfNothing(env, s, runner);
    SupervisorStep(env, Run(env, s, runner, Repeated(a, 0)), a);
    AnalystsStep(env, Run(env, s, runner, Repeated(a, 1)), a);
    JoinStep(env, Run(env, s, runner, Repeated(a, 2)), a);
    RcaStep(env, Run(env, s, runner, Repeated(a, 3)), a);
  }

  lemma FirstRound(env: Env, s: IncidentState, runner: ExecutionRunner.RunnerState, a: Answer)
    requires Fresh(s) && a.hypotheses != []
    ensures var c := Run(env, s, runner, Repeated(a, 5));
            && c.phase == NextPhase(AtCritic, c.state)
            && c.state.selected == SelectHypothesis(a.hypotheses, a.primaryId)
            && c.state.critique
                   == Some(Review(c.state.selected.value, a.logs + a.metrics + a.code + a.memory, a.critique))
            && c.state.iterationCount == 1 && c.state.currentStage == Critiquing
            && c.state.incidentId == s.incidentId && c.runner == runner
  {
    hide Step;
    hide Run;
    hide Review;
    hide Repeated;
    FirstAnalysis(env, s, runner, a);
    RepeatedLast(env, s, runner, a, 4);
    CriticStep(env, Run(env, s, runner, Repeated(a, 4)), a);
    SomethingSelected(a);
  }

  lemma RunOfNothing(env: Env, s: IncidentState, runner: ExecutionRunner.RunnerState)
    ensures Run(env, s, runner, []) == Config(AtSupervisor, s, runner)
  {
  }

  lemma SomethingSelected(a: Answer)
    requires a.hypotheses != []
    ensures SelectHypothesis(a.hypotheses, a.primaryId).Some?
  {
  }
}
