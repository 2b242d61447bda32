# OpsPilot AI: a verified model of the deterministic core

OpsPilot AI investigates incidents with language-model agents and then plans,
executes and verifies a remediation. Around the models sit deterministic,
stateful components. This project models those components in Dafny and proves
what they promise, for every input, every interleaving and every run. Whatever
a model, a tool, an embedding service or a user answers is a free parameter.

Check the whole project with `dafny verify dfyconfig.toml`.

## The modules

| file | models |
|---|---|
| `BrokerProtocol.dfy` | the event broker as a state machine over publish, subscribe, pull, timeout and close |
| `EventBroker.dfy` | the broker as shared queue objects, each method one step of that machine |
| `Domain.dfy`, `StateUpdate.dfy` | the incident state, what a node writes, and the reducers that merge writes |
| `Workflow.dfy` | the graph: nodes, edges, routing, one superstep |
| `NodeWrites.dfy` | what each superstep writes, field by field |
| `WorkflowRuns.dfy`, `WorkflowOutcomes.dfy` | invariants, termination and outcomes of whole runs |
| `ServiceStream.dfy`, `StreamedRuns.dfy`, `IncidentService.dfy` | the service's shadow state, the events it publishes, what it makes of whole runs, the service object |
| `Approvals.dfy` | the approval state machine |
| `ApprovalGate.dfy` | runs during which decisions are submitted: what is executed with and without approval |
| `ExecutionRunner.dfy` | the idempotency guard and the compensation |
| `RiskPolicy.dfy` | topology, blast radius, risk tiers, approval roles |
| `Json.dfy`, `JsonOrder.dfy`, `IdempotencyKey.dfy` | the sorted-key JSON printer, a parser that undoes it, and the hashed text |
| `GuardedActions.dfy` | assessment, key and guard together |
| `StableSort.dfy` | the meaning of a stable sort, used by all four stores |
| `MockRepo.dfy`, `TelemetryStore.dfy`, `Cosine.dfy`, `VectorStore.dfy`, `EpisodicMemory.dfy` | the stores |
| `ModelRouter.dfy` | provider failover and usage accounting |
| `Text.dfy`, `Lists.dfy`, `Arithmetic.dfy`, `Wrappers.dfy` | string operations, first matches and sublists, maximum and minimum, optional values and results |

Code that changes objects is modelled by classes whose methods are tied to a
specification function or to the protocol; the properties are then lemmas about
that function or over all runs of the protocol.

## What the proofs bring out

Some statements in the repository's documents, or natural expectations of its
code, do not hold as they stand. For each there is a lemma with the exact
condition under which it does, and a lemma with an input on which it fails.

- **Termination.** The critic returns early, leaving the previous critique in
  place, when no hypothesis is selected. For a limit of two iterations or more,
  the default being three, the graph itself has runs of any length
  (`WorkflowRuns.BoundedExactly`, `WorkflowRuns.StallingRun`). A run ends after
  five supersteps for each iteration and each round without a hypothesis, and
  three for a remediation (`WorkflowRuns.TerminatesByFindings`). In the deployed
  system the graph engine's own recursion limit cuts long runs; it is not
  modelled.
- **Approval.** The repository's README and design documents describe an
  approval gate before execution. Submissions change nothing in a run but the
  recorded decisions (`ApprovalGate.SubmissionsNeverMatter`). So the gate holds
  exactly when each action that needs approval and is handed to the runner
  happens to be approved by a submission accepted between the planning and the
  execution (`ApprovalGate.GateHeldExactly`, `ApprovalGate.GateOfNewIncident`).
  The setting for automatic approval does not exist among the settings, so that
  means every handed action (`ApprovalGate.GateByDefault`). In the default
  topology a CRITICAL rollback runs with no decision on it
  (`ApprovalGate.UndecidedCriticalActionRuns`, `ApprovalGate.GateFails`); with an
  approval in time the gate of the same run holds
  (`ApprovalGate.ApprovalInTime`). What does hold is that only a critic's approval
  of the selected, grounded hypothesis leads to execution
  (`WorkflowOutcomes.RemediationOnlyAfterApproval`).
- **Compensation.** A rollback copies the action with its key. Whether it reaches
  a tool has an exact condition (`ExecutionRunner.RollbackCases`). Once a keyed
  rollback or configuration change has succeeded, its compensation is skipped and
  still reported as ROLLED_BACK, in any call history
  (`ExecutionRunner.SucceededKeyedActionIsNotCompensated`) and in any workflow run
  (`WorkflowOutcomes.SucceededActionIsNotRolledBack`); instances are
  `ExecutionRunner.RollbackOfRollbackIsSkipped` and
  `ApprovalGate.ThatRunIsNotCompensated`. Conversely, a compensation that succeeds
  first blocks the action itself (`GuardedActions.SkippedExactly`,
  `GuardedActions.CompensationBlocksAction`).
- **At most once.** The guard's check and its record are separate steps. Answers
  can give a key two successes exactly when some start reaches a tool while
  another runs under the key (`ExecutionRunner.AtMostOnceExactly`), as two callers
  with the same action do (`ExecutionRunner.SameActionTwice`). The graph calls the
  runner sequentially.
- **Keys.** Two actions share the hashed text exactly when their parameters mean
  the same and their joined names are equal (`IdempotencyKey.SharedKey`), so
  names with colons can collide (`IdempotencyKey.ColonsCollide`). The service's
  own incident ids are hexadecimal and cannot.
- **Target.** A tool acts on the action's target exactly when no parameter named
  `target_service` overrides it (`ExecutionRunner.DispatchedTarget`,
  `ExecutionRunner.TargetOverridden`).
- **Terminal events.** A run publishes a terminal event exactly when it raises or
  ends RESOLVED (`ServiceStream.TerminalEventPublished`,
  `StreamedRuns.TerminalEventOfRun`); after a challenge by the critic, or a
  rollback, its subscribers go on waiting (`StreamedRuns.ChallengedRunIsSilent`,
  `StreamedRuns.TerminalEventOfRemediation`). The event they stop at tells the
  final stage exactly when no report of a resolved incident raises
  (`ServiceStream.TerminalEventTellsStage`); when one does, they are told
  `resolved` about an incident that has FAILED
  (`StreamedRuns.ResolvedEventOfFailedIncident`). No code publishes `escalated`.
- **Budgets and limits.** Cutting a memory text appends a mark, so an answer is
  within the budget exactly when its candidates were
  (`EpisodicMemory.BudgetHonoured`, `EpisodicMemory.BudgetOverrun`). A telemetry
  limit is honoured exactly when it is at least one, or nothing matches limit
  zero (`TelemetryStore.LimitHonoured`, `TelemetryStore.LimitZeroReturnsAll`).
- **Listed approvals.** A listed approval id reaches its action exactly when no
  earlier action has the same id or the listed id itself
  (`Approvals.ListedIdReachesItsAction`, `Approvals.ListedIdReachesAnother`).

## Model

| member | source | states |
|---|---|---|
| BrokerProtocol.Delivery | apps/api/services/event_stream.py:37-75 | in every interleaving, what a live subscriber was given followed by its queue is exactly the contiguous end of its incident's events from at most one buffer before it subscribed; a closed one holds a prefix |
| BrokerProtocol.HistoryIsSuffix | apps/api/services/event_stream.py:37-42 | the replay buffer is always the last min(n, size) events published to the incident |
| BrokerProtocol.TerminalIsLast | apps/api/services/event_stream.py:67-77 | nothing, not even a ping, follows a resolved, failed or escalated event |
| BrokerProtocol.RegisteredAreLive | apps/api/services/event_stream.py:61-92 | after every step the registered queues are exactly those of the subscribers that are not closed, each once |
| BrokerProtocol.PublishIsLocal | apps/api/services/event_stream.py:37-47 | publishing to one incident leaves subscribers and buffers of all others unchanged |
| BrokerProtocol.Progress | apps/api/services/event_stream.py:67-92 | in every continuation that does not close a live subscriber, as many pulls as it has records due bring it everything published to its incident since its start, or everything up to a terminal event; after a terminal event one more pull has closed it for good |
| BrokerProtocol.PullYields | apps/api/services/event_stream.py:67-77 | a pull gives a live subscriber the first record of its queue, and only resolved, failed and escalated make it end |
| BrokerProtocol.PullEnds | apps/api/services/event_stream.py:76-92 | in every run, pulling a subscriber that has had a terminal event closes it without output and leaves it in no registry list |
| BrokerProtocol.ClosedStays | apps/api/services/event_stream.py:84-92 | no later step changes a closed subscriber |
| BrokerProtocol.StepKeepsInv | apps/api/services/event_stream.py:24-92 | each atomic step keeps the protocol's invariant from any state satisfying it |
| EventBroker.EventBroker.Publish | apps/api/services/event_stream.py:24-47 | the shared queue objects move as one publish step of the protocol moves them |
| EventBroker.EventBroker.Subscribe | apps/api/services/event_stream.py:59-65 | replay and registration are one subscribe step, on a new queue that nobody else holds |
| EventBroker.EventBroker.Pull | apps/api/services/event_stream.py:67-92 | taking and yielding a record, or ending after a terminal one, is one pull step; an ending generator is closed and unregistered |
| EventBroker.EventBroker.Timeout | apps/api/services/event_stream.py:78-83 | a timeout yields a ping exactly to a live subscriber and changes nothing else |
| EventBroker.EventBroker.Close | apps/api/services/event_stream.py:84-92 | cleanup removes exactly this subscriber's queue from the registry |
| EventBroker.EventBroker.RemoveQueue | apps/api/services/event_stream.py:89-90 | the search by identity removes exactly the queue of the leaving subscriber |
| EventBroker.EventBroker.PutAll | apps/api/services/event_stream.py:45-47 | the fan-out loop appends the record once to each receiver's queue and to no other |
| Workflow.PhasesFollowEdges | src/orchestration/graph.py:346-394 | the active nodes of the next superstep are exactly the targets of the edges of the active ones |
| Workflow.FindHypothesis | src/orchestration/graph.py:181-187 | the loop selects the first hypothesis with the primary id |
| Workflow.NoWriteConflict | src/orchestration/graph.py:55-167 | no two nodes of one superstep write the same overwritten field, so no merge fails |
| Workflow.AnalystsStep | src/orchestration/graph.py:73-167 | the four parallel analysts together append their evidence and four events and change no other field |
| Workflow.AnalystsInAnyOrder | src/domain/state.py:177-192 | merging the analysts' updates in any other order changes nothing but the order of evidence and timeline |
| Workflow.ExecuteAll | src/orchestration/graph.py:257-275 | unless a call raises, results match the plan's actions one to one, in order, and none is a rollback; no call raises when all parameters unpack |
| Workflow.RaisingStops | src/orchestration/graph.py:260-261 | nothing is executed after the action whose call raises |
| Workflow.HandedMeaning | src/orchestration/graph.py:260-262 | the actions handed to the runner are those up to the first whose call raises, or all; the calls before it return and none is made after it |
| Workflow.IncidentWorkflow.RcaNode | src/orchestration/graph.py:174-200 | the selection loop computes the specified update: the primary hypothesis, else the first, else none |
| Workflow.IncidentWorkflow.ExecutionNode | src/orchestration/graph.py:250-275 | the loop leaves the runner and the update, or the exception, that executing the actions one after the other gives |
| Workflow.IncidentWorkflow.VerificationNode | src/orchestration/graph.py:277-328 | at most one rollback, of the last action, and the update for either branch |
| NodeWrites.WritersAreActive | src/orchestration/graph.py:346-394 | every update of a superstep comes from one of its active nodes, each once |
| NodeWrites.AnalystsReport | src/orchestration/graph.py:73-167 | each analyst's update has the evidence that this analyst found |
| NodeWrites.SupervisorAndJoinWrite | src/orchestration/graph.py:55-71 | the supervisor stores its tasks in stage PLANNING; the join only sets INVESTIGATING |
| NodeWrites.SelectionMeaning | src/orchestration/graph.py:181-187 | the selected hypothesis is the first with the primary id whenever some hypothesis has it, else the first of all, and there is none only without hypotheses |
| NodeWrites.AnalysisWrites | src/orchestration/graph.py:174-200 | a whole superstep of the analysis: it stores every hypothesis and that selection, adds one event and changes nothing else |
| NodeWrites.CriticDecides | src/agents/critic.py:27-61 | the model's verdict is stored if and only if every cited id is the id of a collected item, else a challenge that ends the run; planning follows if and only if the model approved and all citations are collected |
| NodeWrites.CriticPasses | src/orchestration/graph.py:202-206 | without a selected hypothesis the critic writes its stage only, and the previous critique routes again |
| NodeWrites.CitedHypothesisIsRemediated | src/agents/critic.py:27-61 | a fresh run whose hypothesis cites a collected id and is approved comes to planning |
| NodeWrites.PlanningWrites | src/orchestration/graph.py:230-248 | the plan has every proposed action, assessed, in its place; the pending approvals are exactly those that need one, in order |
| NodeWrites.PlanningPasses | src/orchestration/graph.py:226-228 | without a selected hypothesis planning writes FAILED only and execution follows |
| NodeWrites.ExecutionWrites | src/orchestration/graph.py:250-275 | one event for each action in order and the results; without actions only FAILED |
| NodeWrites.ExecutionCalls | src/orchestration/graph.py:257-262 | an execution is a chain of operator's calls, one for each action with its own parameters, each in the state the one before left; it is complete, or ends with the first call that raises |
| NodeWrites.VerificationWrites | src/orchestration/graph.py:277-328 | the state, the runner and the stage after a verification: FAILED with one rollback of the last action, RESOLVED, or INVESTIGATING |
| NodeWrites.RunForOperators | src/tools/registry.py:89-105 | on every run each tool that is called is registered and requires no more than an operator |
| StateUpdate.OrderIndependent | src/domain/state.py:177-192 | compatible updates merged in any order agree on overwritten fields and on evidence and timeline up to order |
| WorkflowRuns.ControlOfRun | src/orchestration/graph.py:181-222 | the control flow of every run is a run of a five-field machine on exactly what each superstep selects, reviews or raises |
| WorkflowRuns.IterationsBounded | src/orchestration/graph.py:202-222 | on every run, whatever is answered, iteration_count stays within max(1, max_iterations) |
| WorkflowRuns.IterationsCountFindings | src/orchestration/graph.py:202-222 | while a run investigates, iteration_count is the number of completed rounds whose analysis found a hypothesis, and every five supersteps are one round |
| WorkflowRuns.TerminatesByFindings | src/orchestration/graph.py:330-394 | every run has ended after 5 * (max(1, max_iterations) + e) + 3 supersteps, where e is the number of its rounds without a hypothesis |
| WorkflowRuns.TerminatesWithHypotheses | src/orchestration/graph.py:330-394 | if every analysis yields a hypothesis, a run has ended after 5 * max(1, max_iterations) + 3 supersteps |
| WorkflowRuns.StallingRun | src/orchestration/graph.py:202-206 | with a limit of two or more there are runs of every length that have not ended |
| WorkflowRuns.BoundedExactly | src/orchestration/graph.py:330-344 | runs are bounded for all answers if and only if max_iterations is at most one |
| WorkflowOutcomes.RemediationOnlyAfterApproval | src/orchestration/graph.py:202-248 | whenever planning, execution or verification runs, the critique is an approval issued this round for the hypothesis still selected, and all its cited ids are collected |
| WorkflowOutcomes.ApprovalIsGrounded | src/agents/critic.py:27-61 | a critique that approves implies that every cited evidence id is collected |
| WorkflowOutcomes.NothingExecutedBeforePlan | src/orchestration/graph.py:55-222 | until a plan is made no run has a plan or a result or has called the runner |
| WorkflowOutcomes.RemediationOutcome | src/orchestration/graph.py:224-328 | unless a call raises, results match actions in order; FAILED iff a rollback was recommended and there is an action (the last one alone is compensated); else RESOLVED iff recovered; the timeline growth; a call that raises ends the run where it is |
| WorkflowOutcomes.SucceededActionIsNotRolledBack | src/orchestration/graph.py:303-321 | in every run whose last action compensates in kind and succeeded under a key, the recommended rollback runs no tool, is reported ROLLED_BACK and leaves the incident FAILED |
| WorkflowOutcomes.TimelineOfRounds | src/orchestration/graph.py:55-222 | the timeline grows by six events a round and one more for each completed round whose analysis found a hypothesis |
| WorkflowOutcomes.TimelineOfRemediation | src/orchestration/graph.py:55-328 | the timeline of a whole remediated run in which no call raises: seven events for each round with a hypothesis, six for each without, one per action, two, and one if rolled back |
| WorkflowOutcomes.RunKeepsGuard | src/orchestration/graph.py:250-328 | a whole run with its compensation never dispatches under a key after a success under it |
| ApprovalGate.DecisionsNeverMatter | src/orchestration/graph.py:346-394 | from a state with any other decisions every run takes the same steps, calls the same tools and writes the same state |
| ApprovalGate.SubmissionsNeverMatter | apps/api/services/incident_service.py:290-334 | a run with any submissions at any moments is the run without them, but for the recorded decisions |
| ApprovalGate.SessionIsShadow | apps/api/services/incident_service.py:133-153 | the state of a run with submissions is the service's shadow after the same operations |
| ApprovalGate.DecisionsAreSubmissions | apps/api/services/incident_service.py:296-334 | the decisions at any moment are those from before the run and those of the submissions accepted so far |
| ApprovalGate.GateHeldExactly | src/orchestration/graph.py:246-275 | over every run with every submission, crashed runs included: no action is handed to the runner without the approval it needs if and only if each was approved before the run or by a submission accepted between planning and execution |
| ApprovalGate.GateOfNewIncident | src/orchestration/graph.py:246-275 | for a new incident the approvals have to be accepted between planning and execution |
| ApprovalGate.GateByDefault | src/safety/policy.py:106-111 | without automatic approval that goes for every action handed to the runner |
| ApprovalGate.GateWithoutSubmissions | src/orchestration/graph.py:246-275 | without submissions the gate holds if and only if no handed action needs approval |
| ApprovalGate.GateOfExecutedPlan | src/orchestration/graph.py:246-275 | if in addition no call raises, it holds if and only if no action of the plan needs approval |
| ApprovalGate.UndecidedCriticalActionRuns | src/orchestration/graph.py:260-261 | a run in the default topology whose CRITICAL action is dispatched and succeeds with no decision on it |
| ApprovalGate.GateFails | src/orchestration/graph.py:260-261 | the gate does not hold on that run |
| ApprovalGate.ApprovalInTime | apps/api/services/incident_service.py:290-334 | an administrator's approval between planning and execution makes it hold on the same run |
| ApprovalGate.ThatRunIsNotCompensated | src/orchestration/graph.py:303-321 | the rollback recommended for that run calls no tool |
| ServiceStream.EventsRebuildShadow | apps/api/services/incident_service.py:133-160 | after each merged update the published evidence and thoughts are exactly what the shadow gained, in order |
| ServiceStream.RunEventsRebuildState | apps/api/services/incident_service.py:122-181 | the same for everything a run publishes, however it ends |
| ServiceStream.NodeEventsMeaning | apps/api/services/incident_service.py:136-160 | each item of evidence, then each thought, then the stage after the merge, with their event names, payloads and node |
| ServiceStream.StagesOfRun | apps/api/services/incident_service.py:123-160 | the stage events of a whole run tell PLANNING and then the shadow's stage after each node, with that node |
| ServiceStream.EndingMeaning | apps/api/services/incident_service.py:162-181 | a raised run fails the incident, records the error and says so; a resolved one says so first |
| ServiceStream.TerminalEventPublished | apps/api/services/incident_service.py:162-181 | a terminal event is published if and only if the engine raised or the stage is RESOLVED |
| ServiceStream.TerminalEventTellsStage | apps/api/services/incident_service.py:162-181 | the first terminal event agrees with the final stage if and only if no report raised on a resolved incident |
| StreamedRuns.ChallengedRunIsSilent | apps/api/services/incident_service.py:162-171 | a fresh run that ends after a challenge publishes no terminal event |
| StreamedRuns.TerminalEventOfRun | apps/api/services/incident_service.py:129-171 | a whole run that completes has published a terminal event if and only if it ends RESOLVED |
| StreamedRuns.TerminalEventOfRemediation | apps/api/services/incident_service.py:162-171 | a completed remediation publishes one if and only if nothing was rolled back and the verifier saw recovery; one that ends FAILED by a rollback publishes none |
| StreamedRuns.ResolvedEventOfFailedIncident | apps/api/services/incident_service.py:162-181 | a fresh run of eight supersteps whose subscribers stop at resolved while the raising report leaves the incident FAILED |
| ServiceStream.ShadowFollowsGraph | apps/api/services/incident_service.py:133-153 | at the end of every superstep of every run, in any order of completion and with any approvals between, the shadow equals the graph's state up to the order of evidence and timeline |
| StreamedRuns.ShadowOfStream | apps/api/services/incident_service.py:129-153 | merging the stream of a run in the listed order gives exactly the graph's state |
| ServiceStream.DrainedSubscriberHoldsState | apps/api/services/event_stream.py:59-75 | a subscriber that missed nothing and has no evidence or thought left in its queue holds the evidence and timeline gained so far, in any interleaving |
| ServiceStream.DrainedSubscriberHoldsFinalState | apps/api/services/event_stream.py:59-77 | the same against the final state once the run's last events are published, for every ending |
| IncidentService.IncidentService.CreateIncident | apps/api/services/incident_service.py:83-98 | the stored incident has the given id, title and services, one CREATED event by the system, empty lists and a limit of three iterations |
| IncidentService.IncidentService.MergeAndPublish | apps/api/services/incident_service.py:133-160 | one stream item merges into the incident and publishes its evidence, thoughts and stage in that order |
| IncidentService.IncidentService.RunInvestigation | apps/api/services/incident_service.py:113-181 | the coroutine leaves the merged state and extends the broker's trace by exactly the run's events, for every ending |
| IncidentService.IncidentService.Finish | apps/api/services/incident_service.py:162-181 | the final status, and the failure branch also when the report of a resolved incident raises |
| IncidentService.IncidentService.GetApprovals | apps/api/services/incident_service.py:259-288 | the dictionary of decisions and the loop give each action its last decision, else PENDING or AUTO_APPROVED |
| IncidentService.IncidentService.SubmitApproval | apps/api/services/incident_service.py:290-347 | the searches and checks append one decision to this incident and schedule its publication when an event loop runs, or refuse without any change |
| IncidentService.IncidentService.RunScheduled | apps/api/services/incident_service.py:337-345 | a background task publishes exactly the event it was created with |
| Approvals.ListedIdReachesItsAction | apps/api/services/incident_service.py:271-304 | a listed id reaches its action if and only if no earlier action has its id or the listed id itself |
| Approvals.SubmitDecidesListed | apps/api/services/incident_service.py:259-334 | an accepted submission of a listed id decides exactly that action and leaves every other status |
| Approvals.ListedIdReachesAnother | apps/api/services/incident_service.py:271-304 | actions named appr-x and x: the id that lists the second decides the first |
| Approvals.DecisionsOverHistory | apps/api/services/incident_service.py:309-334 | over every history of submissions and merges decisions only grow, each action has at most one, and each was accepted |
| Approvals.DecisionsByRole | src/safety/policy.py:129-144 | over every history, each new decision on an action that was CRITICAL at that moment was submitted by an ADMIN, in any letter case, and every other by an ADMIN or an OPERATOR |
| Approvals.SubmissionByRole | apps/api/services/incident_service.py:300-334 | after every history, a submission for an undecided action is recorded if and only if its role is ADMIN, or OPERATOR and the action is not CRITICAL |
| Approvals.RefusalMeaning | apps/api/services/incident_service.py:296-325 | which error each refused submission gets: no plan, an unknown id, the existing decision, or the reason the role is denied |
| Approvals.ListingMeaning | apps/api/services/incident_service.py:259-288 | an entry is PENDING if and only if it is undecided and needs approval, AUTO_APPROVED if and only if it is undecided and needs none, else it has the last decision |
| ExecutionRunner.ExecutionRunner.ExecuteAction | src/safety/execution_runner.py:20-89 | the method and its key set agree with the specified guard, lookup, role check and dispatch; it raises if and only if it passes the guard, may invoke the tool and a parameter is named self |
| ExecutionRunner.ExecutionRunner.Rollback | src/safety/execution_runner.py:91-136 | the three branches of the rollback agree with their specification |
| ExecutionRunner.ExecuteCases | src/safety/execution_runner.py:26-89 | the exact condition for a dispatch, its tool, key and arguments, and the recorded key; else nothing changes; the exact result in every case |
| ExecutionRunner.ArgumentsMeaning | src/safety/execution_runner.py:56-60 | a tool is called with target_service and every parameter, each with its value, and nothing else |
| ExecutionRunner.WhoMayInvoke | src/tools/registry.py:89-105 | a role may invoke a tool if and only if it is the required role or a higher one, in any letter case; an unknown required role admits nobody |
| ExecutionRunner.RecordedKeys | src/safety/execution_runner.py:70-89 | in every interleaving the recorded keys are exactly the nonempty keys with a success; failures, missing tools and refused roles record none |
| ExecutionRunner.NothingStartsAfterSuccess | src/safety/execution_runner.py:26-36 | no tool is started under a key once a success under it is recorded |
| ExecutionRunner.AtMostOnce | src/safety/execution_runner.py:26-74 | without such an overlap at most one dispatch under the key succeeds, and nothing is dispatched after it |
| ExecutionRunner.OverlapSucceedsTwice | src/safety/execution_runner.py:27-74 | after any start that reaches a tool while another runs under its key, two answers give two successes |
| ExecutionRunner.AtMostOnceExactly | src/safety/execution_runner.py:26-74 | in every schedule, no answers can give a key two successes if and only if no start reaches a tool while another runs under the key |
| ExecutionRunner.SameActionTwice | src/safety/execution_runner.py:27-74 | two callers with the same action can both succeed |
| ExecutionRunner.GuardOverCalls | src/safety/execution_runner.py:20-136 | over every sequence of executions and rollbacks the key set is exact and nothing follows the first success under a key |
| ExecutionRunner.RollbackCases | src/safety/execution_runner.py:102-136 | a rollback dispatches one tool exactly under the stated condition, else none; the exact report, ROLLED_BACK whenever it does not raise |
| ExecutionRunner.CompensationArguments | src/safety/execution_runner.py:102-129 | a deployment is rolled back to the action's previous version, a configuration to its rollback_config, and any other action restarts its target |
| ExecutionRunner.SucceededKeyedActionIsNotCompensated | src/safety/execution_runner.py:102-117 | compensating a keyed rollback or configuration change that succeeded runs no tool and reports ROLLED_BACK |
| ExecutionRunner.RollbackOfRollbackIsSkipped | src/safety/execution_runner.py:103-109 | a deployment rolled back once: rolling that back runs no tool |
| ExecutionRunner.DispatchedTarget | src/safety/execution_runner.py:56-68 | the tool acts on the action's target if and only if no parameter overrides it |
| ExecutionRunner.TargetOverridden | src/safety/execution_runner.py:56-60 | an action on one service that restarts another |
| GuardedActions.KeyIsWork | src/safety/policy.py:113-118 | assessed actions share a key if and only if incident, type, target and parameters (in any key order) are the same |
| GuardedActions.RecordedWork | src/safety/execution_runner.py:26-136 | over every history of executions and rollbacks a key is recorded if and only if some request for the same work succeeded |
| GuardedActions.SkippedExactly | src/safety/execution_runner.py:26-36 | an execution reports success without a tool if and only if an earlier request for the same work succeeded, a rollback included |
| GuardedActions.CompensationBlocksAction | src/safety/execution_runner.py:26-36 | an action that failed and whose compensation succeeded: its next execution reports success without a tool |
| Json.RoundTrip | src/safety/policy.py:73 | the parser reads every printed value back, whatever follows it that does not start with a digit |
| JsonOrder.DumpsInjective | src/safety/policy.py:73 | two values have the same sorted-key text if and only if they mean the same at every level |
| JsonOrder.LessMeaning | src/safety/policy.py:73 | keys are sorted lexicographically by code point |
| IdempotencyKey.NoColonSuffix | src/safety/policy.py:73-74 | no printed parameter text ends in a colon followed by another one, so the key splits at one place |
| IdempotencyKey.SharedKey | src/safety/policy.py:65-75 | for all names, the hashed texts are equal if and only if the parameters mean the same and the joined names are equal |
| IdempotencyKey.KeyDeterminesAction | src/safety/policy.py:65-75 | with colon-free incidents or colon-free targets the text determines incident, type, target and parameters |
| IdempotencyKey.ColonsCollide | src/safety/policy.py:74 | a concrete pair of different actions with the same text |
| RiskPolicy.ServiceTopology.GetUpstreamDependents | simulator/services/topology.py:86-92 | the loop collects the specified dependents, in dictionary order |
| RiskPolicy.DependentsInOrder | simulator/services/topology.py:86-92 | the dependents come in the order of the dictionary |
| RiskPolicy.ServiceTopology.SetServiceStatus | simulator/services/topology.py:99-101 | only the named node's status changes, and no blast radius does |
| RiskPolicy.BlastRadiusMeaning | src/safety/policy.py:36-41 | duplicate-free, the target first, and exactly the target and its direct neighbours in either direction |
| RiskPolicy.BlastRadiusSymmetric | src/safety/policy.py:36-41 | a service is in reach of another if and only if the other is in reach of it |
| RiskPolicy.TierByReach | src/safety/policy.py:83-104 | the exact tier for each action type and size of blast radius; destructive payloads are always CRITICAL |
| RiskPolicy.AssessmentMeaning | src/safety/policy.py:77-127 | the exact score for each action type and reach, the tiers' bounds, when approval is needed, and that nothing else of the action changes |
| RiskPolicy.KeyText | src/safety/policy.py:65-75 | the text that is hashed into an action's key |
| RiskPolicy.WhoMayApprove | src/safety/policy.py:129-144 | ADMIN may approve every tier, OPERATOR every tier but CRITICAL, nobody else any, and each denial's reason |
| RiskPolicy.PaymentServiceIsCritical | simulator/services/topology.py:23-69 | rolling back or restarting the payment service of the default topology is CRITICAL and needs approval |
| RiskPolicy.AddDependencyExtends | simulator/services/topology.py:86-97 | adding any dependency edge gives a larger topology |
| RiskPolicy.AddServiceExtends | simulator/services/topology.py:86-97 | adding any new service gives a larger topology |
| RiskPolicy.BlastRadiusGrows | src/safety/policy.py:36-41 | a larger topology never shrinks a blast radius |
| RiskPolicy.RiskGrows | src/safety/policy.py:83-144 | a larger topology never lowers score or tier, drops an approval, or admits a role that was not admitted |
| StableSort.StableSortUnique | simulator/services/mock_repo.py:81 | a sorted list is determined by its records taken key by key, which is what a stable sort preserves |
| StableSort.SortFilter | simulator/telemetry/store.py:54-66 | selecting and sorting commute |
| StableSort.SortAfterAppend | simulator/telemetry/store.py:37-43 | sorting after appending to a sorted list is one stable sort of everything |
| StableSort.SlicesMakeUpList | simulator/telemetry/store.py:66 | for every bound the slice up to it and the slice from it make up the list, counted from either end |
| MockRepo.MockCodeRepository.GetRecentDeployments | simulator/services/mock_repo.py:72-82 | the answer is the stable newest-first top of the matches in the append-only log, although the aliased list is sorted in place |
| MockRepo.InPlaceSortUnobservable | simulator/services/mock_repo.py:55-82 | for every sequence of calls all answers equal those of a log that queries never touch |
| MockRepo.AnswerIsNewest | simulator/services/mock_repo.py:72-82 | an answer is sorted and nothing left out is newer than anything returned |
| MockRepo.MatchingMeaning | simulator/services/mock_repo.py:75-80 | the matches are the deployments of the given service that are not older than the given moment, each as often as recorded and in that order |
| TelemetryStore.TelemetryStore.AddLogs | simulator/telemetry/store.py:37-39 | the list stays the one stable sort of all batches concatenated |
| TelemetryStore.TelemetryStore.QueryLogs | simulator/telemetry/store.py:45-66 | the five optional comprehensions and the slice give the last matches of everything added |
| TelemetryStore.TelemetryStore.QueryMetrics | simulator/telemetry/store.py:68-83 | the same for metrics, whose name is always compared |
| TelemetryStore.BatchingUnobservable | simulator/telemetry/store.py:37-43 | however records were batched, the list is one stable sort of all of them |
| TelemetryStore.LogsAreNewest | simulator/telemetry/store.py:45-66 | with a limit of at least one, an answer is in time order and no omitted log is newer than a returned one |
| TelemetryStore.MetricsAreNewest | simulator/telemetry/store.py:68-83 | the same for metric points |
| TelemetryStore.LogMatches | simulator/telemetry/store.py:54-65 | the matches are the records that meet every given condition, as often as added and in that order; an empty string is no condition, the level is compared in capitals, the pattern in any case at any place |
| TelemetryStore.MetricMatches | simulator/telemetry/store.py:76-82 | the same for metric points |
| Text.SearchIgnoresCase | simulator/telemetry/store.py:63-65 | a pattern is found if and only if the text reads like it from some position on, whatever the case of the letters |
| TelemetryStore.LimitHonoured | simulator/telemetry/store.py:66 | the limit bounds the answer if and only if it is at least one, or zero with nothing to return |
| TelemetryStore.LimitZeroReturnsAll | simulator/telemetry/store.py:66 | a store with one record whose query with limit zero returns it |
| Cosine.CauchySchwarz | src/memory/vector_store.py:52-54 | the squared dot product is at most the product of the squared norms |
| Cosine.ScoreMeaning | src/memory/vector_store.py:48-59 | the score is the cosine moved to the unit interval, and zero for empty, unequal or zero vectors |
| Cosine.ScoreExample | src/memory/vector_store.py:49-59 | two vectors of norm five with the dot product 24 score 0.98 |
| Cosine.ClampNeverFires | src/memory/vector_store.py:57-59 | for nonzero vectors of equal length the clamp changes nothing |
| Cosine.ScaleInvariant | src/memory/vector_store.py:49-59 | stretching the query changes no score, degenerate vectors included |
| Cosine.FullScoreMeansParallel | src/memory/vector_store.py:49-59 | the score is one if and only if the vectors are positive multiples of each other |
| VectorStore.InMemoryVectorStore.Search | src/memory/vector_store.py:61-86 | the filter, scoring and sort loops give the stable top of the scored candidates |
| VectorStore.CandidateMeaning | src/memory/vector_store.py:67-78 | the candidates are the documents that agree with the filter on every key, in order; an empty filter selects all |
| VectorStore.SearchReturnsBest | src/memory/vector_store.py:80-86 | best first, and nothing left out scores higher than anything returned |
| VectorStore.StoredQueryComesFirst | src/memory/vector_store.py:80-86 | if the query is stored, the first result has the full score and is a positive multiple of it |
| EpisodicMemory.EpisodicMemoryManager.SearchSimilarIncidents | src/memory/episodic.py:101-154 | seeding, the service filter, its fallback and the budget together, and no effect for a blank query |
| EpisodicMemory.EpisodicMemoryManager.ApplyBudget | src/memory/episodic.py:136-154 | the accumulator loop keeps what fits, cuts the first that does not and stops |
| EpisodicMemory.BudgetKeepsRanking | src/memory/episodic.py:136-154 | results follow the ranking with the same ids and scores, only the last may be cut, and the total is at most max(first, budget) + 115 |
| EpisodicMemory.FirstMisfitIsCut | src/memory/episodic.py:141-151 | the first candidate that does not fit, the very first excepted, is the last result, cut to the room left or 100 characters, and marked |
| EpisodicMemory.WhatFitsIsKept | src/memory/episodic.py:139-154 | candidates within the budget are returned unchanged |
| EpisodicMemory.FallbackExactly | src/memory/episodic.py:121-134 | all services are searched if and only if no service is given or its own search has no result |
| EpisodicMemory.LimitedSearchFinds | src/memory/episodic.py:121-127 | for a positive count the service's own search has a result if and only if some document is of the service |
| EpisodicMemory.BudgetHonoured | src/memory/episodic.py:136-154 | the answer is within the budget if and only if the candidates were |
| EpisodicMemory.BudgetOverrun | src/memory/episodic.py:136-154 | two texts whose answer under a budget of five has twenty-one characters |
| EpisodicMemory.TruncationLengthens | src/memory/episodic.py:143-146 | the mark makes a text longer if and only if fewer than 15 characters are cut |
| EpisodicMemory.ServiceResultsStayInService | src/memory/episodic.py:121-134 | one matching document keeps every result within the service |
| ModelRouter.ModelRouter.GenerateStructured | src/llm/router.py:73-109 | the nested retry loops make the specified calls, return the first success, add its usage alone, or raise with the last error |
| ModelRouter.TrailOutcome | src/llm/router.py:76-105 | a call succeeds if and only if it is the last one and the request succeeds |
| ModelRouter.Failover | src/llm/router.py:76-109 | fails iff every call fails; providers before the answering one are called exactly max_retries times, later ones never |
| ModelRouter.UsageIsSum | src/llm/router.py:83-87 | over every history of requests the cumulative input, output and total tokens and the cost are each the sum of that number over all calls ever made that succeeded |

## Left out

- Language-model prompts, provider adapters, embeddings, tools' effects: their answers are arbitrary parameters; an agent that raises ends a run.
- The graph engine's recursion limit of 25 supersteps: not part of this repository. With it, a stalling run is cut there, and 5 * max(1, max_iterations) + 3 stays within it only up to a limit of four iterations.
- SHA-256 and its truncation: `RiskPolicy.Assess` takes any hash; only `GuardedActions` assumes that it has no collisions.
- Destructive-payload patterns, secret redaction, log lines: regular expressions and text; the destructive test is an arbitrary predicate.
- Timestamps of new records, durations and random ids: wall clock and randomness. Stored timestamps are real numbers.
- Floating-point rounding: risk scores are integer thousandths, similarities are reals with an exact square root.
- JSON floats and lone surrogates: not among the values of `Json.Json`; letter case and white space are ASCII.
- IncidentService: the service's record is a value in its map, so sharing of one state object between readers is not captured, and merging one node's update is one step: a reader between the publications of one update is not modelled.
- AnalystsStep: fixes one order in which the engine merges the four analysts' updates; the engine's own order is not part of this repository, and `AnalystsInAnyOrder` covers the others up to the order of evidence and timeline.
- Timeout: a heartbeat may come at any moment while a subscriber is live, which allows more runs than the clock does.
- Session: a submission comes between two supersteps; none comes during one. The repository's remediation tools do not suspend, so an execution is not interrupted.
- SubmitApproval: the tasks it leaves to the event loop may run in any order and at any later time. Modified parameters are stored by the source but never read, and are left out.
- Descriptions, notes, messages and severities of plans, critiques and incidents: texts that no modelled branch reads.
- Commit queries, listing of incidents, evidence and hypotheses, prompt formatting, postmortem text: they would only add easy members; commit queries always sort a fresh list.
- Database models, health checks, HTTP routes, the dashboard: plumbing around libraries.
- A parameter named like an argument of a tool's own implementation: part of the tool's arbitrary answer. Only `self`, which the shared entry point rejects, raises.
- Approval before execution and guaranteed compensation: described in documents, not what the code does; the exact cases are above.
