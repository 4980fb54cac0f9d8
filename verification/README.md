# Verification of Forge's state machines, interpreters and algorithms

Forge builds and runs "AI employees".  Most of the repository talks to web clients, language
models and databases; between these calls it makes decisions by small state machines,
interpreters and algorithms.  This project models those in Dafny and proves what holds of them
over every input and every run.  Calls to models, tools, handlers, clocks and digests are
arbitrary functions or values, so the results do not depend on what they answer.

`dafny verify dfyconfig.toml` checks the whole project.

## Modules

- `WorkflowGraph`: the validator of workflow graphs, its worklist search and its path search.
- `WorkflowRuntime`: the compiled graph and the streaming interpreter, where they agree and how long runs last.
- `WorkflowConditions`: the condition language of the edges and the lookup of dotted paths.
- `WorkflowState`: merging a component's result into the workflow state.
- `TaskRepository`: the task map with its per-employee index, the transition table, recovery and counts.
- `Conversation`: the message log, message ids and pending approvals.
- `Approvals`: submissions, decisions and restarts over both stores, as a step machine.
- `AuditChain`: the hash chain in memory and in the database, the latter as separate reads and inserts.
- `BuildLifecycle`: one build row shared by API requests and workers, the deployment, the event stream.
- `DailyLoop`: the autonomous loop over the inbox.
- `Chunking`: greedy packing of texts and words, and its optimality.
- `WorkingMemory`: the string-keyed memory with lazy eviction against a plain map.
- `ContextTrimming`: prompt assembly under a budget.
- `Settings`: the nested merge, and reading and writing the settings.
- `ComponentSelection`: the rule-based selection, its validator and the gap list.
- `Anomalies`: outlier detection over the reals.
- `ToolBroker`: tool permissions, first-match rules and the event trace.
- `Common`, `Text`: shared datatypes, sequence facts and string operations.

Code that updates fields is a class whose methods are tied to functions on values; the lemmas are
about those functions.  Services and workers that interleave are step machines whose steps are
the single reads and writes of the code.

## Where the code differs from what it suggests

- The transition table has no edge from `awaiting_approval` or `interrupted` to what a decision
  asks for, so every decision marks its message and is then refused
  (`Approvals.ShippedDecisionsNeverMoveTasks`).  A decision that reads "pending" leaves the message
  pending (`Approvals.WriteMarksMessage`).  Adding the edges would not be enough: a restart or a second
  decision can still part message and task (`Approvals.TornRequestCanDisagree`,
  `Approvals.ContestedRequestCanDisagree`).
- `approve_build` enqueues its worker before it commits; the late order leaves the build deploying
  for good and loses a log entry (`BuildLifecycle.ApprovalRaceOutcome`,
  `BuildLifecycle.LateCommitHappens`, `BuildLifecycle.ReplacedEntryIsNeverSent`).  The worker checks
  no status, so a build can be deployed after its rejection (`BuildLifecycle.RejectedBuildIsDeployed`);
  a rejection stands exactly when nothing but rejections is in progress as it commits
  (`BuildLifecycle.RejectionStandsIff`, `BuildLifecycle.RejectedIsNeverDeployedIff`).  `retry_build` enqueues
  before it commits as well, but writes the row first (`BuildLifecycle.RetryCommitsFirst`).
- The in-memory audit log links only to the event just before, so interleaved employees fail
  verification although nothing was changed (`AuditChain.VerifiesIffContiguous`).
- The streaming interpreter takes the first unconditional edge where the compiled graph fans out,
  and ends quietly where the compiled route raises (`WorkflowRuntime.MovesAgree`).
- Settings are not always what was put: a plain value in between forgets defaults that a later
  section brings back, an older record can override new quiet hours, and one kind of put locks the
  settings (`Settings.GetAfterPutIff`, `Settings.BareRecordOverrides`, `Settings.PlainCommunicationLocksIff`).
- Trimming drops a blank last line of the conversation with each pass, and can move the
  conversation behind the task (`ContextTrimming.KeptIsSuffixIffLastLineNotBlank`,
  `ContextTrimming.ConversationBehindTaskIff`).
- The terminal check of the graph validator can never fail (`WorkflowGraph.ValidateGraph`).

## Model

| member | source | states |
|---|---|---|
| WorkflowGraph.CollectReachable | factory/models/blueprint.py:84-98 | the worklist loop ends with exactly the nodes that some walk reaches from the entry |
| WorkflowGraph.CanReachTerminalIsReachability | factory/models/blueprint.py:103-116 | the recursive search, with the nodes on its path excluded, finds a target exactly when some walk does |
| WorkflowGraph.CutToLastVisit | factory/models/blueprint.py:103-116 | a walk can be cut at its last visit of a node, so a search that never revisits loses nothing |
| WorkflowGraph.BuildAdjacency | factory/models/blueprint.py:84-87 | the loop over the edges gives each node exactly its successors |
| WorkflowGraph.ValidateGraph | factory/models/blueprint.py:63-101 | a specification is accepted exactly when it is well formed; each error is reported exactly when its check is the first to fail, the disconnected nodes are the unreachable ones, and the terminal check never fails |
| WorkflowRuntime.RouteFactory | employee_runtime/workflows/dynamic_builder.py:116-121 | parsing the branch succeeds exactly when every condition parses, and gives the tests in order |
| WorkflowRuntime.RouterOf | employee_runtime/workflows/dynamic_builder.py:44-59 | what one source node contributes to the compiled graph, and when building it raises |
| WorkflowRuntime.BuildGraph | employee_runtime/workflows/dynamic_builder.py:32-63 | building fails exactly when some condition on some edge is malformed; otherwise every source node gets its branch or its direct targets |
| WorkflowRuntime.NextNodeByPlace | employee_runtime/workflows/dynamic_builder.py:134-143 | read off the places in the specification: the streamed step goes to the target of the first conditional edge out of the node whose condition holds, when all earlier ones parse and fail; if all fail, to the target of the first unconditional edge; and it raises or stops where the first that does not fail raises or there is no edge left |
| WorkflowRuntime.CompiledMoveByPlace | employee_runtime/workflows/dynamic_builder.py:44-59 | the same of the compiled graph at a node with a conditional edge, except that it raises where no edge is left |
| WorkflowRuntime.PlainMoveByPlace | employee_runtime/workflows/dynamic_builder.py:53-59 | without conditional edges the compiled graph goes to the target of the first edge when all edges of the node agree on it, and otherwise to all their targets |
| WorkflowRuntime.NoEdgeFinishes | employee_runtime/workflows/dynamic_builder.py:44-63 | a node without edges ends the compiled run |
| WorkflowRuntime.ConditionalNodesAgree | employee_runtime/workflows/dynamic_builder.py:116-143 | at a node with a conditional edge the lazy choice is the compiled route on every state, except that it gives no node where the route raises for lack of a match |
| WorkflowRuntime.MovesAgree | employee_runtime/workflows/dynamic_builder.py:44-143 | one step of the two executors is the same if and only if a branch has a fallback or a test that does not fail, a plain node has at most one distinct target, and the node chosen is not the empty id |
| WorkflowRuntime.StreamRefinesCompiled | employee_runtime/workflows/dynamic_builder.py:91-143 | on a specification whose branches have fallbacks, whose plain nodes do not fan out and whose edges lead to no empty id, a streamed run is the run of the compiled graph, event for event |
| WorkflowRuntime.LazyParsingIsSafe | employee_runtime/workflows/dynamic_builder.py:134-143 | if every condition parses, the lazy choice never meets a malformed one |
| WorkflowRuntime.LazyParsingFailsIff | employee_runtime/workflows/dynamic_builder.py:134-143 | a streamed step meets a malformed condition if and only if one stands behind nothing but conditions that parse and fail on the state |
| WorkflowRuntime.LazyParsingAcceptsMore | employee_runtime/workflows/dynamic_builder.py:44-143 | the converse fails: a concrete well-formed specification streams to completion although building its graph raises |
| WorkflowRuntime.RunNode | employee_runtime/workflows/dynamic_builder.py:104-112 | one iteration of the loop: the events it yields, and where it goes or how it stops |
| WorkflowRuntime.RunStreaming | employee_runtime/workflows/dynamic_builder.py:91-113 | the loop yields exactly the events of the recursive run, up to the step budget |
| WorkflowRuntime.StreamIsWalk | employee_runtime/workflows/dynamic_builder.py:96-113 | the nodes a streamed run starts form a walk along the edges, no longer than what is left of the budget of 50 |
| WorkflowRuntime.StreamEnding | employee_runtime/workflows/dynamic_builder.py:96-113 | over known edges no run meets an unknown node, and a run completes exactly when its last event is the complete event |
| WorkflowRuntime.ExhaustionNeedsLongWalk | employee_runtime/workflows/dynamic_builder.py:99-101 | the budget error implies a walk one node longer than the budget |
| WorkflowRuntime.AcyclicWalkIsShort | factory/models/blueprint.py:79-101 | in an acyclic graph no walk is longer than the number of nodes |
| WorkflowRuntime.AcyclicRunsFinish | employee_runtime/workflows/dynamic_builder.py:96-113 | an acyclic specification of at most 50 nodes cannot exhaust the budget, and unless a handler or condition raises its run ends with the complete event |
| WorkflowRuntime.ChainNeedsBudget | employee_runtime/workflows/dynamic_builder.py:99-101 | the bound is exact: a chain of nodes streams to completion if and only if it has at most 50 |
| WorkflowConditions.GetValue | employee_runtime/workflows/dynamic_builder.py:626-635 | the loop with its early exit looks up the whole dotted path |
| WorkflowConditions.PathsCompose | employee_runtime/workflows/dynamic_builder.py:626-635 | looking up a dotted path is looking up its parts one after the other, wherever it is cut |
| WorkflowConditions.FoundIff | employee_runtime/workflows/dynamic_builder.py:71-82 | the first occurrence of an operator is the one written, exactly when it occurs neither in the field nor where the field runs into it |
| WorkflowConditions.ConditionRoundTrip | employee_runtime/workflows/dynamic_builder.py:66-83 | a written condition reads back as itself if and only if no part hides an operator that is looked for earlier |
| WorkflowConditions.TotalEdgesNeverRaise | employee_runtime/workflows/dynamic_builder.py:66-83 | has_ and == conditions always parse and never raise |
| WorkflowConditions.ComparisonRaisesIff | employee_runtime/workflows/dynamic_builder.py:75-78 | a numeric comparison raises exactly on filled lists and dictionaries and on text that is no number |
| WorkflowConditions.NestedIsFound | employee_runtime/workflows/dynamic_builder.py:626-635 | a value at the end of nested dictionaries is found under the dotted path of their keys |
| WorkflowConditions.TrueConditionIff | employee_runtime/workflows/dynamic_builder.py:79-82 | the condition `field == true`, as it is written in the fixtures, holds exactly when the value at the path is true or the number 1, and otherwise fails |
| WorkflowConditions.ThresholdConditionIff | employee_runtime/workflows/dynamic_builder.py:75-78 | the condition `field >= number`, as written, holds on a number exactly when it is at least the number read |
| WorkflowConditions.IsTrueIff | employee_runtime/workflows/dynamic_builder.py:79-82 | an equality with a word read as true holds exactly on true and the number 1 |
| WorkflowConditions.IsFalseIff | employee_runtime/workflows/dynamic_builder.py:79-82 | an equality with a word read as false holds exactly on false and the number 0 |
| WorkflowConditions.IsNullIff | employee_runtime/workflows/dynamic_builder.py:79-82 | an equality with a word read as null holds exactly where the path is missing or leads to null |
| WorkflowConditions.IsNumberIff | employee_runtime/workflows/dynamic_builder.py:79-82 | an equality with a number holds exactly on that number, and on the truth value that counts as it |
| WorkflowConditions.IsJsonIff | employee_runtime/workflows/dynamic_builder.py:79-82 | an equality with any JSON value holds exactly on the values equal to it at every depth |
| WorkflowConditions.IsQuotedTextIff | employee_runtime/workflows/dynamic_builder.py:79-82 | an equality with a quoted text holds exactly when the value at the path is that text |
| WorkflowConditions.IsBareTextIff | employee_runtime/workflows/dynamic_builder.py:79-82 | and with a text that is neither a word nor JSON, exactly on that text |
| WorkflowConditions.SameIff | employee_runtime/workflows/dynamic_builder.py:81 | two values are equal exactly when they become the same value once truth values are counted as 0 and 1, at every depth |
| WorkflowConditions.HasFailsIff | employee_runtime/workflows/dynamic_builder.py:67-70 | a has_ condition fails exactly when the path is missing or leads to null, false, 0, an empty text, list or dictionary, and otherwise holds |
| WorkflowConditions.IsAtLeastIff | employee_runtime/workflows/dynamic_builder.py:75-78 | a >= condition holds exactly when the number at the path, with truth values as 0 and 1, empty values as 0 and texts as the numbers they spell, is at least the number read |
| WorkflowConditions.IsInListIff | employee_runtime/workflows/dynamic_builder.py:71-74 | membership in a list of texts holds exactly when the value at the path is one of them |
| WorkflowConditions.IsInAnyListIff | employee_runtime/workflows/dynamic_builder.py:71-74 | membership in any list holds exactly when the value equals an item once truth values are counted as 0 and 1 |
| WorkflowConditions.IsKeyIff | employee_runtime/workflows/dynamic_builder.py:71-74 | membership in a dictionary holds exactly on its keys, and raises on lists and dictionaries |
| WorkflowConditions.IsInTextIff | employee_runtime/workflows/dynamic_builder.py:71-74 | membership in a text holds exactly when the text at the path occurs in it, and raises on anything but a text |
| WorkflowConditions.AcyclicTotalRunsFinish | employee_runtime/workflows/dynamic_builder.py:66-113 | with only has_ and == conditions, an acyclic workflow of at most 50 nodes streams to its complete event on every state |
| WorkflowState.MergeStateUpdate | employee_runtime/workflows/dynamic_builder.py:652-664 | the loop computes the merge: state keys written over the state, all others collected in the output, or an error where the output cannot be made a dictionary |
| WorkflowState.MergeFailsIff | employee_runtime/workflows/dynamic_builder.py:656-661 | the merge fails exactly when there is a foreign key and the output it joins is neither a dictionary nor an empty string nor a list of pairs |
| WorkflowState.ResultIsReadable | employee_runtime/workflows/dynamic_builder.py:652-664 | every item of a component result can be read back from the merged state |
| WorkflowState.OtherKeysAreKept | employee_runtime/workflows/dynamic_builder.py:652-664 | every key of the state that the result does not write is kept, and no other is added |
| WorkflowState.OutputIsExact | employee_runtime/workflows/dynamic_builder.py:652-664 | the merged output holds the old output and the foreign items over it, and nothing else |
| WorkflowState.PairsAreRead | employee_runtime/workflows/dynamic_builder.py:656-661 | an output that is a list of pairs is read as a dictionary in which the last pair with a key counts |
| WorkflowState.OwnOutputSurvives | employee_runtime/workflows/dynamic_builder.py:652-664 | a result's own workflow_output survives beside foreign keys exactly when it comes before the first of them or only repeats what was there |
| WorkflowState.DeltaReadsLikeMerge | employee_runtime/workflows/dynamic_builder.py:183-192 | applying only the returned delta reads like the merged state at every key, and equals it exactly when the merge added no new key holding None |
| TaskRepository.InMemoryTaskRepository.CreateTask | employee_runtime/core/task_repository.py:66-102 | the new contents: the task replaced, and its id listed once under the employee |
| TaskRepository.InMemoryTaskRepository.GetTask | employee_runtime/core/task_repository.py:104-108 | a task is found exactly when it exists and is owned by the employee |
| TaskRepository.InMemoryTaskRepository.UpdateTask | employee_runtime/core/task_repository.py:110-118 | an update is applied exactly when the task is the employee's and the table allows the status it asks for; then each field it carries is read back, and every other field and task is kept; a refused one changes nothing |
| TaskRepository.InMemoryTaskRepository.MarkInflightTasksInterrupted | employee_runtime/core/task_repository.py:126-142 | the loop interrupts the listed in-flight tasks and reports them |
| TaskRepository.InMemoryTaskRepository.CountTasks | employee_runtime/core/task_repository.py:144-150 | the loop counts the listed tasks by status |
| TaskRepository.InMemoryTaskRepository.GetInterruptedTasks | employee_runtime/core/task_repository.py:152-158 | the listed tasks that stand interrupted, in order |
| TaskRepository.InterruptedOfParts | employee_runtime/core/task_repository.py:152-158 | the interrupted tasks of two lists of ids are those of the lists, in order |
| TaskRepository.FreshIndexAgrees | employee_runtime/core/task_repository.py:62-64 | a repository built over given tasks has an index that agrees with them only if there are none |
| TaskRepository.CreateKeepsAgreement | employee_runtime/core/task_repository.py:99-101 | creating keeps map and index in agreement exactly when the id is not in use by another employee |
| TaskRepository.UpdateKeepsAgreement | employee_runtime/core/task_repository.py:110-118 | updates keep map and index in agreement |
| TaskRepository.RecoveryIsExact | employee_runtime/core/task_repository.py:126-142 | recovery changes exactly the owner's in-flight tasks, reports them in order as they now stand, leaves none in flight, and does nothing when run again |
| TaskRepository.CountsAddUp | employee_runtime/core/task_repository.py:144-150 | the counts add up to the number of listed tasks |
| TaskRepository.TaskCountsAreExact | employee_runtime/core/task_repository.py:144-150 | for every status the count is the number of the employee's tasks in it |
| TaskRepository.StepIsLegal | employee_runtime/core/task_repository.py:66-142 | every step with a fresh id keeps the agreement and the owners, and moves statuses only along the table or by recovery |
| TaskRepository.TotalsAreKept | employee_runtime/core/task_repository.py:110-150 | updates and recovery leave each employee's total count unchanged |
| TaskRepository.RunsAgree | employee_runtime/core/task_repository.py:61-158 | over every run with fresh ids the agreement holds, no task is lost, and a completed task stays completed |
| TaskRepository.RepositoryRunsAgree | employee_runtime/core/task_state_machine.py:10-17 | the agreement holds for the repository as shipped, started empty |
| Conversation.DecimalInjective | employee_runtime/core/conversation_repository.py:64-85 | message numbers are written in different ways |
| Conversation.DecimalIsRead | employee_runtime/core/conversation_repository.py:64-85 | the digits of a number are read back as the number |
| Conversation.IdDeterminesPlace | employee_runtime/core/conversation_repository.py:64-85 | a message id determines its conversation and its number, whatever characters the conversation id holds |
| Conversation.IdsAreUnique | employee_runtime/core/conversation_repository.py:64-85 | no two messages of a valid log share an id |
| Conversation.AddedIsValid | employee_runtime/core/conversation_repository.py:64-85 | adding a message keeps the log valid, adds one place, and leaves the others as they were |
| Conversation.WithMetadataIsValid | employee_runtime/core/conversation_repository.py:98-104 | rewriting metadata keeps the log valid and changes one message only |
| Conversation.PendingIsExact | employee_runtime/core/conversation_repository.py:90-96 | the listed approvals are exactly the approval requests of the log whose metadata say pending |
| Conversation.PendingInOrder | employee_runtime/core/conversation_repository.py:90-96 | they are listed by conversation in order of first use, and within one as they were written, none twice |
| Conversation.InMemoryConversationRepository.AddMessage | employee_runtime/core/conversation_repository.py:64-85 | appends a message with the given fields, numbered by its place in the conversation, which is created if needed, and leaves the others as they were |
| Conversation.InMemoryConversationRepository.ListPendingApprovals | employee_runtime/core/conversation_repository.py:90-96 | the loops list the pending requests in order |
| Conversation.InMemoryConversationRepository.UpdateMessageMetadata | employee_runtime/core/conversation_repository.py:98-104 | the message with the id, and only it, gets the metadata; an unknown id changes nothing |
| Approvals.EmployeeService.DecideApproval | employee_runtime/core/api.py:1036-1061 | the message is written before the task update is tried, so a refusal leaves it decided; an id that is not pending changes nothing |
| Approvals.DecisionIsNoted | employee_runtime/core/api.py:1041-1049 | a written decision leaves itself and its note in the message's metadata and everything else as it was |
| Approvals.DecisionReachesTask | employee_runtime/core/api.py:1050-1061 | the task update of a decision: approve and modify ask for completed, all others for interrupted with their reason; it is refused exactly where the table has no edge, and otherwise changes those fields only |
| Approvals.EmployeeService.FindPending | employee_runtime/core/api.py:1037-1040 | finds a pending request with the id exactly when there is one |
| Approvals.EmployeeService.SubmitTask | employee_runtime/core/api.py:501-611 | both stores after a submission, for every outcome of the engine; whatever the id, both status updates are accepted |
| Approvals.SubmissionLeavesTask | employee_runtime/core/api.py:501-611 | the task an undisturbed submission leaves, field by field, for every outcome |
| Approvals.SubmissionLeavesMessages | employee_runtime/core/api.py:501-611 | the messages it adds to its conversation, in order, and to no other |
| Approvals.EmployeeService.ReconcileInflightTasks | employee_runtime/core/api.py:426-447 | recovery, with a message for each task it interrupted |
| Approvals.NotedOneIsAppended | employee_runtime/core/api.py:426-447 | the message that tells of one interrupted task, in its conversation only, if it has one |
| Approvals.SubmissionIsRun | employee_runtime/core/api.py:501-611 | an undisturbed submission with a new id is a run of the step machine |
| Approvals.ReconciliationIsRun | employee_runtime/core/api.py:426-447 | so is the reconciliation after a restart |
| Approvals.StepKeepsConsistency | employee_runtime/core/api.py:501-611 | under every step of submissions, decisions and restarts, each request names a task of its own that no submission still works on |
| Approvals.StepSimulates | employee_runtime/core/api.py:501-611 | every step acts on the requests and their tasks' statuses as its abstract effect says |
| Approvals.ParkedDecisionIsRefused | employee_runtime/core/task_state_machine.py:10-17 | from awaiting_approval and interrupted the shipped table refuses what every decision asks for |
| Approvals.ShippedDecisionsNeverMoveTasks | employee_runtime/core/api.py:1050-1061 | over every run with the shipped table, the task of an approval request is awaiting approval or interrupted and the task write of every decision is refused |
| Approvals.WriteMarksMessage | employee_runtime/core/api.py:1041-1049 | a written decision marks its message, which stays pending exactly when the decision reads pending |
| Approvals.ExtendedDecisionsAgree | employee_runtime/core/api.py:1036-1061 | with edges from both statuses to completed and interrupted, over every run an uncontested request agrees with its task exactly when no restart cut an approval between its two writes |
| Approvals.ExtendedRequestsAreExact | employee_runtime/core/api.py:1036-1061 | with the same edges, over every run and for every request, contested and torn ones included: the message records the last decision written, the task is completed exactly when an approval reached it and otherwise interrupted exactly when a refusal or a restart did; and when exactly the two agree |
| Approvals.TornRequestCanDisagree | employee_runtime/core/api.py:1041-1061 | a run from the start in which a restart between the two writes of an approval leaves the message approved and the task interrupted |
| Approvals.ContestedRequestCanDisagree | employee_runtime/core/api.py:1036-1061 | a run from the start in which an approval and a refusal overlap, and the message ends rejected while the task is completed |
| AuditChain.HashDeterminesEvent | component_library/quality/audit_system.py:161-163 | with an injective digest the hash determines type, details and link for every event type, since the details are JSON text |
| AuditChain.DumpsIsJson | component_library/quality/audit_system.py:161-163 | the serialised details of every dictionary are such JSON text: no separator and no backslash outside a string, every string closed |
| AuditChain.ListTextIsJoined | component_library/quality/audit_system.py:161-163 | the serialised items of a list stand one after the other, with commas between them |
| AuditChain.DictTextIsJoined | component_library/quality/audit_system.py:161-163 | so do the fields of a dictionary, each a quoted key, a colon and its value |
| AuditChain.HashDeterminesLink | component_library/quality/audit_system.py:161-163 | for one type and one text of details, whatever they hold, equal hashes have equal links |
| AuditChain.AuditSystem.LogEvent | component_library/quality/audit_system.py:55-71 | appends the event with its fields, linked to the one just before it if that is the employee's own, and hashed over type, details and link |
| AuditChain.AuditSystem.GetTrail | component_library/quality/audit_system.py:118-124 | the employee's events in log order |
| AuditChain.PositionsHold | component_library/quality/audit_system.py:118-124 | the trail stands at rising places of the log, which are all the places of the employee's events |
| AuditChain.AuditSystem.VerifyChain | component_library/quality/audit_system.py:147-159 | valid exactly when no entry breaks the chain; otherwise it stops at the first that does |
| AuditChain.VerifiesIff | component_library/quality/audit_system.py:147-159 | a trail verifies exactly when each hash is that of its type, details and the hash before it |
| AuditChain.LoggingKeepsWritten | component_library/quality/audit_system.py:55-71 | logging keeps the log one that logging wrote |
| AuditChain.BreaksAtGaps | component_library/quality/audit_system.py:55-71 | an in-memory trail breaks exactly where another employee's event stands in between |
| AuditChain.VerifiesIffContiguous | component_library/quality/audit_system.py:147-159 | the in-memory check passes if and only if the employee's events form one contiguous block of the log |
| AuditChain.LinksDiffer | component_library/quality/audit_system.py:147-163 | the links of a verified trail are different at different places |
| AuditChain.LastHashDeterminesTrail | component_library/quality/audit_system.py:147-163 | two verified trails with the same last hash record the same events |
| AuditChain.DatabaseTrailVerifiesIffUnforked | component_library/quality/audit_system.py:73-99 | under every interleaving of reads and inserts with rising times, a trail verifies if and only if no row of that employee landed between a call's read and its insert |
| BuildLifecycle.BuildSession.Save | factory/workers/pipeline_worker.py:157-159 | a save writes the columns that changed since the session last loaded or saved |
| BuildLifecycle.BuildSession.DeployBuild | factory/workers/pipeline_worker.py:146-193 | a deployment that goes through ends deployed exactly when its activation gives active and the client is not awaited, pending client action exactly when the client is awaited, and failed otherwise; it stays deploying only if the rollback or the last save of the deployment row raises |
| BuildLifecycle.BuildSession.ResumeDeployment | factory/workers/pipeline_worker.py:196-224 | resuming settles the stored row with its log extended by one entry |
| BuildLifecycle.Pipeline.RunStages | factory/workers/pipeline_worker.py:81-127 | the status and the log the stages leave; a stage that raises leaves the entries of those before it, and the build failed |
| BuildLifecycle.StagesByCase | factory/workers/pipeline_worker.py:81-127 | the status and the log, read off the first stage that raises or fails the build |
| BuildLifecycle.Pipeline.Start | factory/workers/pipeline_worker.py:40-143 | the final status and the exact log for every outcome of the stages; with review required nothing is deployed and a passed build alone ends pending review |
| BuildLifecycle.EveryDeploymentIsApproved | factory/api/builds.py:142-166 | with review required, under every interleaving each deployment has an approval of its own, made by a request that read the build pending review |
| BuildLifecycle.UnreviewedPipelineDeploys | factory/workers/pipeline_worker.py:128-129 | without required review a passed pipeline deploys with no approval |
| BuildLifecycle.ApprovalRaceOutcome | factory/api/builds.py:155-166 | once approval and worker are done, the build has settled exactly when the commit did not come after the worker's last save, and the log keeps both entries exactly when it came before the worker's read |
| BuildLifecycle.LateCommitHappens | factory/api/builds.py:155-166 | the late order is a run: it ends with nothing in progress, the build stored as deploying and the worker's log entry gone |
| BuildLifecycle.LastSaveDecides | factory/api/builds.py:106-193 | from every state and over every run the stored status is that of the last save that changed the status its own session held |
| BuildLifecycle.SessionsStayKnown | factory/api/builds.py:106-193 | every run that starts with queued jobs keeps what the following results assume of open sessions |
| BuildLifecycle.StatusStandsIff | factory/api/builds.py:106-193 | a status stays through every run, new requests that look for it aside, if and only if no job is in progress and every open request is about to store that status again |
| BuildLifecycle.CommitStandsIff | factory/api/builds.py:106-193 | what an approval, a rejection or a retry commits is stored, and stands if and only if at that moment no job is in progress and the other open requests are about to store the same; an approval that commits after its job has ended thus leaves the build deploying for good |
| BuildLifecycle.RejectionStandsIff | factory/api/builds.py:169-193 | without new retries a committed rejection stands over every run if and only if nothing but rejections is in progress when it commits |
| BuildLifecycle.NeverDeployedIff | factory/workers/pipeline_worker.py:196-224 | no run without a new approval (and, where no review is required, without a new retry) ends deployed, if and only if no deployment job is in progress or about to be enqueued and no pipeline is there that deploys by itself |
| BuildLifecycle.RejectedIsNeverDeployedIff | factory/api/builds.py:169-193 | the same of a build just rejected, read off the state before its rejection commits |
| BuildLifecycle.RetryCommitsFirst | factory/api/builds.py:125-139 | once a retry has enqueued its pipeline no run changes the row until it commits or is given up, since it has written the row before; so, unlike an approval, it never commits over what its own job has stored |
| BuildLifecycle.UnderBothIsReached | factory/api/builds.py:142-191 | an approval and a rejection can both have read one build pending review, with the worker queued |
| BuildLifecycle.RejectedBuildIsDeployed | factory/workers/pipeline_worker.py:196-224 | from there a run deploys the build after its rejection was committed, since the worker checks no status |
| BuildLifecycle.StreamEvents | factory/api/builds.py:83-103 | the loop sends the frames of the rows it polls, up to the first terminal one |
| BuildLifecycle.StreamSendsLogOnce | factory/api/builds.py:93-102 | while each row read extends the one before, up to the first terminal status or missing row, the slices sent concatenate to the log, each entry once |
| BuildLifecycle.StreamSendsLogOnceIff | factory/api/builds.py:93-102 | after every poll each entry has been sent once and in order, if and only if each row read extends the one before |
| BuildLifecycle.StreamStopsAtTerminal | factory/api/builds.py:100-102 | the stream looks no further than the first terminal status |
| BuildLifecycle.ReplacedEntryIsNeverSent | factory/api/builds.py:93-102 | in the late run, a stream that polls the row during the deployment and later the row the run leaves sends only the worker's entry, however often it polls, although the stored log holds the approval's |
| DailyLoop.EmailTool.MarkRead | component_library/tools/email_tool.py:78-87 | the first message with the id is marked read; the answer says whether there is one |
| DailyLoop.PulseEngine.NotifySupervisor | employee_runtime/modules/pulse_engine.py:252-293 | a notification counts as sent exactly when the email or the messaging channel is there and not suppressed; the inbox is unchanged |
| DailyLoop.PulseEngine.Handle | employee_runtime/modules/pulse_engine.py:161-199 | one message: it is marked read exactly when no call raised, and then it was escalated if a human must approve, answered if it has a sender and email is not suppressed, and suppressed otherwise |
| DailyLoop.PulseEngine.ActiveHours | employee_runtime/modules/pulse_engine.py:142-222 | a finished turn has worked on its whole batch in order; each message is recorded with the delivery it got, and each counter is the number of records with that delivery; when a call raises, the messages marked are those recorded |
| DailyLoop.PulseEngine.RunDailyLoop | employee_runtime/modules/pulse_engine.py:67-89 | a finished loop satisfies responses + escalations + suppressed + wind-downs = tasks + 1, each counter is the number of messages with that delivery, a wind-down that could not be sent counts as suppressed, and exactly the batch is marked |
| DailyLoop.UnreadAfterMarking | component_library/tools/email_tool.py:78-87 | marking the first n unread messages leaves exactly the others unread, in order |
| DailyLoop.UnreadOfParts | employee_runtime/modules/pulse_engine.py:153 | the unread messages of two parts of an inbox are those of the parts, in order |
| DailyLoop.LoopsDrainInOrder | employee_runtime/modules/pulse_engine.py:153 | k loops together take exactly the first k times the limit unread messages in order, for every limit, negative ones included |
| DailyLoop.UnreadIdsAreDistinct | employee_runtime/modules/pulse_engine.py:153-199 | no message is taken twice |
| DailyLoop.LoopClearsInboxIffMarkable | component_library/tools/email_tool.py:78-87 | a loop with room for all unread messages leaves none unread if and only if each is the first with its id |
| Chunking.Chunk | component_library/tools/document_ingestion.py:93-113 | the chunks are the greedy groups of the stripped, non-empty element texts |
| Chunking.TextsOfParts | component_library/tools/document_ingestion.py:99-102 | the texts of two lists of elements are those of the lists, in order; an element gives its stripped text unless that is empty |
| Text.StripMeans | component_library/tools/document_ingestion.py:100 | stripping takes away white space only, and only at the ends |
| Chunking.GreedyIsOptimal | component_library/tools/document_ingestion.py:100-111 | no order-preserving grouping whose groups fit or hold one text has fewer groups than the greedy one |
| Chunking.ChunksAreFaithfulAndFewest | component_library/tools/document_ingestion.py:93-113 | the chunks joined by newlines are the texts joined by newlines, a chunk over the limit is a single text, and no other grouping needs fewer |
| Chunking.CutWord | component_library/data/knowledge_base.py:305-311 | an over-long word is cut into full pieces and a rest |
| Chunking.WordsSplit | component_library/data/knowledge_base.py:300 | splitting at any white space character splits the text on both sides of it |
| Chunking.WordsOfJoined | component_library/data/knowledge_base.py:300 | splitting words joined by spaces gives the words |
| Chunking.StretchIsWord | component_library/data/knowledge_base.py:300 | every longest stretch without white space is one word, in its place among the words |
| Chunking.SplitLongParagraph | component_library/data/knowledge_base.py:297-316 | the loop computes the recursive splitting of the words |
| Chunking.ParagraphSplitIsFaithful | component_library/data/knowledge_base.py:297-316 | the chunks are the lines and pieces of a layout of the words: each line is a join of consecutive words that could not take the next one, only an over-long word is cut, and it is left whole exactly behind a line; so no character but white space is lost, added or moved, and a chunk over 500 characters is one over-long word |
| Chunking.StretchStandsWhole | component_library/data/knowledge_base.py:297-316 | every longest stretch without white space of at most 500 characters stands whole in a chunk, between its ends or spaces, behind exactly the characters before it |
| Chunking.ParagraphSplitIsFewest | component_library/data/knowledge_base.py:297-316 | without over-long words the chunks are the words joined by spaces, splitting them again gives the words, and no other split that fits needs fewer |
| WorkingMemory.PrefixSelectsTask | component_library/data/working_memory.py:50-51 | with colon-free task ids the key prefix of a task matches its own keys and no others |
| WorkingMemory.KeysAreDistinct | component_library/data/working_memory.py:50-51 | with colon-free task ids different pairs have different keys |
| WorkingMemory.ColonsCollide | component_library/data/working_memory.py:50-51 | with a colon in a task id two pairs share one entry |
| WorkingMemory.ColonInKeyShows | component_library/data/working_memory.py:74-93 | with a colon in a key, get_all never answers as the map of pairs does |
| WorkingMemory.ColonInTaskShows | component_library/data/working_memory.py:50-51 | with a colon in a task id, the entry also answers for a pair that was never written |
| WorkingMemory.Memory.SetContext | component_library/data/working_memory.py:53-58 | the entry with its expiry |
| WorkingMemory.Memory.GetContext | component_library/data/working_memory.py:60-72 | the answer, and the eviction of an expired entry on the way |
| WorkingMemory.Memory.GetAllOf | component_library/data/working_memory.py:74-93 | the loop answers one live entry for each last segment of the task and evicts the expired ones |
| WorkingMemory.Memory.ClearTask | component_library/data/working_memory.py:95-104 | the loop drops the entries under the prefix of the task and no others |
| WorkingMemory.EmptyStands | component_library/data/working_memory.py:27-38 | a new memory stands for the empty map |
| WorkingMemory.StepRefines | component_library/data/working_memory.py:50-104 | every operation keeps the correspondence with a map from pairs to values, and answers as that map does |
| WorkingMemory.MemoryRefinesMap | component_library/data/working_memory.py:50-104 | over every run with colon-free names and a clock that never goes back, eviction cannot be observed, get_all agrees with get_context, and clearing touches one task |
| WorkingMemory.ClockGoingBackShowsEviction | component_library/data/working_memory.py:60-72 | in every memory and for every ttl and times, an eviction shows in a later read if and only if the clock went back over the expiry between the two reads |
| ContextTrimming.SplitOfJoin | component_library/data/context_assembler.py:78-81 | joining lines and splitting again gives the same lines except a blank last one |
| ContextTrimming.SplitAtBreak | component_library/data/context_assembler.py:78 | a line ends at each line break, a carriage return and line feed together being one |
| ContextTrimming.KeptIsStretchOfLines | component_library/data/context_assembler.py:77-82 | after any number of passes the conversation is a stretch of the original lines; each pass drops the oldest, and only blank ones are missing at the end |
| ContextTrimming.KeptIsSuffixIffLastLineNotBlank | component_library/data/context_assembler.py:77-82 | from the second pass on the kept text is exactly the remaining lines if and only if the last line is not blank |
| ContextTrimming.OtherSectionsSurvive | component_library/data/context_assembler.py:83-84 | identity layers, memories and task survive word for word and in order, beside one conversation section |
| ContextTrimming.ConversationBehindTaskIff | component_library/data/context_assembler.py:83-84 | the conversation ends up behind the task exactly when it was trimmed and fewer than two sections stand before it |
| ContextTrimming.MarkerIsPresent | component_library/data/context_assembler.py:77 | while there is a conversation the loop's text test holds |
| ContextTrimming.Assemble | component_library/data/context_assembler.py:47-85 | the prompt after the least number of passes that fits the budget, or the first with at most one line of conversation: each body that is there, the memories and the task stand in it directly behind their own headings, one after the other, what is kept of the conversation behind its heading, and it ends with the task unless a trimmed conversation follows fewer than two other sections |
| ContextTrimming.PartsCanBeRead | component_library/data/context_assembler.py:64-84 | so the task, every memory and every kept line of the conversation can be read in the prompt |
| Settings.MergeNested | employee_runtime/core/api.py:1989-1996 | the recursive loop computes the merge of two trees |
| Settings.MergeIsIdempotent | employee_runtime/core/api.py:1989-1996 | applying a patch twice is applying it once, for all trees |
| Settings.CoversMeansMergeChangesNothing | employee_runtime/core/api.py:1989-1996 | merging into defaults changes nothing exactly when every default key is there at every common section |
| Settings.MergeIsAssociativeIff | employee_runtime/core/api.py:1989-1996 | merging is associative exactly on trees where no plain value in the middle separates a section from one that does not cover it |
| Settings.PlainInBetweenShows | employee_runtime/core/api.py:1989-1996 | a concrete case where the order of merging shows |
| Settings.OperationalMemory.Store | component_library/data/operational_memory.py:41-51 | a key keeps its place, a new one comes last, and keys stay unique |
| Settings.OperationalMemory.ListByCategory | component_library/data/operational_memory.py:91-107 | the first hundred records of the category, in order |
| Settings.CategoryOfParts | component_library/data/operational_memory.py:91-107 | the records of a category in two parts are those of the parts, in order |
| Settings.SettingsService.GetSettings | employee_runtime/core/api.py:1071-1089 | the merged profile with the last quiet-hours preference, or the failure |
| Settings.SettingsByPlace | employee_runtime/core/api.py:1071-1089 | the answer read off the records: the first profile over the defaults, with the last quiet hours under either key, unwrapped, or the failure |
| Settings.SettingsService.PutSettings | employee_runtime/core/api.py:1091-1116 | what is stored, in both the success and the failure paths, and what is answered |
| Settings.SettingsCoverDefaults | employee_runtime/core/api.py:1071-1089 | the settings read always have every default |
| Settings.GetAfterPutIff | employee_runtime/core/api.py:1091-1116 | with room for at most a hundred preferences, get after put gives exactly the old settings merged with the new values if and only if the trees are compatible and no record under the bare key, with other quiet hours, stands behind the one the put replaces |
| Settings.QuietHoursWinIff | employee_runtime/core/api.py:1084-1116 | the quiet hours put are the ones read back exactly when the records before the put hold no such bare record |
| Settings.BareRecordOverrides | employee_runtime/core/api.py:1084-1116 | two concrete records with which a put of new quiet hours is not read back |
| Settings.PutBehindFullPageIsLost | component_library/data/operational_memory.py:133-134 | behind a hundred other preferences the first put changes nothing for any later get |
| Settings.PlainCommunicationLocksIff | employee_runtime/core/api.py:1071-1103 | a put that makes the communication preferences plain fails after storing, and from then on every get and put fails if and only if a quiet-hours preference was stored before it |
| ComponentSelection.BaselineIsDistinct | factory/pipeline/architect/component_selector.py:17-74 | no baseline lists a component twice |
| ComponentSelection.RequiredIsBaseline | factory/pipeline/architect/component_selector.py:233-248 | everything the validator requires is in the role's baseline |
| ComponentSelection.Choose | factory/pipeline/architect/component_selector.py:117-148 | the loops select exactly the ready components of the baseline, of some tool's keywords and of the risk tier, none twice |
| ComponentSelection.KeywordsLead | factory/pipeline/architect/component_selector.py:76-84 | the shipped keywords by their words: which parts of a tool's name lead to which component |
| ComponentSelection.RiskAddsReviews | factory/pipeline/architect/component_selector.py:141-148 | the risk tier adds the autonomy manager and the explanations, and from high on the adversarial review, the approvals and the compliance rules |
| ComponentSelection.Validate | factory/pipeline/architect/component_selector.py:210-248 | the validator reports the first unsatisfied tool, or else the missing required components |
| ComponentSelection.NoComplaintIff | factory/pipeline/architect/component_selector.py:210-248 | no complaint exactly when every tool is satisfied and nothing required is missing |
| ComponentSelection.Select | factory/pipeline/architect/component_selector.py:117-151 | the chosen components, if and only if everything required is ready and every tool with a keyword has a ready match; otherwise the first complaint |
| ComponentSelection.SelectionIsAcceptedIff | factory/pipeline/architect/component_selector.py:117-151 | a selection passes its own validator if and only if every required component is ready and every tool with a keyword has a ready match |
| ComponentSelection.ShippedSelectionIsAccepted | component_library/status.py:13-59 | with every component production ready, every selection is accepted |
| ComponentSelection.IdentifyGaps | factory/pipeline/architect/gap_analyzer.py:74-98 | the loop lists the tools whose first keyword match is missing or not covered |
| ComponentSelection.GapIff | factory/pipeline/architect/gap_analyzer.py:74-98 | after a selection a tool is a gap if and only if it has no keyword or its first match is not ready |
| ComponentSelection.ShippedGapsAreUnknownTools | factory/pipeline/architect/gap_analyzer.py:74-98 | with every component ready the gaps are exactly the tools without a known keyword, in order |
| Anomalies.DetectAnomalies | component_library/work/data_analyzer.py:216-248 | the result is the beginning of the unlimited scan, of length at most the limit, or one for a limit below one |
| Anomalies.OutlierIff | component_library/work/data_analyzer.py:235-240 | a z-score of at least 1.3 means a squared distance of at least 1.69 variances |
| Anomalies.DeviationsCancelIff | component_library/work/data_analyzer.py:233 | the average is the one number from which the signed distances cancel |
| Anomalies.VarianceIsMeanSquare | component_library/work/data_analyzer.py:234 | the variance is the mean of the squares less the square of the mean |
| Anomalies.NumbersOfParts | component_library/work/data_analyzer.py:226-230 | the numbers of two parts of a column are those of the parts, in order |
| Anomalies.FindingsAreExact | component_library/work/data_analyzer.py:237-243 | exactly the outlying cells are reported, under their own rows |
| Anomalies.ReportedIff | component_library/work/data_analyzer.py:222-243 | when exactly a cell is reported, without mention of the root |
| Anomalies.ColumnBound | component_library/work/data_analyzer.py:222-248 | at most n / 1.69 of a column's n numbers are flagged |
| Anomalies.TableBound | component_library/work/data_analyzer.py:222-248 | at most n / 1.69 of all n numbers are flagged |
| ToolBroker.Decide | component_library/quality/autonomy_manager.py:61-104 | the loop gives the forced mode, or that of the first rule that matches |
| ToolBroker.FirstMatchDecides | component_library/quality/autonomy_manager.py:71-82 | rules behind the first match never count; with no match the mode is autonomous |
| ToolBroker.ModeByPlace | component_library/quality/autonomy_manager.py:71-104 | under any rules the mode is that of the first rule the call falls under: its kind by the names of tool and action, bounds inclusive, a call to someone having at least one recipient |
| ToolBroker.ShippedIsAutonomousIff | component_library/quality/autonomy_matrix.yaml:1-88 | the shipped rules are autonomous exactly when none of the asking ones matches |
| ToolBroker.AskedForIff | component_library/quality/autonomy_matrix.yaml:1-88 | when exactly the shipped rules ask a human |
| ToolBroker.ShippedMatrixIsMonotone | component_library/quality/autonomy_matrix.yaml:1-88 | what the shipped rules allow without asking stays allowed at a lower tier, for a more reversible action, fewer recipients or more confidence |
| ToolBroker.Broker.EnforceAutonomy | employee_runtime/core/tool_broker.py:116-154 | the events recorded and the outcome, in every path |
| ToolBroker.Broker.Execute | employee_runtime/core/tool_broker.py:70-114 | the events recorded and the outcome, in every path |
| ToolBroker.Serve | employee_runtime/core/tool_broker.py:50-114 | a run of calls on one broker records exactly the trace the lemmas speak of |
| ToolBroker.InvocationsAreJustified | employee_runtime/core/tool_broker.py:84-154 | in every run each invocation is of an allowed, registered tool, directly preceded by its own audit event and an autonomous decision on the same call |
| ToolBroker.AuditedCallsAreInvoked | employee_runtime/core/tool_broker.py:103-111 | in every run an audited call is invoked at once |
| ToolBroker.InvokedIff | employee_runtime/core/tool_broker.py:84-111 | when exactly a call is invoked, and that this is when it is answered |
| ToolBroker.RefusalIsRecorded | employee_runtime/core/tool_broker.py:116-154 | a refused call leaves its decision on record, logged and blocked where there are loggers, and nothing else |
| ToolBroker.ShippedInvokedIff | employee_runtime/core/tool_broker.py:156-167 | with the shipped rules and no forced policy, a call in order is invoked exactly when the employee's tier allows it alone, by the names of tool and action, its confidence and its attendees |
| ToolBroker.ShippedInvocationsMayGoAlone | employee_runtime/core/tool_broker.py:156-167 | in every run with the shipped rules only such calls are invoked: no message is sent for a high-risk employee, above confidence 0.85 for a medium and 0.7 for a low one; bookings need more than 0.8 and 0.55; with fifty attendees or more, more than 0.9 |
| ToolBroker.ForcedPolicyInvokesNothing | component_library/quality/autonomy_manager.py:61-104 | with a forced policy no tool is invoked in any run |
| ToolBroker.RefusedUnderEveryMatrixIffForced | component_library/quality/autonomy_manager.py:61-87 | a call in order is refused under every rule matrix if and only if the policy is forced |
| ToolBroker.BrokerPolicyWins | component_library/quality/autonomy_manager.py:62-65 | the broker's policy decides the keys it sets, so it can also lift a manager's override |
| ToolBroker.ShippedRulesStopTheRiskiest | component_library/quality/autonomy_matrix.yaml:1-15 | with the shipped rules no run invokes a tool for a critical employee, nor sends a message for a high-risk one |

## Left out

- WorkflowRuntime.StreamRefinesCompiled: the compiled graph is the routing function and edges the code hands over, run one node at a time; LangGraph's own recursion limit, parallel branches and state channels are not modelled.
- WorkflowRuntime.BuildGraph: the edges from terminals to END and the registration of nodes with the library are left out.
- WorkflowConditions.GetValue: state values are JSON-like; attribute lookup on other objects gives nothing here.
- WorkflowConditions.ConditionRoundTrip: reading JSON and numbers is a parameter.
- WorkflowState.MergeStateUpdate: value semantics, without in-place sharing of nested dictionaries; an output that is a list of pairs counts as a dictionary only if its keys are strings and its pairs lists of two or strings of two characters.
- TaskRepository.InMemoryTaskRepository.UpdateTask: updates of the id, the owner and the result fields are left out.
- AuditChain.DatabaseTrailVerifiesIffUnforked: row times are assumed to rise for each employee, and stored hashes are never empty; the filters of `get_trail` are left out.
- AuditChain.HashDeterminesEvent: the digest is an arbitrary injective function; links hold no separator, as hexadecimal digests do not.
- AuditChain.AuditSystem.GetTrail: the filters by time and type are left out.
- Approvals.EmployeeService.SubmitTask: the kernel's preparation and the contents of results are left out; messages keep the metadata that decisions read.
- Approvals.ShippedDecisionsNeverMoveTasks: runs that submit a task id twice are left out.
- Approvals.StepKeepsConsistency: submitted task ids are new; one step is one repository call, so nothing smaller interleaves.
- BuildLifecycle.EveryDeploymentIsApproved: each queued job is delivered at most once; lookups that find no build, requirements or blueprint are left out.
- BuildLifecycle.RetryCommitsFirst: a flushed and uncommitted write keeps other sessions from writing the row, as PostgreSQL's row locks do (`save_build` flushes, factory/persistence.py:204-213); waiting too long for the lock is left out.
- BuildLifecycle.ApprovalRaceOutcome: one approval and its worker with nothing else in progress, and a worker that does not die; of other runs only the status is stated (CommitStandsIff), not the log.
- BuildLifecycle.Pipeline.Start: a stage that raises is taken to leave the build object as it was; a failure to save in the error path is left out.
- DailyLoop.PulseEngine.NotifySupervisor: the sends over the two channels share one failure flag.
- DailyLoop.PulseEngine.Handle: messages without an id are left out, the calendar calls fail as one; criteria in `check_inbox`, live adapters and the texts of reports are left out.
- Chunking.Chunk: `parse` and the `elements` fallback are left out.
- Chunking.SplitLongParagraph: `_chunk_document_fallback`, which cuts at blank lines with a regular expression, is left out.
- WorkingMemory.MemoryRefinesMap: the in-memory path only; Redis expiry is left out.
- ContextTrimming.Assemble: the token estimate is an arbitrary function of the prompt; fetching history and memories is left out.
- Settings.SettingsService.GetSettings: preference values that are no dictionaries are left out.
- Settings.SettingsService.PutSettings: the behavior manager's rule for quiet hours is left out, and the database path, which promises no order, is not modelled.
- ComponentSelection.Select: component configurations and the texts of generated gap specifications are left out; lower-casing is a parameter.
- Anomalies.DetectAnomalies: exact reals instead of floating point; the wording of the findings is left out.
- ToolBroker.Broker.Execute: approvers, rationales and parameters other than those that decide are left out; tiers and modes outside the known ones end the call.
- InMemoryTaskRepository.list_recent_tasks: sorting by creation time is left out.
- The SQL repositories: only the step semantics stated above, no sessions or migrations.
- Behaviour rules, the deliberation council, span redaction and top-k retrieval: their properties are easier members of the same kinds.
- HTTP routing, authentication, websockets, language-model branches, prompts, the portal and the marketplace: plumbing over libraries that are not part of this model.
