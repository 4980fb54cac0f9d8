/**
 Task submission, approval decisions and restart recovery of the employee service
 (employee_runtime/core/api.py) over its two stores: the tasks and the conversation messages.

 A run interleaves the single writes of any number of submissions and decisions, and may be cut
 at any point by a restart.  The transition table is a parameter: the one shipped, and the same
 with the four edges added that a decision asks for.
 */
module Approvals {
  import opened Common
  import opened TaskRepository
  import opened Conversation

  /** The shipped table with edges from both parked statuses to the two outcomes of a decision. */
  const EXTENDED: Table :=
    TRANSITIONS[AwaitingApproval := {Running, Failed, Completed, Interrupted}][Interrupted := {Queued, Completed, Interrupted}]

  const PARKED: set<Status> := {AwaitingApproval, Interrupted}

  /** The status a decision asks for. */
  function Verdict(decision: string): Status {
    if decision in {"approve", "modify"} then Completed else Interrupted
  }

  function DecisionChanges(decision: string, now: Timestamp): Changes {
    Changes(Some(Verdict(decision)), None, None, None,
            Some(if Verdict(decision) == Completed then "" else "approval_" + decision), Some(Some(now)))
  }

  function DecidedMetadata(metadata: Metadata, decision: string, note: string): Metadata {
    metadata["status" := decision]["decision" := decision]["note" := note]
  }

  function TaskIdOf(metadata: Metadata): TaskId {
    if "task_id" in metadata then metadata["task_id"] else ""
  }

  function RequestMetadata(id: TaskId): Metadata {
    map["task_id" := id, "status" := "pending", "decision" := ""]
  }

  function StatusChange(s: Status): Changes {
    Changes(Some(s), None, None, None, None, None)
  }

  function FailChanges(error: string, now: Timestamp): Changes {
    Changes(Some(Failed), None, Some(error), None, None, Some(Some(now)))
  }

  function FinishChanges(approval: bool, summary: string, now: Timestamp): Changes {
    Changes(Some(if approval then AwaitingApproval else Completed), Some(summary), Some(""), Some(approval), Some(""),
            Some(if approval then None else Some(now)))
  }

  // ----- the decision as the service performs it -----

  datatype DecideError = NotPending | UpdateFailed(cause: UpdateError)

  class EmployeeService {
    const employee: EmployeeId
    const tasks: InMemoryTaskRepository
    const conversations: InMemoryConversationRepository

    constructor (employee: EmployeeId, tasks: InMemoryTaskRepository, conversations: InMemoryConversationRepository)
      ensures this.employee == employee && this.tasks == tasks && this.conversations == conversations
    {
      this.employee := employee;
      this.tasks := tasks;
      this.conversations := conversations;
    }

    /** The first half of `submit_task`: the task is created and set running, with a message for each. */
    method BeginTask(id: TaskId, c: ConversationId, input: string, context: Metadata, created: Timestamp, started: Timestamp)
      requires conversations.Valid()
      modifies tasks, conversations
      ensures conversations.Valid()
      ensures tasks.Contents() == BegunStore(old(tasks.Contents()), id, employee, c, created, started)
      ensures conversations.Contents() == BegunLog(old(conversations.Contents()), id, c, input, context)
    {
      EnsuredOnce(conversations.Contents(), c, "user", input, "text", context);
      conversations.EnsureConversation(c);
      var _ := tasks.CreateTask(id, employee, c, created);
      var _ := conversations.AddMessage(c, "user", input, "text", context);
      var _ := tasks.UpdateTask(id, employee, StatusChange(Running), started);
      var _ := conversations.AddMessage(c, "system", RECEIVED, "status_update", StatusNote(id, "running"));
    }

    /** The second half, once the engine has answered or raised. */
    method EndTask(id: TaskId, c: ConversationId, outcome: Outcome, ended: Timestamp)
      requires conversations.Valid()
      modifies tasks, conversations
      ensures conversations.Valid()
      ensures tasks.Contents() == EndedStore(old(tasks.Contents()), id, employee, outcome, ended)
      ensures conversations.Contents() == EndedLog(old(conversations.Contents()), id, c, outcome)
    {
      match outcome
      case EngineRaised(error) =>
        var _ := tasks.UpdateTask(id, employee, FailChanges(error, ended), ended);
        var _ := conversations.AddMessage(c, "system", "Task failed: " + error, "status_update", StatusNote(id, "failed"));
      case Produced(approval, summary) =>
        var _ := tasks.UpdateTask(id, employee, FinishChanges(approval, summary, ended), ended);
        var _ := conversations.AddMessage(c, "assistant", summary, "status_update", StatusNote(id, FinalName(approval)));
        if approval {
          var _ := conversations.AddMessage(c, "assistant", summary, APPROVAL_REQUEST, RequestMetadata(id));
        }
    }

    /**
     `submit_task`, undisturbed: whatever id the caller gives, both status updates are accepted,
     and the task ends failed, completed or awaiting approval.
     */
    method SubmitTask(id: TaskId, c: ConversationId, input: string, context: Metadata, outcome: Outcome,
                      created: Timestamp, started: Timestamp, ended: Timestamp)
      requires conversations.Valid()
      modifies tasks, conversations
      ensures conversations.Valid()
      ensures tasks.Contents()
              == EndedStore(BegunStore(old(tasks.Contents()), id, employee, c, created, started), id, employee, outcome, ended)
      ensures conversations.Contents() == EndedLog(BegunLog(old(conversations.Contents()), id, c, input, context), id, c, outcome)
      ensures id in tasks.tasks && tasks.tasks[id].status == FinalStatus(outcome)
    {
      SubmissionIsAccepted(tasks.Contents(), id, employee, c, outcome, created, started, ended);
      BeginTask(id, c, input, context, created, started);
      EndTask(id, c, outcome, ended);
    }

    method NoteInterruption(task: Task)
      requires conversations.Valid()
      modifies conversations
      ensures conversations.Valid()
      ensures conversations.Contents() == NotedOne(old(conversations.Contents()), task)
    {
      if task.conversationId != "" {
        var _ := conversations.AddMessage(task.conversationId, "system", INTERRUPTED_NOTE, "status_update",
                                          StatusNote(task.taskId, "interrupted"));
      }
    }

    /** `_reconcile_inflight_tasks`: recovery, with a message in the conversation of each task it interrupts. */
    method ReconcileInflightTasks(now: Timestamp) returns (ids: seq<TaskId>)
      requires conversations.Valid()
      modifies tasks, conversations
      ensures conversations.Valid()
      ensures var (store, halted) := Recovered(old(tasks.Contents()), employee, RESTARTED, now);
              && tasks.Contents() == store
              && conversations.Contents() == Noted(old(conversations.Contents()), halted)
              && |ids| == |halted| && forall i :: 0 <= i < |ids| ==> ids[i] == halted[i].taskId
    {
      var halted := tasks.MarkInflightTasksInterrupted(employee, RESTARTED, now);
      ids := TellOf(halted);
    }

    /** Its loop over the interrupted tasks. */
    method TellOf(halted: seq<Task>) returns (ids: seq<TaskId>)
      requires conversations.Valid()
      modifies conversations
      ensures conversations.Valid() && conversations.Contents() == Noted(old(conversations.Contents()), halted)
      ensures |ids| == |halted| && forall i :: 0 <= i < |ids| ==> ids[i] == halted[i].taskId
    {
      ghost var log := conversations.Contents();
      ids := [];
      for i := 0 to |halted|
        invariant conversations.Valid() && conversations.Contents() == Noted(log, halted[..i])
        invariant |ids| == i && forall j :: 0 <= j < i ==> ids[j] == halted[j].taskId
      {
        NotedSnoc(log, halted, i);
        ids := ids + [halted[i].taskId];
        NoteInterruption(halted[i]);
      }
      assert halted[..|halted|] == halted;
    }

    /**
     The message is written before the task update is tried, so a refused update leaves the
     message decided; an id that is not pending changes nothing.
     */
    method DecideApproval(messageId: MessageId, decision: string, note: string, now: Timestamp)
      returns (r: Result<Message, DecideError>)
      requires conversations.Valid()
      modifies tasks, conversations
      ensures conversations.Valid()
      ensures (forall p :: !PendingAt(old(conversations.Contents()), p, messageId)) ==>
                && conversations.Contents() == old(conversations.Contents())
                && tasks.Contents() == old(tasks.Contents())
                && r == Err(NotPending)
      ensures forall p :: PendingAt(old(conversations.Contents()), p, messageId) ==>
                var log := old(conversations.Contents());
                var metadata := DecidedMetadata(MessageAt(log, p).metadata, decision, note);
                var (store, refusal) :=
                  DecideTask(TRANSITIONS, old(tasks.Contents()), TaskIdOf(metadata), employee, decision, now);
                && conversations.Contents() == WithMetadata(log, p, metadata)
                && tasks.Contents() == store
                && r == if refusal.Some? then Err(UpdateFailed(refusal.value))
                        else Ok(MessageAt(log, p).(metadata := metadata))
    {
      var found := FindPending(messageId);
      if found.None? {
        return Err(NotPending);
      }
      ghost var log := conversations.Contents();
      ghost var place :| PendingAt(log, place, messageId) && MessageAt(log, place) == found.value;
      forall p | Holds(log, p) && MessageAt(log, p).id == messageId ensures p == place {
        IdsAreUnique(log, p, place);
      }
      var metadata := DecidedMetadata(found.value.metadata, decision, note);
      var updated := conversations.UpdateMessageMetadata(messageId, metadata);
      assert conversations.Contents() == WithMetadata(log, place, metadata);
      var refusal := WriteTask(TaskIdOf(metadata), decision, now);
      r := if refusal.Some? then Err(UpdateFailed(refusal.value)) else Ok(updated.value);
    }

    /** The first pending approval with the given id, as `list_approvals` gives them. */
    method FindPending(messageId: MessageId) returns (found: Option<Message>)
      requires conversations.Valid()
      ensures found.None? ==> forall p :: !PendingAt(conversations.Contents(), p, messageId)
      ensures found.Some? ==>
        exists p :: PendingAt(conversations.Contents(), p, messageId) && MessageAt(conversations.Contents(), p) == found.value
    {
      ghost var log := conversations.Contents();
      var approvals := conversations.ListPendingApprovals();
      forall m ensures m in approvals <==> IsPending(m) && exists p :: Holds(log, p) && MessageAt(log, p) == m {
        PendingIsExact(log, m);
      }
      found := FindById(approvals, messageId);
      if found.None? {
        forall p | Holds(log, p) && IsPending(MessageAt(log, p)) ensures MessageAt(log, p).id != messageId {
          assert MessageAt(log, p) in approvals;
        }
      } else {
        assert found.value in approvals;
        ghost var p :| Holds(log, p) && MessageAt(log, p) == found.value;
        assert PendingAt(conversations.Contents(), p, messageId);
        assert MessageAt(conversations.Contents(), p) == found.value;
      }
    }

    /** The task half of a decision: skipped for a request that names no task. */
    method WriteTask(id: TaskId, decision: string, now: Timestamp) returns (refusal: Option<UpdateError>)
      modifies tasks
      ensures (tasks.Contents(), refusal) == DecideTask(TRANSITIONS, old(tasks.Contents()), id, employee, decision, now)
    {
      if id == "" {
        return None;
      }
      var result := tasks.UpdateTask(id, employee, DecisionChanges(decision, now), now);
      refusal := if result.Err? then Some(result.error) else None;
    }
  }

  ghost predicate PendingAt(log: Log, p: Place, id: MessageId) {
    Holds(log, p) && MessageAt(log, p).id == id && IsPending(MessageAt(log, p))
  }

  /** The task write of a decision: the store after it, and why it was refused if it was. */
  function DecideTask(table: Table, store: Store, id: TaskId, employee: EmployeeId, decision: string, now: Timestamp)
    : (Store, Option<UpdateError>)
  {
    if id == "" then (store, None)
    else match Updated(store, table, id, employee, DecisionChanges(decision, now), now)
      case Ok(after) => (after, None)
      case Err(e) => (store, Some(e))
  }

  method FindById(messages: seq<Message>, id: MessageId) returns (found: Option<Message>)
    ensures found.None? ==> forall m :: m in messages ==> m.id != id
    ensures found.Some? ==> found.value in messages && found.value.id == id
  {
    for i := 0 to |messages|
      invariant forall m :: m in messages[..i] ==> m.id != id
    {
      if messages[i].id == id {
        return Some(messages[i]);
      }
    }
    assert messages[..|messages|] == messages;
    found := None;
  }

  // ----- submission and reconciliation on values -----

  /** What the engine does with a task. */
  datatype Outcome = EngineRaised(error: string) | Produced(approval: bool, summary: string)

  const RECEIVED := "Task received and running."
  const RESTARTED := "runtime_restarted_before_task_completion"
  const INTERRUPTED_NOTE := "A running task was interrupted by a runtime restart and marked interrupted."

  function StatusNote(id: TaskId, status: string): Metadata {
    map["task_id" := id, "status" := status]
  }

  function FinalName(approval: bool): string {
    if approval then "awaiting_approval" else "completed"
  }

  function FinalStatus(outcome: Outcome): Status {
    match outcome
    case EngineRaised(_) => Failed
    case Produced(approval, _) => if approval then AwaitingApproval else Completed
  }

  function BegunStore(store: Store, id: TaskId, employee: EmployeeId, c: ConversationId, created: Timestamp, started: Timestamp): Store {
    UpdatedOr(TRANSITIONS, Created(store, id, employee, c, created), id, employee, StatusChange(Running), started)
  }

  function BegunLog(log: Log, id: TaskId, c: ConversationId, input: string, context: Metadata): Log {
    Added(Added(log, c, "user", input, "text", context), c, "system", RECEIVED, "status_update", StatusNote(id, "running"))
  }

  function OutcomeChanges(outcome: Outcome, ended: Timestamp): Changes {
    match outcome
    case EngineRaised(error) => FailChanges(error, ended)
    case Produced(approval, summary) => FinishChanges(approval, summary, ended)
  }

  function EndedStore(store: Store, id: TaskId, employee: EmployeeId, outcome: Outcome, ended: Timestamp): Store {
    UpdatedOr(TRANSITIONS, store, id, employee, OutcomeChanges(outcome, ended), ended)
  }

  function EndedLog(log: Log, id: TaskId, c: ConversationId, outcome: Outcome): Log {
    match outcome
    case EngineRaised(error) => Added(log, c, "system", "Task failed: " + error, "status_update", StatusNote(id, "failed"))
    case Produced(approval, summary) =>
      var told := Added(log, c, "assistant", summary, "status_update", StatusNote(id, FinalName(approval)));
      if approval then Added(told, c, "assistant", summary, APPROVAL_REQUEST, RequestMetadata(id)) else told
  }

  function NotedOne(log: Log, task: Task): Log {
    if task.conversationId == "" then log
    else Added(log, task.conversationId, "system", INTERRUPTED_NOTE, "status_update", StatusNote(task.taskId, "interrupted"))
  }

  /** The messages that tell of interrupted tasks. */
  function Noted(log: Log, halted: seq<Task>): Log {
    if halted == [] then log else NotedOne(Noted(log, halted[..|halted| - 1]), halted[|halted| - 1])
  }

  lemma NotedSnoc(log: Log, halted: seq<Task>, i: nat)
    requires i < |halted|
    ensures Noted(log, halted[..i + 1]) == NotedOne(Noted(log, halted[..i]), halted[i])
  {
    assert halted[..i + 1][..i] == halted[..i];
  }

  /** Tasks are told of one after the other. */
  lemma {:induction false} NotedInOrder(log: Log, a: seq<Task>, b: seq<Task>, task: Task)
    ensures Noted(log, a + b) == Noted(Noted(log, a), b) && Noted(log, [task]) == NotedOne(log, task)
    decreases |b|
  {
    assert [task][..0] == [];
    if b == [] {
      AppendNothing(a);
    } else {
      var front, last := b[..|b| - 1], b[|b| - 1];
      NotedInOrder(log, a, front, task);
      AppendFront(a, b);
      NotedLast(log, a + front, last);
      NotedLast(Noted(log, a), front, last);
    }
  }

  lemma NotedLast(log: Log, front: seq<Task>, last: Task)
    ensures Noted(log, front + [last]) == NotedOne(Noted(log, front), last)
  {
    assert (front + [last])[..|front|] == front;
  }

  lemma EnsuredOnce(log: Log, c: ConversationId, role: string, content: string, kind: string, metadata: Metadata)
    ensures LogValid(log) ==> LogValid(Ensured(log, c))
    ensures Added(Ensured(log, c), c, role, content, kind, metadata) == Added(log, c, role, content, kind, metadata)
  {
  }

  lemma SubmissionIsAccepted(store: Store, id: TaskId, employee: EmployeeId, c: ConversationId, outcome: Outcome,
                             created: Timestamp, started: Timestamp, ended: Timestamp)
    ensures var begun := BegunStore(store, id, employee, c, created, started);
            var after := EndedStore(begun, id, employee, outcome, ended);
            && id in begun.tasks && begun.tasks[id].status == Running
            && id in after.tasks && after.tasks[id].status == FinalStatus(outcome)
  {
  }

  /** The task an undisturbed submission leaves, field by field. */
  lemma SubmissionLeavesTask(store: Store, id: TaskId, employee: EmployeeId, c: ConversationId, outcome: Outcome,
                             created: Timestamp, started: Timestamp, ended: Timestamp)
    ensures var after := EndedStore(BegunStore(store, id, employee, c, created, started), id, employee, outcome, ended);
            && after.tasks == store.tasks[id := after.tasks[id]]
            && after.tasks[id]
               == match outcome
                  case EngineRaised(error) => Task(id, employee, c, Failed, "", error, false, "", Some(ended), ended)
                  case Produced(true, summary) => Task(id, employee, c, AwaitingApproval, summary, "", true, "", None, ended)
                  case Produced(false, summary) => Task(id, employee, c, Completed, summary, "", false, "", Some(ended), ended)
  {
    SubmissionIsAccepted(store, id, employee, c, outcome, created, started, ended);
  }

  /** Role, content, kind and metadata of messages. */
  function Contents(messages: seq<Message>): seq<(string, string, string, Metadata)> {
    seq(|messages|, i requires 0 <= i < |messages| =>
      (messages[i].role, messages[i].content, messages[i].kind, messages[i].metadata))
  }

  function MessagesOf(log: Log, c: ConversationId): seq<Message> {
    if c in log.messages then log.messages[c] else []
  }

  /** The conversation has got messages of these contents, and no other conversation has changed. */
  ghost predicate Appended(before: Log, after: Log, c: ConversationId, contents: seq<(string, string, string, Metadata)>) {
    && c in after.messages && after.messages == before.messages[c := after.messages[c]]
    && Contents(after.messages[c]) == Contents(MessagesOf(before, c)) + contents
  }

  lemma AddedIsAppended(log: Log, c: ConversationId, role: string, content: string, kind: string, metadata: Metadata)
    ensures Appended(log, Added(log, c, role, content, kind, metadata), c, [(role, content, kind, metadata)])
  {
  }

  lemma AppendedTwice(first: Log, second: Log, third: Log, c: ConversationId, a: seq<(string, string, string, Metadata)>,
                      b: seq<(string, string, string, Metadata)>)
    requires Appended(first, second, c, a) && Appended(second, third, c, b)
    ensures Appended(first, third, c, a + b)
  {
    assert Contents(MessagesOf(first, c)) + a + b == Contents(MessagesOf(first, c)) + (a + b);
  }

  /** The message that tells of one interrupted task, if it has a conversation. */
  lemma NotedOneIsAppended(log: Log, task: Task)
    ensures if task.conversationId == "" then NotedOne(log, task) == log
            else Appended(log, NotedOne(log, task), task.conversationId,
                          [("system", "A running task was interrupted by a runtime restart and marked interrupted.",
                            "status_update", map["task_id" := task.taskId, "status" := "interrupted"])])
  {
    if task.conversationId != "" {
      AddedIsAppended(log, task.conversationId, "system", INTERRUPTED_NOTE, "status_update", StatusNote(task.taskId, "interrupted"));
    }
  }

  lemma BegunIsAppended(log: Log, id: TaskId, c: ConversationId, input: string, context: Metadata)
    ensures Appended(log, BegunLog(log, id, c, input, context), c,
                     [("user", input, "text", context),
                      ("system", "Task received and running.", "status_update", map["task_id" := id, "status" := "running"])])
  {
    var told := Added(log, c, "user", input, "text", context);
    AddedIsAppended(log, c, "user", input, "text", context);
    AddedIsAppended(told, c, "system", RECEIVED, "status_update", StatusNote(id, "running"));
    AppendedTwice(log, told, BegunLog(log, id, c, input, context), c, [("user", input, "text", context)],
                  [("system", RECEIVED, "status_update", StatusNote(id, "running"))]);
  }

  lemma EndedIsAppended(log: Log, id: TaskId, c: ConversationId, outcome: Outcome)
    ensures Appended(log, EndedLog(log, id, c, outcome), c,
                     match outcome
                     case EngineRaised(error) =>
                       [("system", "Task failed: " + error, "status_update", map["task_id" := id, "status" := "failed"])]
                     case Produced(true, summary) =>
                       [("assistant", summary, "status_update", map["task_id" := id, "status" := "awaiting_approval"]),
                        ("assistant", summary, "approval_request", map["task_id" := id, "status" := "pending", "decision" := ""])]
                     case Produced(false, summary) =>
                       [("assistant", summary, "status_update", map["task_id" := id, "status" := "completed"])])
  {
    match outcome
    case EngineRaised(error) =>
      AddedIsAppended(log, c, "system", "Task failed: " + error, "status_update", StatusNote(id, "failed"));
    case Produced(approval, summary) =>
      var told := Added(log, c, "assistant", summary, "status_update", StatusNote(id, FinalName(approval)));
      AddedIsAppended(log, c, "assistant", summary, "status_update", StatusNote(id, FinalName(approval)));
      if approval {
        AddedIsAppended(told, c, "assistant", summary, APPROVAL_REQUEST, RequestMetadata(id));
        AppendedTwice(log, told, EndedLog(log, id, c, outcome), c,
                      [("assistant", summary, "status_update", StatusNote(id, "awaiting_approval"))],
                      [("assistant", summary, APPROVAL_REQUEST, RequestMetadata(id))]);
      }
  }

  /** The messages a submission adds to its conversation, and to no other. */
  lemma SubmissionLeavesMessages(log: Log, id: TaskId, c: ConversationId, input: string, context: Metadata, outcome: Outcome)
    ensures Appended(log, EndedLog(BegunLog(log, id, c, input, context), id, c, outcome), c,
                     [("user", input, "text", context),
                      ("system", "Task received and running.", "status_update", map["task_id" := id, "status" := "running"])]
                     + match outcome
                       case EngineRaised(error) =>
                         [("system", "Task failed: " + error, "status_update", map["task_id" := id, "status" := "failed"])]
                       case Produced(true, summary) =>
                         [("assistant", summary, "status_update", map["task_id" := id, "status" := "awaiting_approval"]),
                          ("assistant", summary, "approval_request", map["task_id" := id, "status" := "pending", "decision" := ""])]
                       case Produced(false, summary) =>
                         [("assistant", summary, "status_update", map["task_id" := id, "status" := "completed"])])
  {
    var begun := BegunLog(log, id, c, input, context);
    BegunIsAppended(log, id, c, input, context);
    EndedIsAppended(begun, id, c, outcome);
    AppendedTwice(log, begun, EndedLog(begun, id, c, outcome), c,
                  [("user", input, "text", context),
                   ("system", "Task received and running.", "status_update", map["task_id" := id, "status" := "running"])],
                  match outcome
                  case EngineRaised(error) =>
                    [("system", "Task failed: " + error, "status_update", map["task_id" := id, "status" := "failed"])]
                  case Produced(true, summary) =>
                    [("assistant", summary, "status_update", map["task_id" := id, "status" := "awaiting_approval"]),
                     ("assistant", summary, "approval_request", map["task_id" := id, "status" := "pending", "decision" := ""])]
                  case Produced(false, summary) =>
                    [("assistant", summary, "status_update", map["task_id" := id, "status" := "completed"])]);
  }

  // ----- runs of the service -----

  /** How far a submission has come; it is forgotten when it ends. */
  datatype Phase = Starting | Working | Posting

  /** A decision in progress: what it read, and whether it has written the message yet. */
  datatype Decision = Decision(place: Place, metadata: Metadata, decision: string, note: string, written: bool)

  /**
   `contested` collects the messages on which two decisions overlapped, and `torn` the approved
   messages whose decision a restart cut off before its task write.  Both only record history.
   */
  datatype Service = Service(
    store: Store,
    log: Log,
    live: map<TaskId, Phase>,
    deciding: map<nat, Decision>,
    contested: set<Place>,
    torn: set<Place>)

  datatype Step =
    | Submit(id: TaskId, conversation: ConversationId, now: Timestamp)
    | Start(id: TaskId, now: Timestamp)
    | Fail(id: TaskId, error: string, now: Timestamp)
    | Finish(id: TaskId, approval: bool, summary: string, now: Timestamp)
    | Post(id: TaskId, summary: string)
    | Say(conversation: ConversationId, role: string, content: string, kind: string, metadata: Metadata)
    | Read(who: nat, place: Place, decision: string, note: string)
    | Write(who: nat)
    | Decide(who: nat, now: Timestamp)
    | Restart(reason: string, now: Timestamp)

  ghost predicate IsRequest(log: Log, p: Place) {
    Holds(log, p) && MessageAt(log, p).kind == APPROVAL_REQUEST
  }

  ghost predicate Waiting(sys: Service, id: TaskId, phase: Phase) {
    id in sys.live && sys.live[id] == phase
  }

  /** What a step needs before the service takes it; a created id is always new. */
  ghost predicate Enabled(sys: Service, step: Step) {
    match step
    case Submit(id, _, _) => id != "" && id !in sys.store.tasks
    case Start(id, _) => Waiting(sys, id, Starting)
    case Fail(id, _, _) => Waiting(sys, id, Working)
    case Finish(id, _, _, _) => Waiting(sys, id, Working)
    case Post(id, _) => Waiting(sys, id, Posting) && id in sys.store.tasks
    case Say(_, _, _, kind, _) => kind != APPROVAL_REQUEST
    case Read(who, p, _, _) => who !in sys.deciding && Holds(sys.log, p) && IsPending(MessageAt(sys.log, p))
    case Write(who) => who in sys.deciding && !sys.deciding[who].written && Holds(sys.log, sys.deciding[who].place)
    case Decide(who, _) => who in sys.deciding && sys.deciding[who].written
    case Restart(_, _) => true
  }

  function UpdatedOr(table: Table, store: Store, id: TaskId, employee: EmployeeId, c: Changes, now: Timestamp): Store {
    match Updated(store, table, id, employee, c, now)
    case Ok(after) => after
    case Err(_) => store
  }

  /** The messages an interrupted decision leaves approved without its task write. */
  ghost function CutOff(deciding: map<nat, Decision>): set<Place> {
    set who | who in deciding && deciding[who].written && Verdict(deciding[who].decision) == Completed :: deciding[who].place
  }

  /** A step that is not enabled is not taken. */
  ghost function Take(table: Table, me: EmployeeId, sys: Service, step: Step): Service {
    if !Enabled(sys, step) then sys
    else match step
    case Submit(id, c, now) =>
      sys.(store := Created(sys.store, id, me, c, now), live := sys.live[id := Starting])
    case Start(id, now) =>
      sys.(store := UpdatedOr(table, sys.store, id, me, StatusChange(Running), now), live := sys.live[id := Working])
    case Fail(id, error, now) =>
      sys.(store := UpdatedOr(table, sys.store, id, me, FailChanges(error, now), now),
           live := sys.live - {id})
    case Finish(id, approval, summary, now) =>
      sys.(store := UpdatedOr(table, sys.store, id, me, FinishChanges(approval, summary, now), now),
           live := if approval then sys.live[id := Posting] else sys.live - {id})
    case Post(id, summary) =>
      sys.(log := Added(sys.log, sys.store.tasks[id].conversationId, "assistant", summary, APPROVAL_REQUEST, RequestMetadata(id)),
           live := sys.live - {id})
    case Say(c, role, content, kind, metadata) =>
      sys.(log := Added(sys.log, c, role, content, kind, metadata))
    case Read(who, p, decision, note) =>
      sys.(deciding := sys.deciding[who := Decision(p, MessageAt(sys.log, p).metadata, decision, note, false)])
    case Write(who) =>
      var d := sys.deciding[who];
      var overlapped := !IsPending(MessageAt(sys.log, d.place))
                        || exists other :: other in sys.deciding && other != who && sys.deciding[other].place == d.place;
      sys.(log := WithMetadata(sys.log, d.place, DecidedMetadata(d.metadata, d.decision, d.note)),
           deciding := sys.deciding[who := d.(written := true)],
           contested := if overlapped then sys.contested + {d.place} else sys.contested)
    case Decide(who, now) =>
      var d := sys.deciding[who];
      sys.(store := DecideTask(table, sys.store, TaskIdOf(d.metadata), me, d.decision, now).0,
           deciding := sys.deciding - {who})
    case Restart(reason, now) =>
      sys.(store := Recovered(sys.store, me, reason, now).0, live := map[], deciding := map[],
           torn := sys.torn + CutOff(sys.deciding))
  }

  const INITIAL := Service(EMPTY, Log([], map[]), map[], map[], {}, {})

  ghost function Run(table: Table, me: EmployeeId, sys: Service, steps: seq<Step>): Service
    decreases |steps|
  {
    if steps == [] then sys else Run(table, me, Take(table, me, sys, steps[0]), steps[1..])
  }

  // ----- submission and reconciliation as runs -----

  /** The steps of one submission, in order. */
  ghost function BeginSteps(id: TaskId, c: ConversationId, input: string, context: Metadata, created: Timestamp, started: Timestamp)
    : seq<Step>
  {
    [Submit(id, c, created), Say(c, "user", input, "text", context)]
    + [Start(id, started), Say(c, "system", RECEIVED, "status_update", StatusNote(id, "running"))]
  }

  ghost function EndSteps(id: TaskId, c: ConversationId, outcome: Outcome, ended: Timestamp): seq<Step> {
    match outcome
    case EngineRaised(error) =>
      [Fail(id, error, ended), Say(c, "system", "Task failed: " + error, "status_update", StatusNote(id, "failed"))]
    case Produced(approval, summary) =>
      [Finish(id, approval, summary, ended), Say(c, "assistant", summary, "status_update", StatusNote(id, FinalName(approval)))]
      + if approval then [Post(id, summary)] else []
  }

  lemma {:induction false} RunAppend(table: Table, me: EmployeeId, sys: Service, a: seq<Step>, b: seq<Step>)
    ensures Run(table, me, sys, a + b) == Run(table, me, Run(table, me, sys, a), b)
    decreases |a|
  {
    if a == [] {
      assert a + b == b;
    } else {
      assert (a + b)[1..] == a[1..] + b;
      RunAppend(table, me, Take(table, me, sys, a[0]), a[1..], b);
    }
  }

  lemma RunOne(table: Table, me: EmployeeId, sys: Service, step: Step)
    ensures Run(table, me, sys, [step]) == Take(table, me, sys, step)
  {
    assert [step][1..] == [];
  }

  lemma RunTwo(table: Table, me: EmployeeId, sys: Service, first: Step, second: Step)
    ensures Run(table, me, sys, [first, second]) == Take(table, me, Take(table, me, sys, first), second)
  {
    assert [first, second] == [first] + [second];
    RunAppend(table, me, sys, [first], [second]);
    RunOne(table, me, sys, first);
    RunOne(table, me, Take(table, me, sys, first), second);
  }

  /** A message that is no approval request only extends the log. */
  lemma TakeSay(me: EmployeeId, sys: Service, say: Step)
    requires say.Say? && say.kind != APPROVAL_REQUEST
    ensures Take(TRANSITIONS, me, sys, say)
            == sys.(log := Added(sys.log, say.conversation, say.role, say.content, say.kind, say.metadata))
  {
  }

  lemma CreationIsRun(me: EmployeeId, sys: Service, id: TaskId, c: ConversationId, created: Timestamp, told: Step)
    requires id != "" && id !in sys.store.tasks && told.Say? && told.kind != APPROVAL_REQUEST && told.conversation == c
    ensures Run(TRANSITIONS, me, sys, [Submit(id, c, created), told])
            == sys.(store := Created(sys.store, id, me, c, created), live := sys.live[id := Starting],
                    log := Added(sys.log, c, told.role, told.content, told.kind, told.metadata))
  {
    RunTwo(TRANSITIONS, me, sys, Submit(id, c, created), told);
    TakeSay(me, Take(TRANSITIONS, me, sys, Submit(id, c, created)), told);
  }

  lemma StartIsRun(me: EmployeeId, sys: Service, id: TaskId, started: Timestamp, told: Step)
    requires Waiting(sys, id, Starting) && told.Say? && told.kind != APPROVAL_REQUEST
    ensures Run(TRANSITIONS, me, sys, [Start(id, started), told])
            == sys.(store := UpdatedOr(TRANSITIONS, sys.store, id, me, StatusChange(Running), started),
                    live := sys.live[id := Working],
                    log := Added(sys.log, told.conversation, told.role, told.content, told.kind, told.metadata))
  {
    RunTwo(TRANSITIONS, me, sys, Start(id, started), told);
    TakeSay(me, Take(TRANSITIONS, me, sys, Start(id, started)), told);
  }

  /** The service once a new submission is running. */
  ghost function Begun(me: EmployeeId, sys: Service, id: TaskId, c: ConversationId, input: string, context: Metadata,
                       created: Timestamp, started: Timestamp): Service {
    sys.(store := BegunStore(sys.store, id, me, c, created, started), log := BegunLog(sys.log, id, c, input, context),
         live := sys.live[id := Working])
  }

  /** The service once that submission has ended. */
  ghost function Ended(me: EmployeeId, sys: Service, id: TaskId, c: ConversationId, outcome: Outcome, ended: Timestamp): Service {
    sys.(store := EndedStore(sys.store, id, me, outcome, ended), log := EndedLog(sys.log, id, c, outcome), live := sys.live - {id})
  }

  lemma RunsCompose(table: Table, me: EmployeeId, sys: Service, a: seq<Step>, mid: Service, b: seq<Step>, last: Service)
    requires Run(table, me, sys, a) == mid && Run(table, me, mid, b) == last
    ensures Run(table, me, sys, a + b) == last
  {
    RunAppend(table, me, sys, a, b);
  }

  lemma BeginIsRun(me: EmployeeId, sys: Service, id: TaskId, c: ConversationId, input: string, context: Metadata,
                   created: Timestamp, started: Timestamp)
    requires id != "" && id !in sys.store.tasks
    ensures Run(TRANSITIONS, me, sys, BeginSteps(id, c, input, context, created, started))
            == Begun(me, sys, id, c, input, context, created, started)
  {
    var told := Say(c, "user", input, "text", context);
    var running := Say(c, "system", RECEIVED, "status_update", StatusNote(id, "running"));
    var mid := sys.(store := Created(sys.store, id, me, c, created), live := sys.live[id := Starting],
                    log := Added(sys.log, c, "user", input, "text", context));
    CreationIsRun(me, sys, id, c, created, told);
    StartIsRun(me, mid, id, started, running);
    assert sys.live[id := Starting][id := Working] == sys.live[id := Working];
    RunsCompose(TRANSITIONS, me, sys, [Submit(id, c, created), told], mid, [Start(id, started), running],
                Begun(me, sys, id, c, input, context, created, started));
  }

  lemma FailureIsRun(me: EmployeeId, sys: Service, id: TaskId, c: ConversationId, error: string, ended: Timestamp)
    requires Waiting(sys, id, Working)
    ensures Run(TRANSITIONS, me, sys, EndSteps(id, c, EngineRaised(error), ended))
            == Ended(me, sys, id, c, EngineRaised(error), ended)
  {
    var fail := Fail(id, error, ended);
    var told := Say(c, "system", "Task failed: " + error, "status_update", StatusNote(id, "failed"));
    RunTwo(TRANSITIONS, me, sys, fail, told);
    TakeSay(me, Take(TRANSITIONS, me, sys, fail), told);
  }

  lemma CompletionIsRun(me: EmployeeId, sys: Service, id: TaskId, c: ConversationId, summary: string, ended: Timestamp)
    requires Waiting(sys, id, Working)
    ensures Run(TRANSITIONS, me, sys, EndSteps(id, c, Produced(false, summary), ended))
            == Ended(me, sys, id, c, Produced(false, summary), ended)
  {
    var finish := Finish(id, false, summary, ended);
    var told := Say(c, "assistant", summary, "status_update", StatusNote(id, FinalName(false)));
    assert EndSteps(id, c, Produced(false, summary), ended) == [finish, told];
    RunTwo(TRANSITIONS, me, sys, finish, told);
    TakeSay(me, Take(TRANSITIONS, me, sys, finish), told);
  }

  lemma RequestIsRun(me: EmployeeId, sys: Service, id: TaskId, c: ConversationId, summary: string, ended: Timestamp)
    requires id in sys.store.tasks && sys.store.tasks[id].conversationId == c && Waiting(sys, id, Working)
    ensures Run(TRANSITIONS, me, sys, EndSteps(id, c, Produced(true, summary), ended))
            == Ended(me, sys, id, c, Produced(true, summary), ended)
  {
    var finish, post := Finish(id, true, summary, ended), Post(id, summary);
    var told := Say(c, "assistant", summary, "status_update", StatusNote(id, FinalName(true)));
    RunAppend(TRANSITIONS, me, sys, [finish, told], [post]);
    RunTwo(TRANSITIONS, me, sys, finish, told);
    TakeSay(me, Take(TRANSITIONS, me, sys, finish), told);
    RunOne(TRANSITIONS, me, Take(TRANSITIONS, me, Take(TRANSITIONS, me, sys, finish), told), post);
    assert sys.live[id := Posting] - {id} == sys.live - {id};
  }

  lemma EndIsRun(me: EmployeeId, sys: Service, id: TaskId, c: ConversationId, outcome: Outcome, ended: Timestamp)
    requires id in sys.store.tasks && sys.store.tasks[id].conversationId == c && Waiting(sys, id, Working)
    ensures Run(TRANSITIONS, me, sys, EndSteps(id, c, outcome, ended)) == Ended(me, sys, id, c, outcome, ended)
  {
    match outcome
    case EngineRaised(error) => FailureIsRun(me, sys, id, c, error, ended);
    case Produced(approval, summary) =>
      if approval {
        RequestIsRun(me, sys, id, c, summary, ended);
      } else {
        CompletionIsRun(me, sys, id, c, summary, ended);
      }
  }

  lemma EndedAfterBegun(me: EmployeeId, sys: Service, id: TaskId, c: ConversationId, input: string, context: Metadata,
                        outcome: Outcome, created: Timestamp, started: Timestamp, ended: Timestamp)
    requires id !in sys.live
    ensures Ended(me, Begun(me, sys, id, c, input, context, created, started), id, c, outcome, ended)
            == sys.(store := EndedStore(BegunStore(sys.store, id, me, c, created, started), id, me, outcome, ended),
                    log := EndedLog(BegunLog(sys.log, id, c, input, context), id, c, outcome))
  {
    assert sys.live[id := Working] - {id} == sys.live;
  }

  /** `submit_task` with a new id, undisturbed, is a run of the service. */
  lemma SubmissionIsRun(me: EmployeeId, sys: Service, id: TaskId, c: ConversationId, input: string, context: Metadata,
                        outcome: Outcome, created: Timestamp, started: Timestamp, ended: Timestamp)
    requires id != "" && id !in sys.store.tasks && id !in sys.live
    ensures var steps := BeginSteps(id, c, input, context, created, started) + EndSteps(id, c, outcome, ended);
            Run(TRANSITIONS, me, sys, steps)
            == sys.(store := EndedStore(BegunStore(sys.store, id, me, c, created, started), id, me, outcome, ended),
                    log := EndedLog(BegunLog(sys.log, id, c, input, context), id, c, outcome))
  {
    var mid := Begun(me, sys, id, c, input, context, created, started);
    BeginIsRun(me, sys, id, c, input, context, created, started);
    SubmissionIsAccepted(sys.store, id, me, c, outcome, created, started, ended);
    EndIsRun(me, mid, id, c, outcome, ended);
    RunsCompose(TRANSITIONS, me, sys, BeginSteps(id, c, input, context, created, started), mid,
                EndSteps(id, c, outcome, ended), Ended(me, mid, id, c, outcome, ended));
    EndedAfterBegun(me, sys, id, c, input, context, outcome, created, started, ended);
  }

  ghost function NoteSteps(halted: seq<Task>): seq<Step> {
    if halted == [] then []
    else
      var task := halted[|halted| - 1];
      NoteSteps(halted[..|halted| - 1])
      + if task.conversationId == "" then []
        else [Say(task.conversationId, "system", INTERRUPTED_NOTE, "status_update", StatusNote(task.taskId, "interrupted"))]
  }

  lemma {:induction false} NotesAreRun(me: EmployeeId, sys: Service, halted: seq<Task>)
    ensures Run(TRANSITIONS, me, sys, NoteSteps(halted)) == sys.(log := Noted(sys.log, halted))
  {
    if halted != [] {
      var front, task := halted[..|halted| - 1], halted[|halted| - 1];
      NotesAreRun(me, sys, front);
      if task.conversationId == "" {
        AppendNothing(NoteSteps(front));
      } else {
        var note := Say(task.conversationId, "system", INTERRUPTED_NOTE, "status_update", StatusNote(task.taskId, "interrupted"));
        RunAppend(TRANSITIONS, me, sys, NoteSteps(front), [note]);
        RunOne(TRANSITIONS, me, Run(TRANSITIONS, me, sys, NoteSteps(front)), note);
      }
    }
  }

  /** `_reconcile_inflight_tasks` after a restart is a run of the service as well. */
  lemma ReconciliationIsRun(me: EmployeeId, sys: Service, now: Timestamp)
    ensures var (store, halted) := Recovered(sys.store, me, RESTARTED, now);
            var after := Run(TRANSITIONS, me, sys, [Restart(RESTARTED, now)] + NoteSteps(halted));
            after.store == store && after.log == Noted(sys.log, halted) && after.live == map[] && after.deciding == map[]
  {
    var halted := Recovered(sys.store, me, RESTARTED, now).1;
    RunAppend(TRANSITIONS, me, sys, [Restart(RESTARTED, now)], NoteSteps(halted));
    RunOne(TRANSITIONS, me, sys, Restart(RESTARTED, now));
    NotesAreRun(me, Take(TRANSITIONS, me, sys, Restart(RESTARTED, now)), halted);
  }

  // ----- what every run keeps, whatever the table -----

  ghost function RequestTask(log: Log, p: Place): TaskId
    requires Holds(log, p)
  {
    TaskIdOf(MessageAt(log, p).metadata)
  }

  function PhaseStatus(phase: Phase): Status {
    match phase
    case Starting => Queued
    case Working => Running
    case Posting => AwaitingApproval
  }

  ghost predicate StoresAgree(me: EmployeeId, sys: Service) {
    && Agrees(sys.store) && LogValid(sys.log)
    && (forall id :: id in sys.store.tasks ==> id != "" && sys.store.tasks[id].employeeId == me)
    && (forall id :: id in sys.live ==> id in sys.store.tasks && sys.store.tasks[id].status == PhaseStatus(sys.live[id]))
  }

  /** Each approval request names a task of its own that no submission is still working on. */
  ghost predicate RequestsName(log: Log, tasks: set<TaskId>, live: set<TaskId>) {
    forall p :: IsRequest(log, p) ==> RequestTask(log, p) in tasks && RequestTask(log, p) !in live
  }

  ghost predicate RequestsDiffer(log: Log) {
    forall p, q :: IsRequest(log, p) && IsRequest(log, q) && p != q ==> RequestTask(log, p) != RequestTask(log, q)
  }

  ghost predicate DecisionsMatch(log: Log, deciding: map<nat, Decision>) {
    forall who :: who in deciding ==>
      IsRequest(log, deciding[who].place) && TaskIdOf(deciding[who].metadata) == RequestTask(log, deciding[who].place)
  }

  ghost predicate RequestsNameTasks(sys: Service) {
    && RequestsName(sys.log, sys.store.tasks.Keys, sys.live.Keys)
    && RequestsDiffer(sys.log)
    && DecisionsMatch(sys.log, sys.deciding)
  }

  ghost predicate Consistent(me: EmployeeId, sys: Service) {
    StoresAgree(me, sys) && RequestsNameTasks(sys)
  }

  /** The tables under which submissions move as the service expects. */
  ghost predicate Moves(table: Table) {
    && Queued in table && Running in table && AwaitingApproval in table && Failed in table && Completed in table
    && Running in table[Queued] && {Completed, Failed, AwaitingApproval} <= table[Running]
  }

  /** Steps that leave the messages alone keep requests tied to tasks if they only add live tasks that are new. */
  lemma StoreStepKeepsRequests(sys: Service, after: Service)
    requires RequestsNameTasks(sys) && after.log == sys.log
    requires forall who :: who in after.deciding ==> who in sys.deciding && after.deciding[who] == sys.deciding[who]
    requires sys.store.tasks.Keys <= after.store.tasks.Keys
    requires after.live.Keys * sys.store.tasks.Keys <= sys.live.Keys
    ensures RequestsNameTasks(after)
  {
  }

  lemma NewTaskKeepsStores(me: EmployeeId, sys: Service, after: Service, id: TaskId, c: ConversationId, now: Timestamp)
    requires StoresAgree(me, sys) && id != "" && id !in sys.store.tasks
    requires after.store == Created(sys.store, id, me, c, now) && after.log == sys.log && after.live == sys.live[id := Starting]
    ensures StoresAgree(me, after)
  {
    CreateKeepsAgreement(sys.store, id, me, c, now);
  }

  lemma SubmitKeepsConsistency(table: Table, me: EmployeeId, sys: Service, id: TaskId, c: ConversationId, now: Timestamp)
    requires Consistent(me, sys) && Enabled(sys, Submit(id, c, now))
    ensures Consistent(me, Take(table, me, sys, Submit(id, c, now)))
  {
    var after := Take(table, me, sys, Submit(id, c, now));
    NewTaskKeepsStores(me, sys, after, id, c, now);
    StoreStepKeepsRequests(sys, after);
  }

  /** An update that the table allows moves one live task; the submission goes on or ends with it. */
  lemma AdvanceKeepsConsistency(table: Table, me: EmployeeId, sys: Service, after: Service, id: TaskId, c: Changes, now: Timestamp)
    requires Consistent(me, sys) && id in sys.live && c.status.Some?
    requires Validate(table, sys.store.tasks[id].status, c.status.value).None?
    requires after == sys.(store := UpdatedOr(table, sys.store, id, me, c, now), live := after.live)
    requires after.live == sys.live - {id} || exists ph :: PhaseStatus(ph) == c.status.value && after.live == sys.live[id := ph]
    ensures Consistent(me, after)
  {
    UpdateKeepsAgreement(sys.store, table, id, me, c, now);
    StoreStepKeepsRequests(sys, after);
  }

  lemma ProgressKeepsConsistency(table: Table, me: EmployeeId, sys: Service, step: Step)
    requires Moves(table) && Consistent(me, sys) && Enabled(sys, step)
    requires step.Start? || step.Fail? || step.Finish?
    ensures Consistent(me, Take(table, me, sys, step))
  {
    var after := Take(table, me, sys, step);
    match step
    case Start(id, now) =>
      assert PhaseStatus(Working) == Running;
      AdvanceKeepsConsistency(table, me, sys, after, id, StatusChange(Running), now);
    case Fail(id, error, now) =>
      AdvanceKeepsConsistency(table, me, sys, after, id, FailChanges(error, now), now);
    case Finish(id, approval, summary, now) =>
      assert PhaseStatus(Posting) == AwaitingApproval;
      AdvanceKeepsConsistency(table, me, sys, after, id, FinishChanges(approval, summary, now), now);
  }

  lemma DecideTaskKeepsAgreement(table: Table, store: Store, id: TaskId, me: EmployeeId, decision: string, now: Timestamp)
    requires Agrees(store)
    ensures var after := DecideTask(table, store, id, me, decision, now).0;
            && Agrees(after) && after.tasks.Keys == store.tasks.Keys
            && (forall k :: k in store.tasks ==> after.tasks[k].employeeId == store.tasks[k].employeeId)
            && (forall k :: k in store.tasks && k != id ==> after.tasks[k] == store.tasks[k])
  {
    UpdateKeepsAgreement(store, table, id, me, DecisionChanges(decision, now), now);
  }

  lemma DecideKeepsConsistency(table: Table, me: EmployeeId, sys: Service, who: nat, now: Timestamp)
    requires Consistent(me, sys) && Enabled(sys, Decide(who, now))
    ensures Consistent(me, Take(table, me, sys, Decide(who, now)))
  {
    var d := sys.deciding[who];
    DecideTaskKeepsAgreement(table, sys.store, TaskIdOf(d.metadata), me, d.decision, now);
    StoreStepKeepsRequests(sys, Take(table, me, sys, Decide(who, now)));
  }

  lemma RestartKeepsConsistency(table: Table, me: EmployeeId, sys: Service, reason: string, now: Timestamp)
    requires Consistent(me, sys)
    ensures Consistent(me, Take(table, me, sys, Restart(reason, now)))
  {
    RecoveryIsExact(sys.store, me, reason, now, reason, now);
    StoreStepKeepsRequests(sys, Take(table, me, sys, Restart(reason, now)));
  }

  ghost predicate RequestsHold(log: Log, tasks: set<TaskId>, live: set<TaskId>, deciding: map<nat, Decision>) {
    RequestsName(log, tasks, live) && RequestsDiffer(log) && DecisionsMatch(log, deciding)
  }

  /** A step that writes messages, and at most ends submissions, keeps all if it keeps the requests. */
  lemma MessageStepKeepsConsistency(me: EmployeeId, sys: Service, after: Service)
    requires Consistent(me, sys)
    requires after.store == sys.store
    requires forall id :: id in after.live ==> id in sys.live && after.live[id] == sys.live[id]
    requires LogValid(after.log) && RequestsHold(after.log, after.store.tasks.Keys, after.live.Keys, after.deciding)
    ensures Consistent(me, after)
  {
  }

  /** One message more: `log` with a message at the place `new`. */
  ghost predicate OneMessageMore(log: Log, after: Log, added: Place) {
    && !Holds(log, added)
    && (forall p :: Holds(after, p) <==> Holds(log, p) || p == added)
    && (forall p :: Holds(log, p) && Holds(after, p) ==> MessageAt(after, p) == MessageAt(log, p))
  }

  lemma NewRequestIsNamed(log: Log, after: Log, tasks: set<TaskId>, live: set<TaskId>, deciding: map<nat, Decision>, id: TaskId, p: Place)
    requires RequestsHold(log, tasks, live, deciding) && id in tasks && id in live
    requires OneMessageMore(log, after, p)
    requires IsRequest(after, p) ==> RequestTask(after, p) == id
    ensures RequestsHold(after, tasks, live - {id}, deciding)
  {
    forall q | IsRequest(after, q)
      ensures (IsRequest(log, q) && RequestTask(after, q) == RequestTask(log, q)) || (q == p && RequestTask(after, q) == id)
    {
      assert Holds(after, q);
    }
  }

  lemma PostKeepsConsistency(table: Table, me: EmployeeId, sys: Service, id: TaskId, summary: string)
    requires Consistent(me, sys) && Enabled(sys, Post(id, summary))
    ensures Consistent(me, Take(table, me, sys, Post(id, summary)))
  {
    var c := sys.store.tasks[id].conversationId;
    AddedIsValid(sys.log, c, "assistant", summary, APPROVAL_REQUEST, RequestMetadata(id));
    var after := Take(table, me, sys, Post(id, summary));
    NewRequestIsNamed(sys.log, after.log, sys.store.tasks.Keys, sys.live.Keys, sys.deciding, id, NextPlace(sys.log, c));
    assert after.live.Keys == sys.live.Keys - {id};
    MessageStepKeepsConsistency(me, sys, after);
  }

  lemma OtherMessageKeepsRequests(log: Log, after: Log, tasks: set<TaskId>, live: set<TaskId>, deciding: map<nat, Decision>, p: Place)
    requires RequestsHold(log, tasks, live, deciding) && OneMessageMore(log, after, p) && !IsRequest(after, p)
    ensures RequestsHold(after, tasks, live, deciding)
  {
    forall q ensures IsRequest(after, q) <==> IsRequest(log, q) {
      assert Holds(after, q) <==> Holds(log, q) || q == p;
    }
    SameRequestsStayNamed(log, after, tasks, live, deciding);
  }

  lemma SayKeepsConsistency(table: Table, me: EmployeeId, sys: Service, step: Step)
    requires Consistent(me, sys) && step.Say? && Enabled(sys, step)
    ensures Consistent(me, Take(table, me, sys, step))
  {
    AddedIsValid(sys.log, step.conversation, step.role, step.content, step.kind, step.metadata);
    var after := Take(table, me, sys, step);
    OtherMessageKeepsRequests(sys.log, after.log, sys.store.tasks.Keys, sys.live.Keys, sys.deciding,
                              NextPlace(sys.log, step.conversation));
    MessageStepKeepsConsistency(me, sys, after);
  }

  /** Writing a decision changes no request's place, kind or task. */
  lemma WriteKeepsRequests(log: Log, p: Place, metadata: Metadata)
    requires LogValid(log) && IsRequest(log, p) && TaskIdOf(metadata) == RequestTask(log, p)
    ensures var after := WithMetadata(log, p, metadata);
            && LogValid(after)
            && (forall q :: IsRequest(after, q) <==> IsRequest(log, q))
            && (forall q :: IsRequest(log, q) ==> RequestTask(after, q) == RequestTask(log, q))
  {
    WithMetadataIsValid(log, p, metadata);
  }

  lemma SameRequestsStayNamed(log: Log, after: Log, tasks: set<TaskId>, live: set<TaskId>, deciding: map<nat, Decision>)
    requires RequestsHold(log, tasks, live, deciding)
    requires forall q :: IsRequest(after, q) <==> IsRequest(log, q)
    requires forall q :: IsRequest(log, q) && IsRequest(after, q) ==> RequestTask(after, q) == RequestTask(log, q)
    ensures RequestsHold(after, tasks, live, deciding)
  {
  }

  lemma WriteKeepsLog(log: Log, d: Decision, metadata: Metadata, tasks: set<TaskId>, live: set<TaskId>, deciding: map<nat, Decision>, who: nat)
    requires LogValid(log) && RequestsHold(log, tasks, live, deciding)
    requires who in deciding && deciding[who] == d && TaskIdOf(metadata) == TaskIdOf(d.metadata)
    ensures IsRequest(log, d.place)
    ensures var after := WithMetadata(log, d.place, metadata);
            LogValid(after) && RequestsHold(after, tasks, live, deciding[who := d.(written := true)])
  {
    WriteKeepsRequests(log, d.place, metadata);
    SameRequestsStayNamed(log, WithMetadata(log, d.place, metadata), tasks, live, deciding);
  }

  lemma DecidingKeepsTaskId(metadata: Metadata, decision: string, note: string)
    ensures TaskIdOf(DecidedMetadata(metadata, decision, note)) == TaskIdOf(metadata)
  {
  }

  lemma WriteKeepsConsistency(table: Table, me: EmployeeId, sys: Service, who: nat)
    requires Consistent(me, sys) && Enabled(sys, Write(who))
    ensures Consistent(me, Take(table, me, sys, Write(who)))
  {
    var d := sys.deciding[who];
    DecidingKeepsTaskId(d.metadata, d.decision, d.note);
    WriteKeepsLog(sys.log, d, DecidedMetadata(d.metadata, d.decision, d.note), sys.store.tasks.Keys, sys.live.Keys,
                  sys.deciding, who);
    MessageStepKeepsConsistency(me, sys, Take(table, me, sys, Write(who)));
  }

  lemma ReadKeepsConsistency(table: Table, me: EmployeeId, sys: Service, step: Step)
    requires Consistent(me, sys) && step.Read? && Enabled(sys, step)
    ensures Consistent(me, Take(table, me, sys, step))
  {
  }

  lemma StepKeepsConsistency(table: Table, me: EmployeeId, sys: Service, step: Step)
    requires Moves(table) && Consistent(me, sys)
    ensures Consistent(me, Take(table, me, sys, step))
  {
    if Enabled(sys, step) {
      EnabledStepKeepsConsistency(table, me, sys, step);
    }
  }

  lemma EnabledStepKeepsConsistency(table: Table, me: EmployeeId, sys: Service, step: Step)
    requires Moves(table) && Consistent(me, sys) && Enabled(sys, step)
    ensures Consistent(me, Take(table, me, sys, step))
  {
    match step
    case Submit(id, c, now) => SubmitKeepsConsistency(table, me, sys, id, c, now);
    case Start(_, _) => ProgressKeepsConsistency(table, me, sys, step);
    case Fail(_, _, _) => ProgressKeepsConsistency(table, me, sys, step);
    case Finish(_, _, _, _) => ProgressKeepsConsistency(table, me, sys, step);
    case Post(id, summary) => PostKeepsConsistency(table, me, sys, id, summary);
    case Say(_, _, _, _, _) => SayKeepsConsistency(table, me, sys, step);
    case Read(_, _, _, _) => ReadKeepsConsistency(table, me, sys, step);
    case Write(who) => WriteKeepsConsistency(table, me, sys, who);
    case Decide(who, now) => DecideKeepsConsistency(table, me, sys, who, now);
    case Restart(reason, now) => RestartKeepsConsistency(table, me, sys, reason, now);
  }

  // ----- the requests alone -----

  /** An approval request as its message records it, with the status of its task. */
  datatype Request = Request(recorded: string, status: Status)

  /** The part of the service that decisions are about. */
  datatype View = View(requests: imap<Place, Request>, deciding: map<nat, Decision>, contested: set<Place>, torn: set<Place>)

  ghost function Recorded(message: Message): string {
    if "status" in message.metadata then message.metadata["status"] else ""
  }

  function StatusIn(tasks: TaskMap, id: TaskId): Status {
    if id in tasks then tasks[id].status else Unknown("")
  }

  ghost function RequestsOf(log: Log, tasks: TaskMap): imap<Place, Request> {
    imap p | IsRequest(log, p) :: Request(Recorded(MessageAt(log, p)), StatusIn(tasks, RequestTask(log, p)))
  }

  ghost function ViewOf(sys: Service): View {
    View(RequestsOf(sys.log, sys.store.tasks), sys.deciding, sys.contested, sys.torn)
  }

  function Decided(table: Table, status: Status, decision: string): Status {
    if Validate(table, status, Verdict(decision)).None? then Verdict(decision) else status
  }

  function AfterRestart(s: Status): Status {
    if s in INFLIGHT then Interrupted else s
  }

  ghost predicate Overlapped(v: View, who: nat, p: Place) {
    p !in v.requests || v.requests[p].recorded != "pending"
    || exists other :: other in v.deciding && other != who && v.deciding[other].place == p
  }

  /** The effect of a service step on the requests. */
  datatype Effect =
    | NoEffect
    | Posted(place: Place)
    | Reads(who: nat, decision: Decision)
    | Writes(who: nat)
    | Decides(who: nat)
    | Restarts

  ghost predicate Possible(v: View, e: Effect) {
    match e
    case NoEffect => true
    case Posted(p) => p !in v.requests
    case Reads(who, d) => who !in v.deciding && !d.written && d.place in v.requests && v.requests[d.place].recorded == "pending"
    case Writes(who) => who in v.deciding && !v.deciding[who].written && v.deciding[who].place in v.requests
    case Decides(who) => who in v.deciding && v.deciding[who].written && v.deciding[who].place in v.requests
    case Restarts => true
  }

  ghost function Affect(table: Table, v: View, e: Effect): View {
    if !Possible(v, e) then v
    else match e
    case NoEffect => v
    case Posted(p) => v.(requests := v.requests[p := Request("pending", AwaitingApproval)])
    case Reads(who, d) => v.(deciding := v.deciding[who := d])
    case Writes(who) =>
      var d := v.deciding[who];
      View(v.requests[d.place := v.requests[d.place].(recorded := d.decision)],
           v.deciding[who := d.(written := true)],
           if Overlapped(v, who, d.place) then v.contested + {d.place} else v.contested,
           v.torn)
    case Decides(who) =>
      var d := v.deciding[who];
      var r := v.requests[d.place];
      v.(requests := v.requests[d.place := r.(status := Decided(table, r.status, d.decision))], deciding := v.deciding - {who})
    case Restarts =>
      View(imap p | p in v.requests :: v.requests[p].(status := AfterRestart(v.requests[p].status)),
           map[], v.contested, v.torn + CutOff(v.deciding))
  }

  ghost function EffectOf(sys: Service, step: Step): Effect {
    if !Enabled(sys, step) then NoEffect
    else match step
    case Post(id, _) => Posted(NextPlace(sys.log, sys.store.tasks[id].conversationId))
    case Read(who, p, decision, note) => Reads(who, Decision(p, MessageAt(sys.log, p).metadata, decision, note, false))
    case Write(who) => Writes(who)
    case Decide(who, _) => Decides(who)
    case Restart(_, _) => Restarts
    case _ => NoEffect
  }

  /** Only the statuses of the tasks that requests name matter. */
  lemma SameStatusesSameRequests(log: Log, before: TaskMap, after: TaskMap)
    requires forall p :: IsRequest(log, p) ==> StatusIn(after, RequestTask(log, p)) == StatusIn(before, RequestTask(log, p))
    ensures RequestsOf(log, after) == RequestsOf(log, before)
  {
  }

  lemma NewRequestIsAdded(log: Log, after: Log, tasks: TaskMap, p: Place, metadata: Metadata)
    requires OneMessageMore(log, after, p) && "status" in metadata
    requires IsRequest(after, p) && MessageAt(after, p).metadata == metadata
    ensures p !in RequestsOf(log, tasks)
    ensures RequestsOf(after, tasks)
            == RequestsOf(log, tasks)[p := Request(metadata["status"], StatusIn(tasks, TaskIdOf(metadata)))]
  {
    forall q ensures IsRequest(after, q) <==> IsRequest(log, q) || q == p {
      assert Holds(after, q) <==> Holds(log, q) || q == p;
    }
  }

  lemma MessageAddsRequest(log: Log, tasks: TaskMap, c: ConversationId, summary: string, metadata: Metadata)
    requires LogValid(log) && "status" in metadata
    ensures var after := Added(log, c, "assistant", summary, APPROVAL_REQUEST, metadata);
            && NextPlace(log, c) !in RequestsOf(log, tasks)
            && RequestsOf(after, tasks)
               == RequestsOf(log, tasks)[NextPlace(log, c) := Request(metadata["status"], StatusIn(tasks, TaskIdOf(metadata)))]
  {
    AddedIsValid(log, c, "assistant", summary, APPROVAL_REQUEST, metadata);
    NewRequestIsAdded(log, Added(log, c, "assistant", summary, APPROVAL_REQUEST, metadata), tasks, NextPlace(log, c), metadata);
  }

  lemma NoRequestIsAdded(log: Log, after: Log, tasks: TaskMap, p: Place)
    requires OneMessageMore(log, after, p) && !IsRequest(after, p)
    ensures RequestsOf(after, tasks) == RequestsOf(log, tasks)
  {
    forall q ensures IsRequest(after, q) <==> IsRequest(log, q) {
      assert Holds(after, q) <==> Holds(log, q) || q == p;
    }
  }

  lemma OtherMessageAddsNone(log: Log, tasks: TaskMap, c: ConversationId, role: string, content: string, kind: string, metadata: Metadata)
    requires LogValid(log) && kind != APPROVAL_REQUEST
    ensures RequestsOf(Added(log, c, role, content, kind, metadata), tasks) == RequestsOf(log, tasks)
  {
    AddedIsValid(log, c, role, content, kind, metadata);
    NoRequestIsAdded(log, Added(log, c, role, content, kind, metadata), tasks, NextPlace(log, c));
  }

  /** The message at `p` gets new metadata and all others stay. */
  ghost predicate OneMessageWritten(log: Log, after: Log, p: Place, metadata: Metadata) {
    && (forall q :: Holds(after, q) <==> Holds(log, q))
    && (forall q :: Holds(log, q) && Holds(after, q) ==>
          MessageAt(after, q) == if q == p then MessageAt(log, q).(metadata := metadata) else MessageAt(log, q))
  }

  lemma WrittenRequest(log: Log, after: Log, tasks: TaskMap, p: Place, metadata: Metadata)
    requires IsRequest(log, p) && TaskIdOf(metadata) == RequestTask(log, p) && "status" in metadata
    requires OneMessageWritten(log, after, p, metadata)
    ensures p in RequestsOf(log, tasks)
    ensures RequestsOf(after, tasks) == RequestsOf(log, tasks)[p := RequestsOf(log, tasks)[p].(recorded := metadata["status"])]
  {
    forall q ensures IsRequest(after, q) <==> IsRequest(log, q) {
      assert Holds(after, q) <==> Holds(log, q);
    }
  }

  lemma WriteRecords(log: Log, tasks: TaskMap, p: Place, metadata: Metadata)
    requires LogValid(log) && IsRequest(log, p) && TaskIdOf(metadata) == RequestTask(log, p) && "status" in metadata
    ensures p in RequestsOf(log, tasks)
    ensures RequestsOf(WithMetadata(log, p, metadata), tasks)
            == RequestsOf(log, tasks)[p := RequestsOf(log, tasks)[p].(recorded := metadata["status"])]
  {
    WithMetadataIsValid(log, p, metadata);
    WrittenRequest(log, WithMetadata(log, p, metadata), tasks, p, metadata);
  }

  lemma TaskMovesOneRequest(log: Log, before: TaskMap, after: TaskMap, p: Place)
    requires RequestsDiffer(log) && IsRequest(log, p)
    requires forall id :: id != RequestTask(log, p) ==> StatusIn(after, id) == StatusIn(before, id)
    ensures p in RequestsOf(log, before)
    ensures RequestsOf(log, after)
            == RequestsOf(log, before)[p := RequestsOf(log, before)[p].(status := StatusIn(after, RequestTask(log, p)))]
  {
  }

  lemma LiveStepKeepsView(sys: Service, after: Service)
    requires RequestsNameTasks(sys) && after.log == sys.log && after.deciding == sys.deciding
    requires after.contested == sys.contested && after.torn == sys.torn
    requires forall id :: id in sys.store.tasks && id !in sys.live ==> StatusIn(after.store.tasks, id) == StatusIn(sys.store.tasks, id)
    ensures ViewOf(after) == ViewOf(sys)
  {
    SameStatusesSameRequests(sys.log, sys.store.tasks, after.store.tasks);
  }

  lemma UpdateMovesOne(table: Table, store: Store, id: TaskId, employee: EmployeeId, c: Changes, now: Timestamp)
    ensures forall k :: k != id ==> StatusIn(UpdatedOr(table, store, id, employee, c, now).tasks, k) == StatusIn(store.tasks, k)
  {
  }

  lemma LiveUpdateKeepsView(table: Table, me: EmployeeId, sys: Service, after: Service, id: TaskId, c: Changes, now: Timestamp)
    requires RequestsNameTasks(sys) && id in sys.live
    requires after == sys.(store := UpdatedOr(table, sys.store, id, me, c, now), live := after.live)
    ensures ViewOf(after) == ViewOf(sys)
  {
    UpdateMovesOne(table, sys.store, id, me, c, now);
    LiveStepKeepsView(sys, after);
  }

  lemma ProgressSimulates(table: Table, me: EmployeeId, sys: Service, step: Step)
    requires RequestsNameTasks(sys) && Enabled(sys, step)
    requires step.Start? || step.Fail? || step.Finish?
    ensures ViewOf(Take(table, me, sys, step)) == ViewOf(sys)
  {
    var after := Take(table, me, sys, step);
    match step
    case Start(id, now) => LiveUpdateKeepsView(table, me, sys, after, id, StatusChange(Running), now);
    case Fail(id, error, now) => LiveUpdateKeepsView(table, me, sys, after, id, FailChanges(error, now), now);
    case Finish(id, approval, summary, now) =>
      LiveUpdateKeepsView(table, me, sys, after, id, FinishChanges(approval, summary, now), now);
  }

  /** Submissions and other messages leave the requests as they were. */
  lemma OtherStepsSimulate(table: Table, me: EmployeeId, sys: Service, step: Step)
    requires Consistent(me, sys) && Enabled(sys, step)
    requires step.Submit? || step.Start? || step.Fail? || step.Finish? || step.Say?
    ensures ViewOf(Take(table, me, sys, step)) == ViewOf(sys)
  {
    match step
    case Say(c, role, content, kind, metadata) =>
      OtherMessageAddsNone(sys.log, sys.store.tasks, c, role, content, kind, metadata);
    case Submit(_, _, _) => LiveStepKeepsView(sys, Take(table, me, sys, step));
    case _ => ProgressSimulates(table, me, sys, step);
  }

  lemma PostSimulates(table: Table, me: EmployeeId, sys: Service, step: Step)
    requires Consistent(me, sys) && step.Post? && Enabled(sys, step)
    ensures ViewOf(Take(table, me, sys, step)) == Affect(table, ViewOf(sys), EffectOf(sys, step))
  {
    var c := sys.store.tasks[step.id].conversationId;
    MessageAddsRequest(sys.log, sys.store.tasks, c, step.summary, RequestMetadata(step.id));
  }

  /** What is known of a decision in progress. */
  ghost predicate SoundDecision(me: EmployeeId, log: Log, tasks: TaskMap, d: Decision) {
    && IsRequest(log, d.place) && TaskIdOf(d.metadata) == RequestTask(log, d.place)
    && RequestTask(log, d.place) != "" && RequestTask(log, d.place) in tasks
    && tasks[RequestTask(log, d.place)].employeeId == me
  }

  lemma DecisionsAreSound(me: EmployeeId, sys: Service, who: nat)
    requires Consistent(me, sys) && who in sys.deciding
    ensures LogValid(sys.log) && RequestsDiffer(sys.log) && SoundDecision(me, sys.log, sys.store.tasks, sys.deciding[who])
  {
  }

  lemma OverlapIsSeen(sys: Service, who: nat)
    requires who in sys.deciding && IsRequest(sys.log, sys.deciding[who].place)
    ensures var p := sys.deciding[who].place;
            Overlapped(ViewOf(sys), who, p)
            <==> || !IsPending(MessageAt(sys.log, p))
                 || exists other :: other in sys.deciding && other != who && sys.deciding[other].place == p
  {
    assert sys.deciding[who].place in ViewOf(sys).requests;
  }

  lemma WriteSimulates(table: Table, me: EmployeeId, sys: Service, who: nat)
    requires Enabled(sys, Write(who))
    requires LogValid(sys.log) && SoundDecision(me, sys.log, sys.store.tasks, sys.deciding[who])
    ensures ViewOf(Take(table, me, sys, Write(who))) == Affect(table, ViewOf(sys), Writes(who))
  {
    var d := sys.deciding[who];
    WriteRecords(sys.log, sys.store.tasks, d.place, DecidedMetadata(d.metadata, d.decision, d.note));
    OverlapIsSeen(sys, who);
  }

  lemma DecideTaskMoves(table: Table, store: Store, id: TaskId, me: EmployeeId, decision: string, now: Timestamp)
    requires id != "" && id in store.tasks && store.tasks[id].employeeId == me
    ensures var after := DecideTask(table, store, id, me, decision, now).0.tasks;
            && (forall k :: k != id ==> StatusIn(after, k) == StatusIn(store.tasks, k))
            && StatusIn(after, id) == Decided(table, StatusIn(store.tasks, id), decision)
  {
  }

  lemma DecidedRequests(table: Table, me: EmployeeId, log: Log, store: Store, d: Decision, now: Timestamp)
    requires RequestsDiffer(log) && SoundDecision(me, log, store.tasks, d)
    ensures var before := RequestsOf(log, store.tasks);
            && d.place in before
            && RequestsOf(log, DecideTask(table, store, TaskIdOf(d.metadata), me, d.decision, now).0.tasks)
               == before[d.place := before[d.place].(status := Decided(table, before[d.place].status, d.decision))]
  {
    var id := TaskIdOf(d.metadata);
    DecideTaskMoves(table, store, id, me, d.decision, now);
    TaskMovesOneRequest(log, store.tasks, DecideTask(table, store, id, me, d.decision, now).0.tasks, d.place);
  }

  lemma DecideSimulates(table: Table, me: EmployeeId, sys: Service, who: nat, now: Timestamp)
    requires Enabled(sys, Decide(who, now))
    requires RequestsDiffer(sys.log) && SoundDecision(me, sys.log, sys.store.tasks, sys.deciding[who])
    ensures ViewOf(Take(table, me, sys, Decide(who, now))) == Affect(table, ViewOf(sys), Decides(who))
  {
    DecidedRequests(table, me, sys.log, sys.store, sys.deciding[who], now);
  }

  lemma RecoveredRequests(log: Log, store: Store, me: EmployeeId, reason: string, now: Timestamp)
    requires Agrees(store) && RequestsName(log, store.tasks.Keys, {})
    requires forall id :: id in store.tasks ==> store.tasks[id].employeeId == me
    ensures var before := RequestsOf(log, store.tasks);
            RequestsOf(log, Recovered(store, me, reason, now).0.tasks)
            == imap p | p in before :: before[p].(status := AfterRestart(before[p].status))
  {
    var after := Recovered(store, me, reason, now).0.tasks;
    assert forall id :: id in store.tasks ==> StatusIn(after, id) == AfterRestart(StatusIn(store.tasks, id)) by {
      RecoveryIsExact(store, me, reason, now, reason, now);
    }
  }

  lemma RestartSimulates(table: Table, me: EmployeeId, sys: Service, step: Step)
    requires Consistent(me, sys) && step.Restart?
    ensures ViewOf(Take(table, me, sys, step)) == Affect(table, ViewOf(sys), EffectOf(sys, step))
  {
    RecoveredRequests(sys.log, sys.store, me, step.reason, step.now);
  }

  lemma ReadSimulates(table: Table, me: EmployeeId, sys: Service, step: Step)
    requires step.Read? && Enabled(sys, step)
    ensures ViewOf(Take(table, me, sys, step)) == Affect(table, ViewOf(sys), EffectOf(sys, step))
  {
  }

  /** Every step of the service acts on the requests as its effect says. */
  lemma StepSimulates(table: Table, me: EmployeeId, sys: Service, step: Step)
    requires Consistent(me, sys)
    ensures ViewOf(Take(table, me, sys, step)) == Affect(table, ViewOf(sys), EffectOf(sys, step))
  {
    if Enabled(sys, step) {
      match step
      case Post(_, _) => PostSimulates(table, me, sys, step);
      case Read(_, _, _, _) => ReadSimulates(table, me, sys, step);
      case Write(who) => DecisionsAreSound(me, sys, who); WriteSimulates(table, me, sys, who);
      case Decide(who, now) => DecisionsAreSound(me, sys, who); DecideSimulates(table, me, sys, who, now);
      case Restart(_, _) => RestartSimulates(table, me, sys, step);
      case _ => OtherStepsSimulate(table, me, sys, step);
    }
  }

  // ----- the table as shipped -----

  /** Every task with an approval request is awaiting approval or interrupted. */
  ghost predicate Parked(v: View) {
    forall p :: p in v.requests ==> v.requests[p].status in PARKED
  }

  /** From a parked status the shipped table refuses what every decision asks for. */
  lemma ParkedDecisionIsRefused(store: Store, id: TaskId, me: EmployeeId, decision: string, now: Timestamp)
    requires id != "" && id in store.tasks && store.tasks[id].employeeId == me && store.tasks[id].status in PARKED
    ensures DecideTask(TRANSITIONS, store, id, me, decision, now) == (store, Some(Refused(InvalidTransition)))
  {
  }

  lemma EffectKeepsParked(v: View, e: Effect)
    requires Parked(v)
    ensures Parked(Affect(TRANSITIONS, v, e))
  {
  }

  lemma {:induction false} RunKeepsParked(me: EmployeeId, sys: Service, steps: seq<Step>)
    requires Consistent(me, sys) && Parked(ViewOf(sys))
    ensures Consistent(me, Run(TRANSITIONS, me, sys, steps)) && Parked(ViewOf(Run(TRANSITIONS, me, sys, steps)))
    decreases |steps|
  {
    if steps != [] {
      StepKeepsConsistency(TRANSITIONS, me, sys, steps[0]);
      StepSimulates(TRANSITIONS, me, sys, steps[0]);
      EffectKeepsParked(ViewOf(sys), EffectOf(sys, steps[0]));
      RunKeepsParked(me, Take(TRANSITIONS, me, sys, steps[0]), steps[1..]);
    }
  }

  lemma InitialIsConsistent(me: EmployeeId)
    ensures Consistent(me, INITIAL) && ViewOf(INITIAL).requests == imap[]
  {
  }

  /**
   With the table as shipped, over every run of the service: the task of an approval request,
   decided or not, is awaiting approval or interrupted, and the task write of every decision
   in progress is refused and changes nothing.
   */
  lemma ShippedDecisionsNeverMoveTasks(me: EmployeeId, steps: seq<Step>)
    ensures var sys := Run(TRANSITIONS, me, INITIAL, steps);
            && Consistent(me, sys) && Parked(ViewOf(sys))
            && forall who, now :: who in sys.deciding ==>
                 DecideTask(TRANSITIONS, sys.store, TaskIdOf(sys.deciding[who].metadata), me, sys.deciding[who].decision, now)
                 == (sys.store, Some(Refused(InvalidTransition)))
  {
    InitialIsConsistent(me);
    RunKeepsParked(me, INITIAL, steps);
    var sys := Run(TRANSITIONS, me, INITIAL, steps);
    forall who, now | who in sys.deciding
      ensures DecideTask(TRANSITIONS, sys.store, TaskIdOf(sys.deciding[who].metadata), me, sys.deciding[who].decision, now)
              == (sys.store, Some(Refused(InvalidTransition)))
    {
      assert sys.deciding[who].place in ViewOf(sys).requests;
      ParkedDecisionIsRefused(sys.store, TaskIdOf(sys.deciding[who].metadata), me, sys.deciding[who].decision, now);
    }
  }

  /** The message is marked all the same, and leaves the pending list unless the decision reads "pending". */
  lemma WriteMarksMessage(table: Table, me: EmployeeId, sys: Service, who: nat)
    requires Enabled(sys, Write(who)) && IsRequest(sys.log, sys.deciding[who].place)
    ensures var d := sys.deciding[who];
            var marked := MessageAt(Take(table, me, sys, Write(who)).log, d.place);
            && marked.kind == APPROVAL_REQUEST && Recorded(marked) == d.decision
            && (IsPending(marked) <==> d.decision == "pending")
  {
  }

  /** What a written decision leaves in the message: the decision twice, the note, and everything else as it was. */
  lemma DecisionIsNoted(metadata: Metadata, decision: string, note: string)
    ensures var after := DecidedMetadata(metadata, decision, note);
            && after.Keys == metadata.Keys + {"status", "decision", "note"}
            && after["status"] == decision && after["decision"] == decision && after["note"] == note
            && forall k :: k in metadata && k !in {"status", "decision", "note"} ==> after[k] == metadata[k]
  {
  }

  /** What an accepted decision leaves in the task: the verdict, its reason and its time, and everything else as it was. */
  lemma DecisionReachesTask(table: Table, store: Store, id: TaskId, me: EmployeeId, decision: string, now: Timestamp)
    ensures var (after, refusal) := DecideTask(table, store, id, me, decision, now);
            var approved := decision == "approve" || decision == "modify";
            var asked := if approved then Completed else Interrupted;
            if id == "" then after == store && refusal == None
            else if id !in store.tasks || store.tasks[id].employeeId != me then after == store && refusal == Some(NotFound)
            else if store.tasks[id].status !in table || asked !in table || asked !in table[store.tasks[id].status]
            then after == store && refusal.Some? && refusal.value.Refused?
            else && refusal == None
                 && after == store.(tasks := store.tasks[id := store.tasks[id].(
                      status := asked, reason := if approved then "" else "approval_" + decision,
                      completedAt := Some(now), updatedAt := now)])
  {
  }

  // ----- the table with the missing edges -----

  /** The message and the task tell the same story. */
  predicate TellsSame(r: Request) {
    if r.recorded == "pending" then r.status in PARKED else r.status == Verdict(r.recorded)
  }

  ghost predicate WritingAt(v: View, p: Place, who: nat) {
    who in v.deciding && v.deciding[who].written && v.deciding[who].place == p
  }

  ghost predicate InProgress(v: View, p: Place) {
    exists who :: WritingAt(v, p, who)
  }

  /** The state of one uncontested request. */
  ghost predicate Settled(v: View, p: Place)
    requires p in v.requests
  {
    var r := v.requests[p];
    if p in v.torn then
      && r.recorded in {"approve", "modify"} && r.status == Interrupted
      && forall who :: who in v.deciding ==> v.deciding[who].place != p
    else
      && (!InProgress(v, p) ==> TellsSame(r))
      && (forall who :: WritingAt(v, p, who) ==> r.status in PARKED && r.recorded == v.deciding[who].decision)
      && (forall who, other :: WritingAt(v, p, who) && WritingAt(v, p, other) ==> who == other)
  }

  ghost predicate AllSettled(v: View) {
    && (forall p :: p in v.contested || p in v.torn ==> p in v.requests)
    && (forall who :: who in v.deciding ==> v.deciding[who].place in v.requests)
    && (forall p :: p in v.requests && p !in v.contested ==> Settled(v, p))
  }

  lemma DecideKeepsSettled(v: View, who: nat)
    requires AllSettled(v) && Possible(v, Decides(who))
    ensures AllSettled(Affect(EXTENDED, v, Decides(who)))
  {
    var after := Affect(EXTENDED, v, Decides(who));
    var d := v.deciding[who];
    assert WritingAt(v, d.place, who);
    forall p | p in after.requests && p !in after.contested ensures Settled(after, p) {
      assert Settled(v, p);
      assert forall other :: WritingAt(after, p, other) <==> WritingAt(v, p, other) && other != who;
    }
  }

  lemma WriteKeepsSettled(v: View, who: nat)
    requires AllSettled(v) && Possible(v, Writes(who))
    ensures AllSettled(Affect(EXTENDED, v, Writes(who)))
  {
    var after := Affect(EXTENDED, v, Writes(who));
    var d := v.deciding[who];
    forall p | p in after.requests && p !in after.contested ensures Settled(after, p) {
      assert Settled(v, p);
      if p == d.place {
        assert forall other :: WritingAt(after, p, other) <==> other == who;
        assert WritingAt(after, p, who);
        assert !InProgress(v, p);
      } else {
        assert forall other :: WritingAt(after, p, other) <==> WritingAt(v, p, other);
        assert InProgress(after, p) <==> InProgress(v, p);
      }
    }
  }

  lemma RestartKeepsSettled(v: View)
    requires AllSettled(v)
    ensures AllSettled(Affect(EXTENDED, v, Restarts))
  {
    var after := Affect(EXTENDED, v, Restarts);
    forall p | p in after.requests && p !in after.contested ensures Settled(after, p) {
      assert Settled(v, p);
      assert !InProgress(after, p);
      if p !in v.torn {
        if who :| WritingAt(v, p, who) {
          assert after.requests[p] == v.requests[p].(status := Interrupted);
          assert p in CutOff(v.deciding) <==> Verdict(v.deciding[who].decision) == Completed;
        } else {
          assert p !in CutOff(v.deciding);
          assert TellsSame(v.requests[p]);
          assert Completed !in INFLIGHT && Interrupted !in INFLIGHT;
        }
      }
    }
  }

  lemma EffectKeepsSettled(v: View, e: Effect)
    requires AllSettled(v)
    ensures AllSettled(Affect(EXTENDED, v, e))
  {
    var after := Affect(EXTENDED, v, e);
    if Possible(v, e) {
      match e
      case Decides(who) => DecideKeepsSettled(v, who);
      case Writes(who) => WriteKeepsSettled(v, who);
      case Restarts => RestartKeepsSettled(v);
      case _ => QuietEffectKeepsSettled(v, e);
    }
  }

  lemma QuietEffectKeepsSettled(v: View, e: Effect)
    requires AllSettled(v) && Possible(v, e) && (e.NoEffect? || e.Posted? || e.Reads?)
    ensures AllSettled(Affect(EXTENDED, v, e))
  {
    var after := Affect(EXTENDED, v, e);
    forall p | p in after.requests && p !in after.contested ensures Settled(after, p) {
      assert p in v.requests ==> Settled(v, p);
      assert forall other :: WritingAt(after, p, other) <==> WritingAt(v, p, other);
    }
  }

  lemma {:induction false} RunKeepsSettled(me: EmployeeId, sys: Service, steps: seq<Step>)
    requires Consistent(me, sys) && AllSettled(ViewOf(sys))
    ensures Consistent(me, Run(EXTENDED, me, sys, steps)) && AllSettled(ViewOf(Run(EXTENDED, me, sys, steps)))
    decreases |steps|
  {
    if steps != [] {
      StepKeepsConsistency(EXTENDED, me, sys, steps[0]);
      StepSimulates(EXTENDED, me, sys, steps[0]);
      EffectKeepsSettled(ViewOf(sys), EffectOf(sys, steps[0]));
      RunKeepsSettled(me, Take(EXTENDED, me, sys, steps[0]), steps[1..]);
    }
  }

  lemma SettledTellsSame(v: View, p: Place)
    requires AllSettled(v)
    ensures p in v.requests && p !in v.contested && !InProgress(v, p) ==> (TellsSame(v.requests[p]) <==> p !in v.torn)
  {
    if p in v.requests && p !in v.contested {
      assert Settled(v, p);
    }
  }

  /**
   With the missing edges, over every run: a request on which no two decisions overlapped and
   none is being written agrees with its task exactly when no restart cut an approval of it
   between its two writes.
   */
  lemma ExtendedDecisionsAgree(me: EmployeeId, steps: seq<Step>, p: Place)
    ensures var sys := Run(EXTENDED, me, INITIAL, steps);
            && Consistent(me, sys)
            && var v := ViewOf(sys);
               p in v.requests && p !in v.contested && !InProgress(v, p) ==> (TellsSame(v.requests[p]) <==> p !in v.torn)
  {
    InitialIsConsistent(me);
    RunKeepsSettled(me, INITIAL, steps);
    SettledTellsSame(ViewOf(Run(EXTENDED, me, INITIAL, steps)), p);
  }

  // ----- every request, contested and torn ones included -----

  /** What the writes so far say of the requests: the last decision written, the verdicts that reached the task. */
  datatype Memo = Memo(written: map<Place, string>, approved: set<Place>, halted: iset<Place>)

  ghost function Remember(v: View, e: Effect, m: Memo): Memo {
    if !Possible(v, e) then m
    else match e
    case Writes(who) => m.(written := m.written[v.deciding[who].place := v.deciding[who].decision])
    case Decides(who) =>
      if Verdict(v.deciding[who].decision) == Completed then m.(approved := m.approved + {v.deciding[who].place})
      else m.(halted := m.halted + iset{v.deciding[who].place})
    case Restarts => m.(halted := m.halted + v.requests.Keys)
    case _ => m
  }

  ghost function Recall(table: Table, me: EmployeeId, sys: Service, steps: seq<Step>, m: Memo): Memo
    decreases |steps|
  {
    if steps == [] then m
    else Recall(table, me, Take(table, me, sys, steps[0]), steps[1..], Remember(ViewOf(sys), EffectOf(sys, steps[0]), m))
  }

  ghost function Told(m: Memo, p: Place): Request {
    Request(if p in m.written then m.written[p] else "pending",
            if p in m.approved then Completed else if p in m.halted then Interrupted else AwaitingApproval)
  }

  ghost predicate Remembered(v: View, m: Memo) {
    && (forall p :: p in m.written || p in m.approved || p in m.halted ==> p in v.requests)
    && (forall who :: who in v.deciding ==> v.deciding[who].place in v.requests)
    && (forall p :: p in v.requests ==> v.requests[p] == Told(m, p))
  }

  lemma DecideIsRemembered(v: View, who: nat, m: Memo)
    requires Remembered(v, m) && Possible(v, Decides(who))
    ensures Remembered(Affect(EXTENDED, v, Decides(who)), Remember(v, Decides(who), m))
  {
    var d := v.deciding[who];
    assert v.requests[d.place] == Told(m, d.place);
  }

  lemma WriteIsRemembered(v: View, who: nat, m: Memo)
    requires Remembered(v, m) && Possible(v, Writes(who))
    ensures Remembered(Affect(EXTENDED, v, Writes(who)), Remember(v, Writes(who), m))
  {
    var d := v.deciding[who];
    var after, m' := Affect(EXTENDED, v, Writes(who)), Remember(v, Writes(who), m);
    assert v.requests[d.place] == Told(m, d.place);
    assert after.requests == v.requests[d.place := v.requests[d.place].(recorded := d.decision)];
    forall p | p in after.requests ensures after.requests[p] == Told(m', p) {
      assert p in v.requests && v.requests[p] == Told(m, p);
    }
  }

  lemma RestartIsRemembered(v: View, m: Memo)
    requires Remembered(v, m)
    ensures Remembered(Affect(EXTENDED, v, Restarts), Remember(v, Restarts, m))
  {
  }

  lemma EffectIsRemembered(v: View, e: Effect, m: Memo)
    requires Remembered(v, m)
    ensures Remembered(Affect(EXTENDED, v, e), Remember(v, e, m))
  {
    if Possible(v, e) {
      match e
      case Decides(who) => DecideIsRemembered(v, who, m);
      case Writes(who) => WriteIsRemembered(v, who, m);
      case Restarts => RestartIsRemembered(v, m);
      case _ =>
    }
  }

  lemma {:induction false} RunIsRemembered(me: EmployeeId, sys: Service, steps: seq<Step>, m: Memo)
    requires Consistent(me, sys) && Remembered(ViewOf(sys), m)
    ensures Remembered(ViewOf(Run(EXTENDED, me, sys, steps)), Recall(EXTENDED, me, sys, steps, m))
    decreases |steps|
  {
    if steps != [] {
      StepKeepsConsistency(EXTENDED, me, sys, steps[0]);
      StepSimulates(EXTENDED, me, sys, steps[0]);
      EffectIsRemembered(ViewOf(sys), EffectOf(sys, steps[0]), m);
      RunIsRemembered(me, Take(EXTENDED, me, sys, steps[0]), steps[1..], Remember(ViewOf(sys), EffectOf(sys, steps[0]), m));
    }
  }

  /**
   With the missing edges, over every run and for every request: its message records the last
   decision written; its task is completed exactly when some approval of it got to its task
   write, and otherwise interrupted exactly when a refusal got there or a restart came.  So the
   two agree exactly when an approval recorded last has reached the task, or when none has while
   the last word is a refusal that took effect or there is no last word.
   */
  lemma ExtendedRequestsAreExact(me: EmployeeId, steps: seq<Step>, p: Place)
    ensures var v, m := ViewOf(Run(EXTENDED, me, INITIAL, steps)), Recall(EXTENDED, me, INITIAL, steps, Memo(map[], {}, iset{}));
            p in v.requests ==>
              && v.requests[p] == Told(m, p)
              && var word := Told(m, p).recorded;
                 TellsSame(v.requests[p])
                 <==> if Verdict(word) == Completed then p in m.approved
                      else p !in m.approved && (word == "pending" || p in m.halted)
  {
    InitialIsConsistent(me);
    RunIsRemembered(me, INITIAL, steps, Memo(map[], {}, iset{}));
  }

  // ----- runs that end in disagreement -----

  /** Some run of the service with the missing edges ends in `sys`. */
  ghost predicate Reachable(me: EmployeeId, sys: Service) {
    exists steps :: Run(EXTENDED, me, INITIAL, steps) == sys
  }

  lemma StepReaches(me: EmployeeId, sys: Service, step: Step)
    requires Reachable(me, sys)
    ensures Reachable(me, Take(EXTENDED, me, sys, step))
  {
    var steps :| Run(EXTENDED, me, INITIAL, steps) == sys;
    RunAppend(EXTENDED, me, INITIAL, steps, [step]);
    RunOne(EXTENDED, me, sys, step);
    assert Run(EXTENDED, me, INITIAL, steps + [step]) == Take(EXTENDED, me, sys, step);
  }

  lemma InitialIsReachable(me: EmployeeId)
    ensures Reachable(me, INITIAL)
  {
    assert Run(EXTENDED, me, INITIAL, []) == INITIAL;
  }

  /** An undecided request with no decision in progress anywhere. */
  ghost predicate Asked(me: EmployeeId, sys: Service, p: Place) {
    && Consistent(me, sys) && sys.deciding == map[]
    && p in ViewOf(sys).requests && ViewOf(sys).requests[p] == Request("pending", AwaitingApproval)
  }

  /** A task at work, with no decision in progress anywhere. */
  ghost predicate AtWork(me: EmployeeId, sys: Service, id: TaskId, phase: Phase) {
    Consistent(me, sys) && Waiting(sys, id, phase) && sys.deciding == map[]
  }

  lemma SubmittedStarts(me: EmployeeId, id: TaskId, c: ConversationId, now: Timestamp)
    requires id != ""
    ensures AtWork(me, Take(EXTENDED, me, INITIAL, Submit(id, c, now)), id, Starting)
  {
    InitialIsConsistent(me);
    StepKeepsConsistency(EXTENDED, me, INITIAL, Submit(id, c, now));
  }

  lemma StartedWorks(me: EmployeeId, sys: Service, id: TaskId, now: Timestamp)
    requires AtWork(me, sys, id, Starting)
    ensures AtWork(me, Take(EXTENDED, me, sys, Start(id, now)), id, Working)
  {
    StepKeepsConsistency(EXTENDED, me, sys, Start(id, now));
  }

  lemma FinishedPosts(me: EmployeeId, sys: Service, id: TaskId, summary: string, now: Timestamp)
    requires AtWork(me, sys, id, Working)
    ensures AtWork(me, Take(EXTENDED, me, sys, Finish(id, true, summary, now)), id, Posting)
  {
    StepKeepsConsistency(EXTENDED, me, sys, Finish(id, true, summary, now));
  }

  lemma RequestMetadataReads(id: TaskId)
    ensures var metadata := RequestMetadata(id);
            "status" in metadata && metadata["status"] == "pending" && TaskIdOf(metadata) == id
  {
  }

  lemma PostedRequest(log: Log, tasks: TaskMap, c: ConversationId, summary: string, id: TaskId)
    requires LogValid(log) && StatusIn(tasks, id) == AwaitingApproval
    ensures var requests := RequestsOf(Added(log, c, "assistant", summary, APPROVAL_REQUEST, RequestMetadata(id)), tasks);
            NextPlace(log, c) in requests && requests[NextPlace(log, c)] == Request("pending", AwaitingApproval)
  {
    RequestMetadataReads(id);
    MessageAddsRequest(log, tasks, c, summary, RequestMetadata(id));
  }

  lemma LiveStatus(me: EmployeeId, sys: Service, id: TaskId, phase: Phase)
    requires StoresAgree(me, sys) && Waiting(sys, id, phase)
    ensures LogValid(sys.log) && id in sys.store.tasks && StatusIn(sys.store.tasks, id) == PhaseStatus(phase)
  {
  }

  lemma TakePost(me: EmployeeId, sys: Service, id: TaskId, summary: string)
    requires Waiting(sys, id, Posting) && id in sys.store.tasks
    ensures Take(EXTENDED, me, sys, Post(id, summary))
            == sys.(log := Added(sys.log, sys.store.tasks[id].conversationId, "assistant", summary, APPROVAL_REQUEST,
                                 RequestMetadata(id)),
                    live := sys.live - {id})
  {
  }

  lemma AskedWhenSeen(me: EmployeeId, sys: Service, p: Place)
    requires Consistent(me, sys) && sys.deciding == map[]
    requires p in RequestsOf(sys.log, sys.store.tasks) && RequestsOf(sys.log, sys.store.tasks)[p] == Request("pending", AwaitingApproval)
    ensures Asked(me, sys, p)
  {
  }

  lemma PostedIsAsked(me: EmployeeId, sys: Service, id: TaskId, summary: string, p: Place)
    requires AtWork(me, sys, id, Posting)
    requires p == NextPlace(sys.log, sys.store.tasks[id].conversationId)
    ensures Asked(me, Take(EXTENDED, me, sys, Post(id, summary)), p)
  {
    LiveStatus(me, sys, id, Posting);
    StepKeepsConsistency(EXTENDED, me, sys, Post(id, summary));
    PostedRequest(sys.log, sys.store.tasks, sys.store.tasks[id].conversationId, summary, id);
    TakePost(me, sys, id, summary);
    AskedWhenSeen(me, Take(EXTENDED, me, sys, Post(id, summary)), p);
  }

  /** A submission leads to an undecided request. */
  lemma RequestIsReached(me: EmployeeId) returns (sys: Service, p: Place)
    ensures Reachable(me, sys) && Asked(me, sys, p)
  {
    InitialIsReachable(me);
    StepReaches(me, INITIAL, Submit("t", "c", 0));
    SubmittedStarts(me, "t", "c", 0);
    var s1 := Take(EXTENDED, me, INITIAL, Submit("t", "c", 0));
    sys, p := PostIsReached(me, s1);
  }

  lemma PostIsReached(me: EmployeeId, s1: Service) returns (sys: Service, p: Place)
    requires Reachable(me, s1) && AtWork(me, s1, "t", Starting)
    ensures Reachable(me, sys) && Asked(me, sys, p)
  {
    StepReaches(me, s1, Start("t", 0));
    StartedWorks(me, s1, "t", 0);
    var s2 := Take(EXTENDED, me, s1, Start("t", 0));
    StepReaches(me, s2, Finish("t", true, "", 0));
    FinishedPosts(me, s2, "t", "", 0);
    var s3 := Take(EXTENDED, me, s2, Finish("t", true, "", 0));
    StepReaches(me, s3, Post("t", ""));
    p := NextPlace(s3.log, s3.store.tasks["t"].conversationId);
    PostedIsAsked(me, s3, "t", "", p);
    sys := Take(EXTENDED, me, s3, Post("t", ""));
  }

  lemma StepActs(me: EmployeeId, sys: Service, step: Step)
    requires Consistent(me, sys)
    ensures Consistent(me, Take(EXTENDED, me, sys, step))
    ensures ViewOf(Take(EXTENDED, me, sys, step)) == Affect(EXTENDED, ViewOf(sys), EffectOf(sys, step))
  {
    StepKeepsConsistency(EXTENDED, me, sys, step);
    StepSimulates(EXTENDED, me, sys, step);
  }

  /** The decision a read begins. */
  ghost function Begins(log: Log, p: Place, decision: string, note: string): Decision
    requires Holds(log, p)
  {
    Decision(p, MessageAt(log, p).metadata, decision, note, false)
  }

  lemma SeenRequest(sys: Service, p: Place)
    requires p in ViewOf(sys).requests
    ensures IsRequest(sys.log, p) && (ViewOf(sys).requests[p].recorded == "pending" <==> IsPending(MessageAt(sys.log, p)))
  {
  }

  lemma ReadShows(sys: Service, me: EmployeeId, p: Place, who: nat, decision: string, note: string)
    requires Enabled(sys, Read(who, p, decision, note))
    ensures var after := Take(EXTENDED, me, sys, Read(who, p, decision, note));
            && after.log == sys.log
            && ViewOf(after) == ViewOf(sys).(deciding := sys.deciding[who := Begins(sys.log, p, decision, note)])
  {
  }

  lemma ReadActs(me: EmployeeId, sys: Service, p: Place, who: nat, decision: string, note: string)
    requires Consistent(me, sys) && who !in sys.deciding
    requires p in ViewOf(sys).requests && ViewOf(sys).requests[p].recorded == "pending"
    ensures var after := Take(EXTENDED, me, sys, Read(who, p, decision, note));
            && Consistent(me, after) && after.log == sys.log
            && ViewOf(after) == ViewOf(sys).(deciding := sys.deciding[who := Begins(sys.log, p, decision, note)])
  {
    SeenRequest(sys, p);
    ReadKeepsConsistency(EXTENDED, me, sys, Read(who, p, decision, note));
    ReadShows(sys, me, p, who, decision, note);
  }

  lemma WriteActs(me: EmployeeId, sys: Service, who: nat)
    requires Consistent(me, sys) && Enabled(sys, Write(who))
    ensures var after := Take(EXTENDED, me, sys, Write(who));
            Consistent(me, after) && ViewOf(after) == Affect(EXTENDED, ViewOf(sys), Writes(who))
  {
    StepActs(me, sys, Write(who));
  }

  lemma DecideActs(me: EmployeeId, sys: Service, who: nat, now: Timestamp)
    requires Consistent(me, sys) && Enabled(sys, Decide(who, now))
    ensures var after := Take(EXTENDED, me, sys, Decide(who, now));
            Consistent(me, after) && ViewOf(after) == Affect(EXTENDED, ViewOf(sys), Decides(who))
  {
    StepActs(me, sys, Decide(who, now));
  }

  /** What a decision written, with nothing else in progress, does to the requests. */
  ghost function Marked(v: View, p: Place, who: nat, d: Decision): View
    requires p in v.requests
  {
    v.(requests := v.requests[p := v.requests[p].(recorded := d.decision)], deciding := map[who := d.(written := true)])
  }

  lemma WriteMarks(v: View, p: Place, who: nat, d: Decision)
    requires p in v.requests && v.requests[p].recorded == "pending"
    requires v.deciding == map[who := d] && d.place == p && !d.written
    ensures Affect(EXTENDED, v, Writes(who)) == Marked(v, p, who, d)
  {
  }

  lemma ReadIsReached(me: EmployeeId, sys: Service, p: Place, who: nat, decision: string) returns (after: Service, d: Decision)
    requires Reachable(me, sys) && Consistent(me, sys) && who !in sys.deciding
    requires p in ViewOf(sys).requests && ViewOf(sys).requests[p].recorded == "pending"
    ensures Reachable(me, after) && Consistent(me, after)
    ensures d.place == p && d.decision == decision && !d.written
    ensures ViewOf(after) == ViewOf(sys).(deciding := sys.deciding[who := d])
  {
    StepReaches(me, sys, Read(who, p, decision, ""));
    ReadActs(me, sys, p, who, decision, "");
    after := Take(EXTENDED, me, sys, Read(who, p, decision, ""));
    d := Begins(sys.log, p, decision, "");
  }

  lemma WriteIsReached(me: EmployeeId, sys: Service, who: nat) returns (after: Service)
    requires Reachable(me, sys) && Consistent(me, sys) && Possible(ViewOf(sys), Writes(who))
    ensures Reachable(me, after) && Consistent(me, after) && ViewOf(after) == Affect(EXTENDED, ViewOf(sys), Writes(who))
  {
    StepReaches(me, sys, Write(who));
    WriteActs(me, sys, who);
    after := Take(EXTENDED, me, sys, Write(who));
  }

  lemma DecideIsReached(me: EmployeeId, sys: Service, who: nat) returns (after: Service)
    requires Reachable(me, sys) && Consistent(me, sys) && Possible(ViewOf(sys), Decides(who))
    ensures Reachable(me, after) && Consistent(me, after) && ViewOf(after) == Affect(EXTENDED, ViewOf(sys), Decides(who))
  {
    StepReaches(me, sys, Decide(who, 0));
    DecideActs(me, sys, who, 0);
    after := Take(EXTENDED, me, sys, Decide(who, 0));
  }

  /** The message of a torn approval is approved while its task is interrupted, with nothing left to settle it. */
  ghost predicate TornApproval(v: View, p: Place) {
    p in v.requests && p in v.torn && v.deciding == map[] && v.requests[p] == Request("approve", Interrupted)
  }

  /** An approval has written its message and not yet its task. */
  ghost predicate HalfApproved(v: View, p: Place, who: nat, d: Decision) {
    && p in v.requests && v.requests[p] == Request("approve", AwaitingApproval)
    && v.deciding == map[who := d] && d.place == p && d.written && d.decision == "approve"
  }

  lemma RestartTears(v: View, after: View, p: Place, who: nat, d: Decision)
    requires HalfApproved(v, p, who, d) && after == Affect(EXTENDED, v, Restarts)
    ensures TornApproval(after, p)
  {
    assert who in v.deciding && v.deciding[who].written && Verdict(v.deciding[who].decision) == Completed;
    assert v.deciding[who].place in CutOff(v.deciding);
  }

  lemma RestartActs(me: EmployeeId, sys: Service, reason: string, now: Timestamp)
    requires Consistent(me, sys)
    ensures ViewOf(Take(EXTENDED, me, sys, Restart(reason, now))) == Affect(EXTENDED, ViewOf(sys), Restarts)
  {
    assert EffectOf(sys, Restart(reason, now)) == Restarts;
    RestartSimulates(EXTENDED, me, sys, Restart(reason, now));
  }

  lemma RestartTearsService(me: EmployeeId, sys: Service, p: Place, who: nat, d: Decision, reason: string, now: Timestamp)
    requires Consistent(me, sys) && HalfApproved(ViewOf(sys), p, who, d)
    ensures TornApproval(ViewOf(Take(EXTENDED, me, sys, Restart(reason, now))), p)
  {
    RestartActs(me, sys, reason, now);
    RestartTears(ViewOf(sys), ViewOf(Take(EXTENDED, me, sys, Restart(reason, now))), p, who, d);
  }

  /**
   Both kinds of request that `ExtendedDecisionsAgree` leaves out do end in disagreement, with
   no decision left in progress: here an approval that a restart cuts off between its two writes.
   */
  lemma TornRequestCanDisagree(me: EmployeeId)
    ensures exists sys, p :: Reachable(me, sys) && TornApproval(ViewOf(sys), p)
  {
    var sys, p := RequestIsReached(me);
    var read, d := ReadIsReached(me, sys, p, 0, "approve");
    assert sys.deciding[0 := d] == map[0 := d];
    WriteMarks(ViewOf(read), p, 0, d);
    var marked := WriteIsReached(me, read, 0);
    RestartTearsService(me, marked, p, 0, d.(written := true), "", 0);
    StepReaches(me, marked, Restart("", 0));
  }

  /** Two decisions on one request, at work side by side. */
  ghost predicate Duel(v: View, p: Place, a: nat, da: Decision, b: nat, db: Decision, r: Request) {
    && a != b && v.deciding == map[a := da, b := db] && da.place == p && db.place == p
    && p in v.requests && v.requests[p] == r
  }

  lemma WriteOverlaps(v: View, p: Place, a: nat, da: Decision, b: nat, db: Decision, r: Request)
    requires Duel(v, p, a, da, b, db, r)
    ensures !da.written ==>
              var after := Affect(EXTENDED, v, Writes(a));
              p in after.contested && Duel(after, p, a, da.(written := true), b, db, r.(recorded := da.decision))
    ensures !db.written ==>
              var after := Affect(EXTENDED, v, Writes(b));
              p in after.contested && Duel(after, p, a, da, b, db.(written := true), r.(recorded := db.decision))
  {
    assert b in v.deciding && b != a && v.deciding[b].place == p;
    assert a in v.deciding && v.deciding[a].place == p;
  }

  lemma DuelIsReached(me: EmployeeId) returns (sys: Service, p: Place, da: Decision, db: Decision)
    ensures Reachable(me, sys) && Consistent(me, sys)
    ensures Duel(ViewOf(sys), p, 0, da, 1, db, Request("pending", AwaitingApproval))
    ensures !da.written && !db.written && da.decision == "approve" && db.decision == "reject"
  {
    var s0, place := RequestIsReached(me);
    p := place;
    var s1, first := ReadIsReached(me, s0, p, 0, "approve");
    var s2, second := ReadIsReached(me, s1, p, 1, "reject");
    sys, da, db := s2, first, second;
  }

  lemma WrittenDuelIsReached(me: EmployeeId) returns (sys: Service, p: Place, da: Decision, db: Decision)
    ensures Reachable(me, sys) && Consistent(me, sys)
    ensures Duel(ViewOf(sys), p, 0, da, 1, db, Request("reject", AwaitingApproval)) && p in ViewOf(sys).contested
    ensures da.written && db.written && da.decision == "approve" && db.decision == "reject"
  {
    var s0, place, first, second := DuelIsReached(me);
    p, da, db := place, first.(written := true), second.(written := true);
    WriteOverlaps(ViewOf(s0), p, 0, first, 1, second, Request("pending", AwaitingApproval));
    var s1 := WriteIsReached(me, s0, 0);
    WriteOverlaps(ViewOf(s1), p, 0, da, 1, second, Request("approve", AwaitingApproval));
    sys := WriteIsReached(me, s1, 1);
  }

  /** The message carries the refusal written last, the task the approval that reached it first. */
  ghost predicate SplitDecision(v: View, p: Place) {
    p in v.requests && p in v.contested && v.deciding == map[] && v.requests[p] == Request("reject", Completed)
  }

  lemma DecidesSplit(v: View, p: Place, a: nat, da: Decision, b: nat, db: Decision)
    requires Duel(v, p, a, da, b, db, Request("reject", AwaitingApproval)) && p in v.contested
    requires da.written && db.written && da.decision == "approve" && db.decision == "reject"
    ensures Possible(v, Decides(a))
    ensures var after := Affect(EXTENDED, v, Decides(a));
            && Possible(after, Decides(b))
            && SplitDecision(Affect(EXTENDED, after, Decides(b)), p)
  {
  }

  /** And here an approval that a refusal overtakes. */
  lemma ContestedRequestCanDisagree(me: EmployeeId)
    ensures exists sys, p :: Reachable(me, sys) && SplitDecision(ViewOf(sys), p)
  {
    var s0, p, da, db := WrittenDuelIsReached(me);
    DecidesSplit(ViewOf(s0), p, 0, da, 1, db);
    var s1 := DecideIsReached(me, s0, 0);
    var s2 := DecideIsReached(me, s1, 1);
    assert SplitDecision(ViewOf(s2), p);
  }
}
