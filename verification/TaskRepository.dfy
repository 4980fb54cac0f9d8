/**
 The task status table (employee_runtime/core/task_state_machine.py) and the in-memory task
 repository (employee_runtime/core/task_repository.py): a task map and a per-employee index
 that must agree, with updates guarded by the table and a recovery that overrides it.
 */
module TaskRepository {
  import opened Common

  // ----- the transition table -----

  datatype Status = Queued | Running | AwaitingApproval | Interrupted | Completed | Failed | Unknown(name: string)

  type Table = map<Status, set<Status>>

  const TRANSITIONS: Table := map[
    Queued := {Running},
    Running := {Completed, Failed, AwaitingApproval, Interrupted},
    AwaitingApproval := {Running, Failed},
    Interrupted := {Queued},
    Completed := {},
    Failed := {Queued}
  ]

  const INFLIGHT: set<Status> := {Queued, Running, AwaitingApproval}

  datatype TransitionError = UnknownCurrent | UnknownTarget | InvalidTransition

  /** `TaskStateMachine.validate`: None when the move is allowed. */
  function Validate(table: Table, current: Status, target: Status): Option<TransitionError> {
    if current !in table then Some(UnknownCurrent)
    else if target !in table then Some(UnknownTarget)
    else if target !in table[current] then Some(InvalidTransition)
    else None
  }

  // ----- the store -----

  type TaskId = string
  type EmployeeId = string
  type Timestamp = int

  datatype Task = Task(
    taskId: TaskId,
    employeeId: EmployeeId,
    conversationId: string,
    status: Status,
    summary: string,
    error: string,
    requiresApproval: bool,
    reason: string,
    completedAt: Option<Timestamp>,
    updatedAt: Timestamp)

  /** The fields an update may carry; no caller changes a task's id or its owner. */
  datatype Changes = Changes(
    status: Option<Status>,
    summary: Option<string>,
    error: Option<string>,
    requiresApproval: Option<bool>,
    reason: Option<string>,
    completedAt: Option<Option<Timestamp>>)

  type TaskMap = map<TaskId, Task>

  datatype Store = Store(tasks: TaskMap, index: map<EmployeeId, seq<TaskId>>)

  datatype UpdateError = NotFound | Refused(cause: TransitionError)

  function Or<T>(change: Option<T>, current: T): T {
    if change.Some? then change.value else current
  }

  function ApplyChanges(task: Task, c: Changes, now: Timestamp): Task {
    task.(status := Or(c.status, task.status), summary := Or(c.summary, task.summary), error := Or(c.error, task.error),
      requiresApproval := Or(c.requiresApproval, task.requiresApproval), reason := Or(c.reason, task.reason),
      completedAt := Or(c.completedAt, task.completedAt), updatedAt := now)
  }

  /** Every field an update carries is read back, and every other field is as it was. */
  predicate ReadsBack(before: Task, after: Task, c: Changes, now: Timestamp) {
    && (if c.status == None then after.status == before.status else c.status == Some(after.status))
    && (if c.summary == None then after.summary == before.summary else c.summary == Some(after.summary))
    && (if c.error == None then after.error == before.error else c.error == Some(after.error))
    && (if c.requiresApproval == None then after.requiresApproval == before.requiresApproval
        else c.requiresApproval == Some(after.requiresApproval))
    && (if c.reason == None then after.reason == before.reason else c.reason == Some(after.reason))
    && (if c.completedAt == None then after.completedAt == before.completedAt else c.completedAt == Some(after.completedAt))
    && after.taskId == before.taskId && after.employeeId == before.employeeId
    && after.conversationId == before.conversationId && after.updatedAt == now
  }

  function NewTask(id: TaskId, employee: EmployeeId, conversation: string, now: Timestamp): Task {
    Task(id, employee, conversation, Queued, "", "", false, "", None, now)
  }

  function Listed(index: map<EmployeeId, seq<TaskId>>, employee: EmployeeId): seq<TaskId> {
    if employee in index then index[employee] else []
  }

  function Created(store: Store, id: TaskId, employee: EmployeeId, conversation: string, now: Timestamp): Store {
    var listed := Listed(store.index, employee);
    Store(store.tasks[id := NewTask(id, employee, conversation, now)],
          store.index[employee := if id in listed then listed else listed + [id]])
  }

  function Updated(store: Store, table: Table, id: TaskId, employee: EmployeeId, c: Changes, now: Timestamp)
    : Result<Store, UpdateError>
  {
    if id !in store.tasks || store.tasks[id].employeeId != employee then Err(NotFound)
    else
      var task := store.tasks[id];
      var refusal := if c.status.Some? then Validate(table, task.status, c.status.value) else None;
      if refusal.Some? then Err(Refused(refusal.value))
      else Ok(store.(tasks := store.tasks[id := ApplyChanges(task, c, now)]))
  }

  function Halted(task: Task, reason: string, now: Timestamp): Task {
    task.(status := Interrupted, reason := reason, completedAt := Some(now), updatedAt := now)
  }

  /** The recovery loop over a list of ids: the new task map and the tasks it interrupted, in order. */
  function RecoverIds(tasks: TaskMap, ids: seq<TaskId>, reason: string, now: Timestamp): (TaskMap, seq<Task>) {
    if ids == [] then (tasks, [])
    else
      var (before, halted) := RecoverIds(tasks, ids[..|ids| - 1], reason, now);
      var id := ids[|ids| - 1];
      if id !in before || before[id].status !in INFLIGHT then (before, halted)
      else (before[id := Halted(before[id], reason, now)], halted + [Halted(before[id], reason, now)])
  }

  function Recovered(store: Store, employee: EmployeeId, reason: string, now: Timestamp): (Store, seq<Task>) {
    var (tasks, halted) := RecoverIds(store.tasks, Listed(store.index, employee), reason, now);
    (store.(tasks := tasks), halted)
  }

  function CountIds(tasks: TaskMap, ids: seq<TaskId>): map<Status, nat> {
    if ids == [] then map[]
    else
      var counts := CountIds(tasks, ids[..|ids| - 1]);
      var id := ids[|ids| - 1];
      if id !in tasks then counts
      else
        var s := tasks[id].status;
        counts[s := (if s in counts then counts[s] else 0) + 1]
  }

  function TaskCounts(store: Store, employee: EmployeeId): map<Status, nat> {
    CountIds(store.tasks, Listed(store.index, employee))
  }

  class InMemoryTaskRepository {
    var tasks: TaskMap
    var index: map<EmployeeId, seq<TaskId>>

    function Contents(): Store
      reads this
    {
      Store(tasks, index)
    }

    /** The index starts empty even when tasks are passed in. */
    constructor (initial: TaskMap)
      ensures Contents() == Store(initial, map[])
    {
      tasks := initial;
      index := map[];
    }

    method CreateTask(id: TaskId, employee: EmployeeId, conversation: string, now: Timestamp) returns (task: Task)
      modifies this
      ensures Contents() == Created(old(Contents()), id, employee, conversation, now)
      ensures tasks == old(tasks)[id := task]
      ensures task.taskId == id && task.employeeId == employee && task.conversationId == conversation
              && task.status == Queued && task.summary == "" && task.error == "" && !task.requiresApproval
              && task.reason == "" && task.completedAt == None && task.updatedAt == now
    {
      task := NewTask(id, employee, conversation, now);
      tasks := tasks[id := task];
      var listed := if employee in index then index[employee] else [];
      if id !in listed {
        listed := listed + [id];
      }
      index := index[employee := listed];
    }

    method GetTask(id: TaskId, employee: EmployeeId) returns (task: Option<Task>)
      ensures task.Some? <==> id in tasks && tasks[id].employeeId == employee
      ensures task.Some? ==> task.value == tasks[id]
    {
      if id !in tasks || tasks[id].employeeId != employee {
        return None;
      }
      return Some(tasks[id]);
    }

    method UpdateTask(id: TaskId, employee: EmployeeId, c: Changes, now: Timestamp) returns (r: Result<Task, UpdateError>)
      modifies this
      ensures match Updated(old(Contents()), TRANSITIONS, id, employee, c, now)
              case Ok(after) => Contents() == after && r == Ok(after.tasks[id])
              case Err(e) => Contents() == old(Contents()) && r == Err(e)
      ensures r == Err(NotFound) <==> id !in old(tasks) || old(tasks)[id].employeeId != employee
      ensures r.Ok? <==> && id in old(tasks) && old(tasks)[id].employeeId == employee
                         && (c.status.Some? ==> && old(tasks)[id].status in TRANSITIONS && c.status.value in TRANSITIONS
                                                && c.status.value in TRANSITIONS[old(tasks)[id].status])
      ensures r.Ok? ==> tasks == old(tasks)[id := r.value] && ReadsBack(old(tasks)[id], r.value, c, now)
    {
      if id !in tasks || tasks[id].employeeId != employee {
        return Err(NotFound);
      }
      if c.status.Some? {
        var refusal := Validate(TRANSITIONS, tasks[id].status, c.status.value);
        if refusal.Some? {
          return Err(Refused(refusal.value));
        }
      }
      tasks := tasks[id := ApplyChanges(tasks[id], c, now)];
      return Ok(tasks[id]);
    }

    method MarkInflightTasksInterrupted(employee: EmployeeId, reason: string, now: Timestamp) returns (halted: seq<Task>)
      modifies this
      ensures (Contents(), halted) == Recovered(old(Contents()), employee, reason, now)
    {
      halted := [];
      var ids := Listed(index, employee);
      for i := 0 to |ids|
        invariant index == old(index)
        invariant (tasks, halted) == RecoverIds(old(tasks), ids[..i], reason, now)
      {
        assert ids[..i + 1][..i] == ids[..i];
        var id := ids[i];
        if id !in tasks || tasks[id].status !in INFLIGHT {
          continue;
        }
        tasks := tasks[id := Halted(tasks[id], reason, now)];
        halted := halted + [tasks[id]];
      }
      assert ids[..|ids|] == ids;
    }

    method CountTasks(employee: EmployeeId) returns (counts: map<Status, nat>)
      ensures counts == TaskCounts(Contents(), employee)
    {
      counts := map[];
      var ids := Listed(index, employee);
      for i := 0 to |ids|
        invariant counts == CountIds(tasks, ids[..i])
      {
        assert ids[..i + 1][..i] == ids[..i];
        var id := ids[i];
        if id in tasks {
          var s := tasks[id].status;
          counts := counts[s := (if s in counts then counts[s] else 0) + 1];
        }
      }
      assert ids[..|ids|] == ids;
    }

    method GetInterruptedTasks(employee: EmployeeId) returns (found: seq<Task>)
      ensures found == InterruptedIn(tasks, Listed(index, employee))
    {
      found := [];
      var ids := Listed(index, employee);
      for i := 0 to |ids|
        invariant found == InterruptedIn(tasks, ids[..i])
      {
        assert ids[..i + 1][..i] == ids[..i];
        if ids[i] in tasks && tasks[ids[i]].status == Interrupted {
          found := found + [tasks[ids[i]]];
        }
      }
      assert ids[..|ids|] == ids;
    }
  }

  function InterruptedIn(tasks: TaskMap, ids: seq<TaskId>): seq<Task> {
    if ids == [] then []
    else
      var id := ids[|ids| - 1];
      InterruptedIn(tasks, ids[..|ids| - 1])
      + if id in tasks && tasks[id].status == Interrupted then [tasks[id]] else []
  }

  lemma InterruptedSnoc(tasks: TaskMap, a: seq<TaskId>, id: TaskId)
    ensures InterruptedIn(tasks, a + [id]) == InterruptedIn(tasks, a) + if id in tasks && tasks[id].status == Interrupted then [tasks[id]] else []
  {
    assert (a + [id])[..|a|] == a;
  }

  /** The interrupted tasks of two lists of ids are those of the lists, in order. */
  lemma {:induction false} InterruptedOfParts(tasks: TaskMap, a: seq<TaskId>, b: seq<TaskId>, id: TaskId)
    ensures InterruptedIn(tasks, a + b) == InterruptedIn(tasks, a) + InterruptedIn(tasks, b)
    ensures InterruptedIn(tasks, [id]) == if id in tasks && tasks[id].status == Interrupted then [tasks[id]] else []
    decreases |b|
  {
    InterruptedSnoc(tasks, [], id);
    assert [] + [id] == [id];
    if b == [] {
      AppendNothing(a);
    } else {
      var front, last := b[..|b| - 1], b[|b| - 1];
      InterruptedOfParts(tasks, a, front, id);
      AppendFront(a, b);
      InterruptedSnoc(tasks, a + front, last);
      InterruptedSnoc(tasks, front, last);
      assert front + [last] == b;
    }
  }

  // ----- agreement of the task map and the index -----

  /** Each task is listed once, under its owner, and nothing else is listed. */
  ghost predicate Agrees(store: Store) {
    && (forall id :: id in store.tasks ==>
          store.tasks[id].taskId == id && id in Listed(store.index, store.tasks[id].employeeId))
    && (forall e :: e in store.index ==>
          Distinct(store.index[e]) && forall id :: id in store.index[e] ==> id in store.tasks && store.tasks[id].employeeId == e)
  }

  /** A repository built over existing tasks agrees only if there are none. */
  lemma FreshIndexAgrees(initial: TaskMap)
    ensures Agrees(Store(initial, map[])) <==> initial == map[]
  {
    if initial != map[] {
      var id :| id in initial;
    }
  }

  lemma DistinctSnoc(ids: seq<TaskId>, id: TaskId)
    requires Distinct(ids) && id !in ids
    ensures Distinct(ids + [id])
  {
  }

  /** The list of the owner gains at most the new id, and stays without repetition. */
  lemma CreatedList(store: Store, id: TaskId, employee: EmployeeId, conversation: string, now: Timestamp)
    requires Agrees(store)
    ensures var list := Created(store, id, employee, conversation, now).index[employee];
            Distinct(list) && forall k :: k in list <==> k == id || k in Listed(store.index, employee)
  {
    var listed := Listed(store.index, employee);
    if id !in listed {
      DistinctSnoc(listed, id);
    }
  }

  lemma CreateForOwnerAgrees(store: Store, id: TaskId, employee: EmployeeId, conversation: string, now: Timestamp)
    requires Agrees(store) && (id in store.tasks ==> store.tasks[id].employeeId == employee)
    ensures Agrees(Created(store, id, employee, conversation, now))
  {
    var after := Created(store, id, employee, conversation, now);
    CreatedList(store, id, employee, conversation, now);
    forall k | k in store.tasks && k != id ensures k in Listed(after.index, after.tasks[k].employeeId) {
      assert k in Listed(store.index, store.tasks[k].employeeId);
    }
    forall e | e in after.index
      ensures Distinct(after.index[e]) && forall k :: k in after.index[e] ==> k in after.tasks && after.tasks[k].employeeId == e
    {
      if e != employee {
        assert after.index[e] == store.index[e];
      }
    }
  }

  /** Creating a task keeps the agreement exactly when its id is not in use by another employee. */
  lemma CreateKeepsAgreement(store: Store, id: TaskId, employee: EmployeeId, conversation: string, now: Timestamp)
    requires Agrees(store)
    ensures Agrees(Created(store, id, employee, conversation, now))
            <==> id !in store.tasks || store.tasks[id].employeeId == employee
  {
    if id in store.tasks && store.tasks[id].employeeId != employee {
      assert id in Created(store, id, employee, conversation, now).index[store.tasks[id].employeeId];
    } else {
      CreateForOwnerAgrees(store, id, employee, conversation, now);
    }
  }

  lemma UpdateKeepsAgreement(store: Store, table: Table, id: TaskId, employee: EmployeeId, c: Changes, now: Timestamp)
    requires Agrees(store)
    ensures match Updated(store, table, id, employee, c, now)
            case Ok(after) => Agrees(after)
            case Err(_) => true
  {
  }

  // ----- recovery -----

  /** The tasks among `ids` that a recovery interrupts, in order. */
  function InflightIds(tasks: TaskMap, ids: seq<TaskId>): seq<TaskId> {
    if ids == [] then []
    else
      var id := ids[|ids| - 1];
      InflightIds(tasks, ids[..|ids| - 1]) + if id in tasks && tasks[id].status in INFLIGHT then [id] else []
  }

  lemma InflightSnoc(tasks: TaskMap, a: seq<TaskId>, id: TaskId)
    ensures InflightIds(tasks, a + [id]) == InflightIds(tasks, a) + if id in tasks && (tasks[id].status.Queued? || tasks[id].status.Running? || tasks[id].status.AwaitingApproval?) then [id] else []
  {
    assert (a + [id])[..|a|] == a;
  }

  /** The ids in flight of two lists are those of the lists, in order. */
  lemma {:induction false} InflightOfParts(tasks: TaskMap, a: seq<TaskId>, b: seq<TaskId>, id: TaskId)
    ensures InflightIds(tasks, a + b) == InflightIds(tasks, a) + InflightIds(tasks, b)
    ensures InflightIds(tasks, [id]) == if id in tasks && (tasks[id].status.Queued? || tasks[id].status.Running? || tasks[id].status.AwaitingApproval?) then [id] else []
    decreases |b|
  {
    InflightSnoc(tasks, [], id);
    assert [] + [id] == [id];
    if b == [] {
      AppendNothing(a);
    } else {
      var front, last := b[..|b| - 1], b[|b| - 1];
      InflightOfParts(tasks, a, front, id);
      AppendFront(a, b);
      InflightSnoc(tasks, a + front, last);
      InflightSnoc(tasks, front, last);
      assert front + [last] == b;
    }
  }

  lemma {:induction false} RecoverIdsTasks(tasks: TaskMap, ids: seq<TaskId>, reason: string, now: Timestamp)
    requires Distinct(ids)
    ensures var after := RecoverIds(tasks, ids, reason, now).0;
            && after.Keys == tasks.Keys
            && forall id :: id in tasks ==>
                 after[id] == if id in ids && tasks[id].status in INFLIGHT then Halted(tasks[id], reason, now) else tasks[id]
  {
    if ids != [] {
      var front, last := ids[..|ids| - 1], ids[|ids| - 1];
      RecoverIdsTasks(tasks, front, reason, now);
      assert last !in front;
      assert ids == front + [last];
    }
  }

  lemma {:induction false} RecoverIdsReport(tasks: TaskMap, ids: seq<TaskId>, reason: string, now: Timestamp)
    requires Distinct(ids)
    ensures var halted := RecoverIds(tasks, ids, reason, now).1;
            && |halted| == |InflightIds(tasks, ids)|
            && forall i :: 0 <= i < |halted| ==>
                 InflightIds(tasks, ids)[i] in tasks && halted[i] == Halted(tasks[InflightIds(tasks, ids)[i]], reason, now)
  {
    if ids != [] {
      var front, last := ids[..|ids| - 1], ids[|ids| - 1];
      RecoverIdsTasks(tasks, front, reason, now);
      RecoverIdsReport(tasks, front, reason, now);
      assert last !in front;
    }
  }

  lemma {:induction false} NothingInflight(tasks: TaskMap, ids: seq<TaskId>, reason: string, now: Timestamp)
    requires forall id :: id in ids && id in tasks ==> tasks[id].status !in INFLIGHT
    ensures RecoverIds(tasks, ids, reason, now) == (tasks, [])
  {
    if ids != [] {
      NothingInflight(tasks, ids[..|ids| - 1], reason, now);
    }
  }

  /**
   Recovery interrupts exactly the owner's in-flight tasks, reports them in creation order as
   they now stand, changes no other task, and leaves none in flight; run again, it does nothing.
   */
  lemma RecoveryIsExact(store: Store, employee: EmployeeId, reason: string, now: Timestamp, reason2: string, now2: Timestamp)
    requires Agrees(store)
    ensures var (after, halted) := Recovered(store, employee, reason, now);
            && Agrees(after)
            && after.tasks.Keys == store.tasks.Keys && after.index == store.index
            && (forall id :: id in store.tasks ==>
                  after.tasks[id]
                  == if store.tasks[id].employeeId == employee && store.tasks[id].status in INFLIGHT
                     then store.tasks[id].(status := Interrupted, reason := reason, completedAt := Some(now), updatedAt := now)
                     else store.tasks[id])
            && (forall id :: id in after.tasks && after.tasks[id].employeeId == employee ==> after.tasks[id].status !in INFLIGHT)
            && |halted| == |InflightIds(store.tasks, Listed(store.index, employee))|
            && (forall i :: 0 <= i < |halted| ==>
                  && halted[i].taskId == InflightIds(store.tasks, Listed(store.index, employee))[i]
                  && halted[i].taskId in after.tasks && halted[i] == after.tasks[halted[i].taskId])
            && Recovered(after, employee, reason2, now2) == (after, [])
  {
    var ids := Listed(store.index, employee);
    RecoverIdsTasks(store.tasks, ids, reason, now);
    RecoverIdsReport(store.tasks, ids, reason, now);
    var (after, halted) := Recovered(store, employee, reason, now);
    forall i | 0 <= i < |halted|
      ensures halted[i].taskId == InflightIds(store.tasks, ids)[i]
              && halted[i].taskId in after.tasks && halted[i] == after.tasks[halted[i].taskId]
    {
      InflightIdsHold(store.tasks, ids, InflightIds(store.tasks, ids)[i]);
    }
    NothingInflight(after.tasks, ids, reason2, now2);
  }

  lemma {:induction false} InflightIdsHold(tasks: TaskMap, ids: seq<TaskId>, id: TaskId)
    ensures id in InflightIds(tasks, ids) <==> id in ids && id in tasks && tasks[id].status in INFLIGHT
  {
    if ids != [] {
      var front, last := ids[..|ids| - 1], ids[|ids| - 1];
      InflightIdsHold(tasks, front, id);
      assert ids == front + [last];
    }
  }

  // ----- counts -----

  /** The sum of the counts over the statuses in `keys`. */
  ghost function TotalOver(counts: map<Status, nat>, keys: set<Status>): nat
    requires keys <= counts.Keys
  {
    if keys == {} then 0
    else
      var s :| s in keys;
      counts[s] + TotalOver(counts, keys - {s})
  }

  ghost function Total(counts: map<Status, nat>): nat {
    TotalOver(counts, counts.Keys)
  }

  lemma {:induction false} TotalSplits(counts: map<Status, nat>, keys: set<Status>, s: Status)
    requires keys <= counts.Keys && s in keys
    ensures TotalOver(counts, keys) == counts[s] + TotalOver(counts, keys - {s})
  {
    var t :| t in keys && TotalOver(counts, keys) == counts[t] + TotalOver(counts, keys - {t});
    if t != s {
      TotalSplits(counts, keys - {t}, s);
      TotalSplits(counts, keys - {s}, t);
      assert keys - {t} - {s} == keys - {s} - {t};
    }
  }

  lemma {:induction false} TotalDepends(a: map<Status, nat>, b: map<Status, nat>, keys: set<Status>)
    requires keys <= a.Keys && keys <= b.Keys && forall s :: s in keys ==> a[s] == b[s]
    ensures TotalOver(a, keys) == TotalOver(b, keys)
  {
    if keys != {} {
      var s :| s in keys && TotalOver(a, keys) == a[s] + TotalOver(a, keys - {s});
      TotalDepends(a, b, keys - {s});
      TotalSplits(b, keys, s);
    }
  }

  lemma TotalBump(counts: map<Status, nat>, s: Status)
    ensures Total(counts[s := (if s in counts then counts[s] else 0) + 1]) == Total(counts) + 1
  {
    var after := counts[s := (if s in counts then counts[s] else 0) + 1];
    TotalSplits(after, after.Keys, s);
    TotalDepends(after, counts, counts.Keys - {s});
    assert after.Keys - {s} == counts.Keys - {s};
    if s in counts {
      TotalSplits(counts, counts.Keys, s);
    } else {
      assert counts.Keys - {s} == counts.Keys;
    }
  }

  lemma {:induction false} CountsAddUp(tasks: TaskMap, ids: seq<TaskId>)
    requires forall id :: id in ids ==> id in tasks
    ensures Total(CountIds(tasks, ids)) == |ids|
  {
    if ids != [] {
      var front, last := ids[..|ids| - 1], ids[|ids| - 1];
      CountsAddUp(tasks, front);
      assert last in ids;
      TotalBump(CountIds(tasks, front), tasks[last].status);
    }
  }

  ghost function WithStatus(tasks: TaskMap, ids: seq<TaskId>, s: Status): set<TaskId> {
    set id | id in ids && id in tasks && tasks[id].status == s
  }

  lemma WithStatusGrows(tasks: TaskMap, front: seq<TaskId>, last: TaskId, s: Status)
    requires last in tasks && last !in front
    ensures |WithStatus(tasks, front + [last], s)|
            == |WithStatus(tasks, front, s)| + if tasks[last].status == s then 1 else 0
  {
    var before, after := WithStatus(tasks, front, s), WithStatus(tasks, front + [last], s);
    if tasks[last].status == s {
      assert after == before + {last} && last !in before;
    } else {
      assert after == before;
    }
  }

  /** Each count is the number of listed tasks in that status. */
  lemma {:induction false} CountsAreExact(tasks: TaskMap, ids: seq<TaskId>, s: Status)
    requires Distinct(ids) && forall id :: id in ids ==> id in tasks
    ensures var counts := CountIds(tasks, ids);
            (if s in counts then counts[s] else 0) == |WithStatus(tasks, ids, s)|
  {
    if ids == [] {
      assert WithStatus(tasks, ids, s) == {};
    } else {
      var front, last := ids[..|ids| - 1], ids[|ids| - 1];
      CountsAreExact(tasks, front, s);
      assert last in ids && last !in front;
      WithStatusGrows(tasks, front, last, s);
      assert ids == front + [last];
    }
  }

  /** For every status, the reported count is the number of the employee's tasks in that status. */
  lemma TaskCountsAreExact(store: Store, employee: EmployeeId, s: Status)
    requires Agrees(store)
    ensures var counts := TaskCounts(store, employee);
            (if s in counts then counts[s] else 0)
            == |set id | id in store.tasks && store.tasks[id].employeeId == employee && store.tasks[id].status == s|
  {
    var ids := Listed(store.index, employee);
    CountsAreExact(store.tasks, ids, s);
    assert WithStatus(store.tasks, ids, s)
           == set id | id in store.tasks && store.tasks[id].employeeId == employee && store.tasks[id].status == s;
  }

  // ----- runs -----

  datatype Op =
    | Create(id: TaskId, employee: EmployeeId, conversation: string, now: Timestamp)
    | Update(id: TaskId, employee: EmployeeId, changes: Changes, now: Timestamp)
    | Recover(employee: EmployeeId, reason: string, now: Timestamp)

  /** A refused update raises and leaves the store as it was. */
  function Apply(table: Table, store: Store, op: Op): Store {
    match op
    case Create(id, employee, conversation, now) => Created(store, id, employee, conversation, now)
    case Update(id, employee, c, now) =>
      (match Updated(store, table, id, employee, c, now)
       case Ok(after) => after
       case Err(_) => store)
    case Recover(employee, reason, now) => Recovered(store, employee, reason, now).0
  }

  function After(table: Table, store: Store, ops: seq<Op>): Store
    decreases |ops|
  {
    if ops == [] then store else After(table, Apply(table, store, ops[0]), ops[1..])
  }

  /** No created id is already in use. */
  ghost predicate FreshIds(table: Table, store: Store, ops: seq<Op>)
    decreases |ops|
  {
    ops != [] ==>
      && (ops[0].Create? ==> ops[0].id !in store.tasks)
      && FreshIds(table, Apply(table, store, ops[0]), ops[1..])
  }

  const EMPTY := Store(map[], map[])

  /** The status stays, moves along the table by an update, or is interrupted by the owner's recovery. */
  ghost predicate LegalMove(table: Table, op: Op, was: Task, status: Status) {
    || status == was.status
    || (op.Update? && was.status in table && status in table[was.status])
    || (op.Recover? && was.employeeId == op.employee && was.status in INFLIGHT && status == Interrupted)
  }

  /** One step keeps the stores in agreement and moves each status along the table or by recovery. */
  lemma StepIsLegal(table: Table, store: Store, op: Op)
    requires Agrees(store) && (op.Create? ==> op.id !in store.tasks)
    ensures var after := Apply(table, store, op);
            && Agrees(after)
            && forall id :: id in store.tasks ==>
                 && id in after.tasks
                 && after.tasks[id].employeeId == store.tasks[id].employeeId
                 && LegalMove(table, op, store.tasks[id], after.tasks[id].status)
    ensures !op.Create? ==>
              forall e :: Listed(Apply(table, store, op).index, e) == Listed(store.index, e)
  {
    match op
    case Create(id, employee, conversation, now) => CreateKeepsAgreement(store, id, employee, conversation, now);
    case Update(id, employee, c, now) => UpdateKeepsAgreement(store, table, id, employee, c, now);
    case Recover(employee, reason, now) => RecoveryIsExact(store, employee, reason, now, reason, now);
  }

  /** Updates and recovery leave every employee's total task count unchanged. */
  lemma TotalsAreKept(table: Table, store: Store, op: Op, employee: EmployeeId)
    requires Agrees(store) && !op.Create?
    ensures Total(TaskCounts(Apply(table, store, op), employee)) == Total(TaskCounts(store, employee))
  {
    StepIsLegal(table, store, op);
    var after := Apply(table, store, op);
    CountsAddUp(store.tasks, Listed(store.index, employee));
    CountsAddUp(after.tasks, Listed(after.index, employee));
  }

  /** No task is lost, and what is completed stays so. */
  ghost predicate KeepsCompleted(before: Store, after: Store) {
    forall id :: id in before.tasks ==>
      id in after.tasks && (before.tasks[id].status == Completed ==> after.tasks[id].status == Completed)
  }

  lemma StepKeepsCompleted(table: Table, store: Store, op: Op)
    requires Agrees(store) && (op.Create? ==> op.id !in store.tasks)
    requires Completed in table ==> table[Completed] == {}
    ensures Agrees(Apply(table, store, op)) && KeepsCompleted(store, Apply(table, store, op))
  {
    StepIsLegal(table, store, op);
    assert Completed !in INFLIGHT;
  }

  /** Over every run with fresh ids the stores agree, and a completed task stays completed. */
  lemma {:induction false} RunsAgree(table: Table, store: Store, ops: seq<Op>)
    requires Agrees(store) && FreshIds(table, store, ops)
    requires Completed in table ==> table[Completed] == {}
    ensures Agrees(After(table, store, ops)) && KeepsCompleted(store, After(table, store, ops))
    decreases |ops|
  {
    if ops != [] {
      StepKeepsCompleted(table, store, ops[0]);
      RunsAgree(table, Apply(table, store, ops[0]), ops[1..]);
    }
  }

  /** The same for the repository as shipped, started empty. */
  lemma RepositoryRunsAgree(ops: seq<Op>)
    requires FreshIds(TRANSITIONS, EMPTY, ops)
    ensures Agrees(After(TRANSITIONS, EMPTY, ops))
  {
    FreshIndexAgrees(map[]);
    RunsAgree(TRANSITIONS, EMPTY, ops);
  }
}
