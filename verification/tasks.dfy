/** `TaskService` over the tasks and notes tables, and the two
    `TaskRepository` queries. Every service call is one transaction: a
    simulated failure after the first write rolls the tables back. */
module Tasks {
  import opened Wrappers
  import opened Text
  import opened Json
  import opened ApiErrors
  import opened Sorting
  import opened Store

  const CREATED_NOTE := "Task created"
  const STATUS_MESSAGE := "Invalid status. Allowed: OPEN, IN_PROGRESS, DONE"
  const CREATE_FAILURE := "Simulated failure after task insert"
  const UPDATE_FAILURE := "Simulated failure after task status update"

  /** The `TaskStatus` constant names. */
  function StatusName(st: TaskStatus): (name: string)
    ensures name != [] && TrimUpper(name) == name
  {
    var name := match st
      case OPEN => "OPEN"
      case IN_PROGRESS => "IN_PROGRESS"
      case DONE => "DONE";
    TrimUpperOfKey(name);
    name
  }

  /** `TaskStatus.valueOf(text.trim().toUpperCase())`, with any failure
      turned into the invalid-status rejection. */
  function ParseStatus(text: string): (r: Result<TaskStatus, ApiException>)
    ensures r.Ok? ==> TrimUpper(text) == StatusName(r.value)
    ensures r.Err? ==> r.error == IllegalArgument(STATUS_MESSAGE)
                       && forall st :: TrimUpper(text) != StatusName(st)
  {
    var key := TrimUpper(text);
    if key == "OPEN" then Ok(OPEN)
    else if key == "IN_PROGRESS" then Ok(IN_PROGRESS)
    else if key == "DONE" then Ok(DONE)
    else Err(IllegalArgument(STATUS_MESSAGE))
  }

  /** Every status name parses back to its status. */
  lemma ParseStatusName(st: TaskStatus)
    ensures ParseStatus(StatusName(st)) == Ok(st)
  {
  }

  function NegTaskCreatedAt(t: Task): int { -t.createdAt }

  /** `findByCustomerIdOrderByCreatedAtDesc`: exactly the customer's tasks,
      each as often as stored, newest first. */
  function FindByCustomerIdOrderByCreatedAtDesc(ts: seq<Task>, customerId: Uuid): (r: seq<Task>)
    ensures forall i :: 0 <= i < |r| ==> r[i].customerId == customerId && r[i] in ts
    ensures forall t | t in ts :: multiset(r)[t] == if t.customerId == customerId then multiset(ts)[t] else 0
    ensures forall i, j :: 0 <= i < j < |r| ==> r[i].createdAt >= r[j].createdAt
  {
    var mine := Filter(ts, (t: Task) => t.customerId == customerId);
    var r := SortBy(mine, NegTaskCreatedAt);
    assert forall i :: 0 <= i < |r| ==> r[i] in multiset(mine);
    r
  }

  /** The list `listTasksForCustomer` answers with. */
  datatype TaskListResponse = TaskListResponse(count: int, items: seq<Task>)

  /** `listTasksForCustomer`: the customer's tasks newest first, counted;
      an unknown customer is not found. */
  function ListTasksForCustomer(cs: seq<Customer>, ts: seq<Task>, customerId: Uuid): (r: Result<TaskListResponse, ApiException>)
    ensures customerId !in CustomerIds(cs) ==> r == Err(CustomerNotFound(customerId))
    ensures customerId in CustomerIds(cs) ==>
      r.Ok? && r.value.items == FindByCustomerIdOrderByCreatedAtDesc(ts, customerId)
      && r.value.count == |r.value.items|
  {
    if customerId !in CustomerIds(cs) then Err(CustomerNotFound(customerId))
    else
      var items := FindByCustomerIdOrderByCreatedAtDesc(ts, customerId);
      Ok(TaskListResponse(|items|, items))
  }

  /** The index of the task with `id`. */
  function TaskIndex(ts: seq<Task>, id: Uuid): (i: nat)
    requires id in TaskIds(ts)
    ensures i < |ts| && ts[i].id == id
  {
    if ts[0].id == id then 0
    else
      assert ts == [ts[0]] + ts[1..];
      1 + TaskIndex(ts[1..], id)
  }

  /** `createTaskForCustomer`: an OPEN task with the trimmed title, and its
      "Task created" note, stored together or not at all. */
  method CreateTaskForCustomer(db: Database, customerId: Uuid, title: string, simulateFailure: bool,
                               taskId: Uuid, noteId: Uuid, now: Instant)
    returns (r: Result<Task, ApiException>)
    requires db.Valid() && taskId !in TaskIds(db.tasks) && noteId !in NoteIds(db.notes)
    modifies db
    ensures db.Valid() && db.customers == old(db.customers)
    ensures customerId !in CustomerIds(db.customers) ==>
      r == Err(CustomerNotFound(customerId)) && db.tasks == old(db.tasks) && db.notes == old(db.notes)
    ensures customerId in CustomerIds(db.customers) && simulateFailure ==>
      r == Err(Runtime(CREATE_FAILURE)) && db.tasks == old(db.tasks) && db.notes == old(db.notes)
    ensures customerId in CustomerIds(db.customers) && !simulateFailure ==>
      r == Ok(Task(taskId, customerId, Trim(title), OPEN, now, now))
      && db.tasks == old(db.tasks) + [r.value]
      && db.notes == old(db.notes) + [Note(noteId, taskId, CREATED_NOTE, now)]
  {
    if customerId !in CustomerIds(db.customers) {
      return Err(CustomerNotFound(customerId));
    }
    var tasksBefore := db.tasks;
    var task := Task(taskId, customerId, Trim(title), OPEN, now, now);
    AppendTaskKeepsUnique(db.tasks, task);
    db.tasks := db.tasks + [task];
    if simulateFailure {
      // The exception rolls the transaction back.
      db.tasks := tasksBefore;
      return Err(Runtime(CREATE_FAILURE));
    }
    var note := Note(noteId, taskId, CREATED_NOTE, now);
    AppendNoteKeepsUnique(db.notes, note);
    db.notes := db.notes + [note];
    r := Ok(task);
  }

  /** `updateStatus`: the new status is set, the update time moving only
      when the status changed, and a "Status changed to" note is appended;
      both or neither are kept. An unknown task or an unknown status name
      changes nothing. */
  method UpdateStatus(db: Database, taskId: Uuid, statusText: string, simulateFailure: bool,
                      noteId: Uuid, now: Instant)
    returns (r: Result<Task, ApiException>)
    requires db.Valid() && noteId !in NoteIds(db.notes)
    modifies db
    ensures db.Valid() && db.customers == old(db.customers)
    ensures taskId !in TaskIds(old(db.tasks)) ==>
      r == Err(TaskNotFound(taskId)) && db.tasks == old(db.tasks) && db.notes == old(db.notes)
    ensures taskId in TaskIds(old(db.tasks)) && ParseStatus(statusText).Err? ==>
      r == Err(IllegalArgument(STATUS_MESSAGE)) && db.tasks == old(db.tasks) && db.notes == old(db.notes)
    ensures taskId in TaskIds(old(db.tasks)) && ParseStatus(statusText).Ok? && simulateFailure ==>
      r == Err(Runtime(UPDATE_FAILURE)) && db.tasks == old(db.tasks) && db.notes == old(db.notes)
    ensures r.Ok? ==>
      var i := TaskIndex(old(db.tasks), taskId);
      var before := old(db.tasks)[i];
      var st := ParseStatus(statusText).value;
      && r.value == before.(status := st, updatedAt := if before.status == st then before.updatedAt else now)
      && db.tasks == old(db.tasks)[i := r.value]
      && db.notes == old(db.notes) + [Note(noteId, taskId, "Status changed to " + StatusName(st), now)]
    ensures r.Ok? <==> taskId in TaskIds(old(db.tasks)) && ParseStatus(statusText).Ok? && !simulateFailure
  {
    if taskId !in TaskIds(db.tasks) {
      return Err(TaskNotFound(taskId));
    }
    var i := TaskIndex(db.tasks, taskId);
    var parsed := ParseStatus(statusText);
    if parsed.Err? {
      return Err(parsed.error);
    }
    var st := parsed.value;
    var tasksBefore := db.tasks;
    var before := db.tasks[i];
    var saved := before.(status := st, updatedAt := if before.status == st then before.updatedAt else now);
    var updated := db.tasks[i := saved];
    assert UniqueTasks(updated) by {
      forall a, b | 0 <= a < b < |updated| ensures updated[a].id != updated[b].id {
        assert updated[a].id == db.tasks[a].id && updated[b].id == db.tasks[b].id;
      }
    }
    db.tasks := updated;
    if simulateFailure {
      // The exception rolls the transaction back.
      db.tasks := tasksBefore;
      return Err(Runtime(UPDATE_FAILURE));
    }
    var audit := Note(noteId, taskId, "Status changed to " + StatusName(st), now);
    AppendNoteKeepsUnique(db.notes, audit);
    db.notes := db.notes + [audit];
    r := Ok(saved);
  }
}
