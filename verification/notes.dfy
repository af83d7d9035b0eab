/** `NoteService`: notes attached to tasks, created with a trimmed body and
    listed newest first. */
module Notes {
  import opened Wrappers
  import opened Text
  import opened Json
  import opened ApiErrors
  import opened Sorting
  import opened Store

  /** Sort key for newest first. */
  function NegNoteCreatedAt(n: Note): int { -n.createdAt }

  /** The filter `taskId = ?` of the derived query. */
  function OfTask(taskId: Uuid): Note -> bool
  {
    (n: Note) => n.taskId == taskId
  }

  /** `findByTaskIdOrderByCreatedAtDesc`: the task's notes, newest first. */
  function FindByTaskIdOrderByCreatedAtDesc(ns: seq<Note>, taskId: Uuid): (r: seq<Note>)
    ensures forall i :: 0 <= i < |r| ==> r[i].taskId == taskId && r[i] in ns
    ensures forall n | n in ns :: multiset(r)[n] == if n.taskId == taskId then multiset(ns)[n] else 0
    ensures forall i, j :: 0 <= i < j < |r| ==> r[i].createdAt >= r[j].createdAt
  {
    var mine := Filter(ns, OfTask(taskId));
    var r := SortBy(mine, NegNoteCreatedAt);
    assert forall i :: 0 <= i < |r| ==> r[i] in multiset(mine);
    r
  }

  /** The list `listNotes` answers with. */
  datatype NoteListResponse = NoteListResponse(count: int, items: seq<Note>)

  /** `listNotes`: the task's notes newest first, counted; an unknown task
      is not found. */
  function ListNotes(ts: seq<Task>, ns: seq<Note>, taskId: Uuid): (r: Result<NoteListResponse, ApiException>)
    ensures taskId !in TaskIds(ts) ==> r == Err(TaskNotFound(taskId))
    ensures taskId in TaskIds(ts) ==>
      r.Ok? && r.value.items == FindByTaskIdOrderByCreatedAtDesc(ns, taskId)
      && r.value.count == |r.value.items|
  {
    if taskId !in TaskIds(ts) then Err(TaskNotFound(taskId))
    else
      var items := FindByTaskIdOrderByCreatedAtDesc(ns, taskId);
      Ok(NoteListResponse(|items|, items))
  }

  /** `createNote`: a note with the trimmed body on an existing task. */
  method CreateNote(db: Database, taskId: Uuid, body: string, noteId: Uuid, now: Instant)
    returns (r: Result<Note, ApiException>)
    requires db.Valid() && noteId !in NoteIds(db.notes)
    modifies db
    ensures db.Valid() && db.customers == old(db.customers) && db.tasks == old(db.tasks)
    ensures taskId !in TaskIds(db.tasks) ==> r == Err(TaskNotFound(taskId)) && db.notes == old(db.notes)
    ensures taskId in TaskIds(db.tasks) ==>
      r == Ok(Note(noteId, taskId, Trim(body), now)) && db.notes == old(db.notes) + [r.value]
  {
    if taskId !in TaskIds(db.tasks) {
      return Err(TaskNotFound(taskId));
    }
    var note := Note(noteId, taskId, Trim(body), now);
    AppendNoteKeepsUnique(db.notes, note);
    db.notes := db.notes + [note];
    r := Ok(note);
  }

  /** A created note is listed with its task, once, and the count grows by
      one. */
  lemma CreatedNoteIsListed(ts: seq<Task>, ns: seq<Note>, n: Note)
    requires n.taskId in TaskIds(ts) && n !in ns
    ensures ListNotes(ts, ns + [n], n.taskId).Ok?
    ensures multiset(ListNotes(ts, ns + [n], n.taskId).value.items)[n] == 1
    ensures ListNotes(ts, ns + [n], n.taskId).value.count == ListNotes(ts, ns, n.taskId).value.count + 1
  {
    var p := OfTask(n.taskId);
    var mine := Filter(ns, p);
    FilterAppend(ns, n, p);
    assert multiset(mine)[n] == 0 by {
      assert multiset(mine)[n] <= multiset(ns)[n];
    }
    var before := SortBy(mine, NegNoteCreatedAt);
    var after := SortBy(mine + [n], NegNoteCreatedAt);
    assert multiset(after) == multiset(mine) + multiset{n};
    assert |after| == |before| + 1;
  }

  /** Creating a note leaves every other task's list as it was. */
  lemma OtherListsUnchanged(ts: seq<Task>, ns: seq<Note>, n: Note, taskId: Uuid)
    requires taskId != n.taskId
    ensures ListNotes(ts, ns + [n], taskId) == ListNotes(ts, ns, taskId)
  {
    var p := OfTask(taskId);
    FilterAppend(ns, n, p);
    assert !p(n);
    assert Filter(ns, p) + [] == Filter(ns, p);
    assert FindByTaskIdOrderByCreatedAtDesc(ns + [n], taskId) == FindByTaskIdOrderByCreatedAtDesc(ns, taskId);
  }
}
