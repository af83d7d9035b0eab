/** `TaskRepository.findTaskSummaries`: a customer's tasks, newest first,
    each left-joined with its notes whose creation time is the latest among
    that task's notes. */
module TaskSummaries {
  import opened Wrappers
  import opened Json
  import opened ApiErrors
  import opened Sorting
  import opened Store
  import opened Tasks

  /** One row of the query's result. */
  datatype TaskSummaryItem = TaskSummaryItem(
    id: Uuid, customerId: Uuid, title: string, status: TaskStatus, updatedAt: Instant,
    latestNoteSnippet: Option<string>, latestNoteCreatedAt: Option<Instant>)

  /** The notes of one task, in table order. */
  function NotesOf(ns: seq<Note>, taskId: Uuid): (r: seq<Note>)
    ensures forall n :: n in r <==> n in ns && n.taskId == taskId
    ensures multiset(r) <= multiset(ns)
  {
    if ns == [] then []
    else
      var rest := NotesOf(ns[1..], taskId);
      assert forall n :: n in ns <==> n == ns[0] || n in ns[1..];
      assert ns == [ns[0]] + ns[1..];
      if ns[0].taskId == taskId then [ns[0]] + rest else rest
  }

  /** `max(createdAt)` over some notes; SQL's null when there are none. */
  function MaxCreatedAt(ns: seq<Note>): (m: Option<Instant>)
    ensures m.None? <==> ns == []
    ensures m.Some? ==> (exists n | n in ns :: n.createdAt == m.value) && forall n | n in ns :: n.createdAt <= m.value
  {
    if ns == [] then None
    else
      var rest := MaxCreatedAt(ns[1..]);
      assert forall n :: n in ns <==> n == ns[0] || n in ns[1..];
      if rest.None? || ns[0].createdAt >= rest.value then Some(ns[0].createdAt) else rest
  }

  /** The join partners of a task: its notes created at the latest time. */
  function LatestNotes(ns: seq<Note>, taskId: Uuid): (r: seq<Note>)
    ensures forall n | n in r ::
              (n in ns && n.taskId == taskId
               && forall n2 | n2 in ns && n2.taskId == taskId :: n2.createdAt <= n.createdAt)
    ensures forall n | n in ns && n.taskId == taskId
                       && (forall n2 | n2 in ns && n2.taskId == taskId :: n2.createdAt <= n.createdAt) :: n in r
    ensures r == [] <==> forall n | n in ns :: n.taskId != taskId
    ensures multiset(r) <= multiset(ns)
  {
    match MaxCreatedAt(NotesOf(ns, taskId))
    case None => []
    case Some(m) =>
      AtLatest(NotesOf(ns, taskId), m)
  }

  /** The notes created at time `m`, in order. */
  function AtLatest(ns: seq<Note>, m: Instant): (r: seq<Note>)
    ensures forall n :: n in r <==> n in ns && n.createdAt == m
    ensures multiset(r) <= multiset(ns)
  {
    if ns == [] then []
    else
      var rest := AtLatest(ns[1..], m);
      assert forall n :: n in ns <==> n == ns[0] || n in ns[1..];
      assert ns == [ns[0]] + ns[1..];
      if ns[0].createdAt == m then [ns[0]] + rest else rest
  }

  function Item(t: Task, n: Option<Note>): TaskSummaryItem
  {
    TaskSummaryItem(t.id, t.customerId, t.title, t.status, t.updatedAt,
                    if n.Some? then Some(n.value.body) else None,
                    if n.Some? then Some(n.value.createdAt) else None)
  }

  function ItemsFor(t: Task, ns: seq<Note>): (r: seq<TaskSummaryItem>)
    ensures |r| == |ns|
    ensures forall i :: 0 <= i < |ns| ==> r[i] == Item(t, Some(ns[i]))
  {
    if ns == [] then [] else [Item(t, Some(ns[0]))] + ItemsFor(t, ns[1..])
  }

  /** The rows the left join gives one task: one per latest note, or a
      single row with no note when the task has none. */
  function SummaryRows(t: Task, ns: seq<Note>): (r: seq<TaskSummaryItem>)
    ensures |r| == Max(1, |LatestNotes(ns, t.id)|)
    ensures forall x | x in r ::
              (x.id == t.id && x.customerId == t.customerId && x.title == t.title
               && x.status == t.status && x.updatedAt == t.updatedAt)
    ensures forall x | x in r :: x.latestNoteCreatedAt.None? <==> x.latestNoteSnippet.None?
  {
    var latest := LatestNotes(ns, t.id);
    if latest == [] then [Item(t, None)] else ItemsFor(t, latest)
  }

  /** Each joined note is a latest note of its task, and a row has no note
      exactly when its task has no notes. */
  lemma SummaryRowNote(t: Task, ns: seq<Note>, x: TaskSummaryItem)
    requires x in SummaryRows(t, ns)
    ensures x.latestNoteCreatedAt.None? <==> forall n | n in ns :: n.taskId != t.id
    ensures x.latestNoteCreatedAt.Some? ==>
      exists n | n in ns :: n.taskId == t.id && n.body == x.latestNoteSnippet.value
        && n.createdAt == x.latestNoteCreatedAt.value
        && forall n2 | n2 in ns && n2.taskId == t.id :: n2.createdAt <= n.createdAt
  {
    var latest := LatestNotes(ns, t.id);
    if latest == [] {
      assert x == Item(t, None);
    } else {
      var rows := ItemsFor(t, latest);
      var i :| 0 <= i < |rows| && rows[i] == x;
      var n := latest[i];
      assert n in latest;
      assert x == Item(t, Some(n));
      assert n in ns && n.taskId == t.id;
    }
  }

  /** The rows of several tasks, task after task. */
  function SummariesOf(ts: seq<Task>, ns: seq<Note>): (r: seq<TaskSummaryItem>)
    ensures |r| >= |ts|
  {
    if ts == [] then [] else SummaryRows(ts[0], ns) + SummariesOf(ts[1..], ns)
  }

  /** Every row comes from one of the tasks, and every row of every task is
      present. */
  lemma {:induction false} SummariesMembership(ts: seq<Task>, ns: seq<Note>)
    ensures forall x | x in SummariesOf(ts, ns) :: exists t | t in ts :: x in SummaryRows(t, ns)
    ensures forall t | t in ts :: forall x | x in SummaryRows(t, ns) :: x in SummariesOf(ts, ns)
  {
    if ts != [] {
      SummariesMembership(ts[1..], ns);
      var rest := SummariesOf(ts[1..], ns);
      assert SummariesOf(ts, ns) == SummaryRows(ts[0], ns) + rest;
      assert forall t :: t in ts <==> t == ts[0] || t in ts[1..];
      forall x | x in SummariesOf(ts, ns) ensures exists t | t in ts :: x in SummaryRows(t, ns) {
        if x in SummaryRows(ts[0], ns) {
          assert ts[0] in ts;
        } else {
          assert x in rest;
          var t :| t in ts[1..] && x in SummaryRows(t, ns);
          assert t in ts;
        }
      }
    }
  }

  /** The rows of the earlier tasks come first: the rows of two runs of
      tasks are the rows of the first run followed by those of the second. */
  lemma {:induction false} SummariesAppend(xs: seq<Task>, ys: seq<Task>, ns: seq<Note>)
    ensures SummariesOf(xs + ys, ns) == SummariesOf(xs, ns) + SummariesOf(ys, ns)
  {
    if xs == [] {
      assert xs + ys == ys;
    } else {
      var h, rest, tail := SummaryRows(xs[0], ns), SummariesOf(xs[1..], ns), SummariesOf(ys, ns);
      AppendCons(xs, ys);
      calc {
        SummariesOf(xs + ys, ns);
        h + SummariesOf(xs[1..] + ys, ns);
        { SummariesAppend(xs[1..], ys, ns); }
        h + (rest + tail);
        { AppendAssoc(h, rest, tail); }
        (h + rest) + tail;
      }
    }
  }

  /** Rows drawn from tasks of one customer belong to that customer. */
  lemma {:induction false} RowsOfCustomerTasks(mine: seq<Task>, ts: seq<Task>, ns: seq<Note>, customerId: Uuid)
    requires forall i :: 0 <= i < |mine| ==> mine[i].customerId == customerId && mine[i] in ts
    ensures forall x | x in SummariesOf(mine, ns) ::
              (x.customerId == customerId
               && exists t | t in ts :: t.customerId == customerId && x in SummaryRows(t, ns))
  {
    SummariesMembership(mine, ns);
    forall x | x in SummariesOf(mine, ns)
      ensures x.customerId == customerId && exists t | t in ts :: t.customerId == customerId && x in SummaryRows(t, ns)
    {
      var t :| t in mine && x in SummaryRows(t, ns);
      var i :| 0 <= i < |mine| && mine[i] == t;
      assert t in ts && t.customerId == customerId;
    }
  }

  /** Every task of the run has at least one row, whose id is the task's. */
  lemma {:induction false} SummariesCoverTasks(ts: seq<Task>, ns: seq<Note>)
    ensures forall t | t in ts :: exists x | x in SummariesOf(ts, ns) :: x.id == t.id
  {
    SummariesMembership(ts, ns);
    forall t | t in ts ensures exists x | x in SummariesOf(ts, ns) :: x.id == t.id {
      var rows := SummaryRows(t, ns);
      assert rows[0] in rows;
    }
  }

  /** Every task drawn contributes at least one row. */
  lemma {:induction false} EveryTaskHasARow(mine: seq<Task>, ts: seq<Task>, ns: seq<Note>, customerId: Uuid)
    requires forall t | t in ts :: multiset(mine)[t] == if t.customerId == customerId then multiset(ts)[t] else 0
    ensures forall t | t in ts && t.customerId == customerId :: exists x | x in SummariesOf(mine, ns) :: x.id == t.id
  {
    SummariesCoverTasks(mine, ns);
    forall t | t in ts && t.customerId == customerId
      ensures exists x | x in SummariesOf(mine, ns) :: x.id == t.id
    {
      assert multiset(mine)[t] > 0;
      assert t in mine;
    }
  }

  /** `findTaskSummaries`: the customer's tasks in newest-first order, each
      expanded to its join rows. */
  function FindTaskSummaries(ts: seq<Task>, ns: seq<Note>, customerId: Uuid): (r: seq<TaskSummaryItem>)
    ensures forall x | x in r ::
              (x.customerId == customerId
               && exists t | t in ts :: t.customerId == customerId && x in SummaryRows(t, ns))
    ensures forall t | t in ts && t.customerId == customerId :: exists x | x in r :: x.id == t.id
    ensures r == SummariesOf(FindByCustomerIdOrderByCreatedAtDesc(ts, customerId), ns)
  {
    var mine := FindByCustomerIdOrderByCreatedAtDesc(ts, customerId);
    RowsOfCustomerTasks(mine, ts, ns, customerId);
    EveryTaskHasARow(mine, ts, ns, customerId);
    SummariesOf(mine, ns)
  }

  /** When a task's latest note time is held by a single note `n`, the
      task appears exactly once, whatever ties its earlier notes have. */
  lemma UniqueLatestGivesOneRow(t: Task, ns: seq<Note>, n: Note)
    requires n in ns && n.taskId == t.id
    requires forall n2 | n2 in ns && n2.taskId == t.id :: n2.createdAt <= n.createdAt
    requires forall n2 | n2 in ns && n2.taskId == t.id && n2.createdAt == n.createdAt :: n2 == n
    requires Distinct(ns)
    ensures |SummaryRows(t, ns)| == 1
  {
    var latest := LatestNotes(ns, t.id);
    assert n in latest;
    if |latest| > 1 {
      assert latest[0] in latest && latest[1] in latest;
      assert latest[0].createdAt == latest[1].createdAt;
      LatestNotesDistinct(ns, t.id);
      assert false;
    }
  }

  /** Every note joins at most once. */
  lemma LatestNotesDistinct(ns: seq<Note>, taskId: Uuid)
    requires Distinct(ns)
    ensures Distinct(LatestNotes(ns, taskId))
  {
    DistinctOfSubMultiset(ns, LatestNotes(ns, taskId));
  }
}
