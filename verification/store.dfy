/** The relational tables behind the services: customers, tasks and notes,
    held as sequences of rows in table order. Rows are values; an update
    replaces a row. */
module Store {
  import opened Wrappers
  import opened Json
  import opened ApiErrors

  /** A `customers` row. `email` is unique across the table. */
  datatype Customer = Customer(id: Uuid, name: string, email: string, createdAt: Instant, updatedAt: Instant)

  /** The task statuses, stored by name. */
  datatype TaskStatus = OPEN | IN_PROGRESS | DONE

  /** A `tasks` row. */
  datatype Task = Task(id: Uuid, customerId: Uuid, title: string, status: TaskStatus,
                       createdAt: Instant, updatedAt: Instant)

  /** A `notes` row. */
  datatype Note = Note(id: Uuid, taskId: Uuid, body: string, createdAt: Instant)

  function CustomerIds(cs: seq<Customer>): set<Uuid> { set c | c in cs :: c.id }
  function TaskIds(ts: seq<Task>): set<Uuid> { set t | t in ts :: t.id }
  function NoteIds(ns: seq<Note>): set<Uuid> { set n | n in ns :: n.id }

  predicate UniqueCustomers(cs: seq<Customer>)
  {
    forall i, j :: 0 <= i < j < |cs| ==> cs[i].id != cs[j].id && cs[i].email != cs[j].email
  }

  predicate UniqueTasks(ts: seq<Task>)
  {
    forall i, j :: 0 <= i < j < |ts| ==> ts[i].id != ts[j].id
  }

  predicate UniqueNotes(ns: seq<Note>)
  {
    forall i, j :: 0 <= i < j < |ns| ==> ns[i].id != ns[j].id
  }

  /** The database. */
  class Database {
    var customers: seq<Customer>
    var tasks: seq<Task>
    var notes: seq<Note>

    /** Primary keys are unique, and so are customer emails. */
    predicate Valid()
      reads this
    {
      UniqueCustomers(customers) && UniqueTasks(tasks) && UniqueNotes(notes)
    }

    constructor()
      ensures customers == [] && tasks == [] && notes == [] && Valid()
    {
      customers, tasks, notes := [], [], [];
    }
  }

  /** Appending a row with a new key keeps keys unique. */
  lemma AppendTaskKeepsUnique(ts: seq<Task>, t: Task)
    requires UniqueTasks(ts) && t.id !in TaskIds(ts)
    ensures UniqueTasks(ts + [t])
  {
    forall i, j | 0 <= i < j < |ts + [t]| ensures (ts + [t])[i].id != (ts + [t])[j].id {
      if j == |ts| {
        assert ts[i] in ts;
      }
    }
  }

  lemma AppendNoteKeepsUnique(ns: seq<Note>, n: Note)
    requires UniqueNotes(ns) && n.id !in NoteIds(ns)
    ensures UniqueNotes(ns + [n])
  {
    forall i, j | 0 <= i < j < |ns + [n]| ensures (ns + [n])[i].id != (ns + [n])[j].id {
      if j == |ns| {
        assert ns[i] in ns;
      }
    }
  }
}
