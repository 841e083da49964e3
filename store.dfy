/** The database the routers and the dispatcher share: task rows and note rows by primary key. */
module Store {
  import opened Common
  import opened Models

  /** The SQLite tables behind a `Session`; `session.get(Task, k)` is a lookup of `k` in `tasks`. */
  class Database {
    var tasks: map<int, Task>
    var notes: map<int, Note>

    /** A stored row carries its own primary key as its id: ids are `None` only before a row is saved.
        A stored task's integer columns hold 64-bit values, since a commit of any other value fails. */
    predicate Valid()
      reads this
    {
      (forall k :: k in tasks ==> tasks[k].id == Some(k) && Storable(tasks[k])) &&
      (forall k :: k in notes ==> notes[k].id == Some(k))
    }

    constructor ()
      ensures Valid()
      ensures tasks == map[] && notes == map[]
    {
      tasks := map[];
      notes := map[];
    }
  }
}
