/** The records of `models.py`: notes, tasks, the partial task update and the transient reminder. */
module Models {
  import opened Common

  /** The body of a note creation request; `createdAt` is filled by the default factory (`utcnow`). */
  datatype NoteCreate = NoteCreate(title: string, content: string, createdAt: Time)

  /** A note row; `id` is `None` until the database assigns it. */
  datatype Note = Note(id: Option<int>, title: string, content: string, createdAt: Time)

  /** The body of a task creation request: every column of the task table except `id`. */
  datatype TaskCreate = TaskCreate(
    title: string,
    description: Option<string>,
    dueDate: Option<Time>,
    priority: Option<int>,
    recurrence: Option<string>,
    reminderOffset: Option<int>,   // minutes before the due date
    createdAt: Time,
    completed: bool,
    lastRemindedAt: Option<Time>)

  /** A task row; `id` is `None` until the database assigns it. */
  datatype Task = Task(
    id: Option<int>,
    title: string,
    description: Option<string>,
    dueDate: Option<Time>,
    priority: Option<int>,
    recurrence: Option<string>,
    reminderOffset: Option<int>,
    createdAt: Time,
    completed: bool,
    lastRemindedAt: Option<Time>)

  /** A creation request that gives only the title: every other field takes its declared default. */
  function DefaultTaskCreate(title: string, now: Time): (p: TaskCreate)
    ensures p.title == title && p.createdAt == now
    ensures !p.completed && p.lastRemindedAt == None
    ensures p.description == None && p.dueDate == None && p.priority == None
    ensures p.recurrence == None && p.reminderOffset == None
  {
    TaskCreate(title, None, None, None, None, None, now, false, None)
  }

  /** `Note.from_orm(payload)`: the unsaved row carries the request's fields and no id. */
  function NoteFromCreate(p: NoteCreate): (n: Note)
    ensures n.id == None
    ensures n.title == p.title && n.content == p.content && n.createdAt == p.createdAt
  {
    Note(None, p.title, p.content, p.createdAt)
  }

  /** `Task.from_orm(payload)`: the unsaved row carries the request's fields and no id. */
  function TaskFromCreate(p: TaskCreate): (t: Task)
    ensures t.id == None
    ensures t.title == p.title && t.description == p.description && t.dueDate == p.dueDate
    ensures t.priority == p.priority && t.recurrence == p.recurrence
    ensures t.reminderOffset == p.reminderOffset && t.createdAt == p.createdAt
    ensures t.completed == p.completed && t.lastRemindedAt == p.lastRemindedAt
  {
    Task(None, p.title, p.description, p.dueDate, p.priority, p.recurrence,
         p.reminderOffset, p.createdAt, p.completed, p.lastRemindedAt)
  }

  /** The range of SQLite's `INTEGER` storage class: a signed 64-bit integer. */
  const MinInt64: int := -0x8000_0000_0000_0000
  const MaxInt64: int := 0x7FFF_FFFF_FFFF_FFFF

  /** A nullable `INTEGER` column can hold the value: `NULL`, or an integer of the 64-bit range. Binding a
      larger Python int makes the insert or update fail with `OverflowError`. */
  predicate FitsInt64(v: Option<int>) {
    v.None? || MinInt64 <= v.value <= MaxInt64
  }

  /** The task's integer columns, `priority` and `reminder_offset`, can be written to the task table. */
  predicate Storable(t: Task) {
    FitsInt64(t.priority) && FitsInt64(t.reminderOffset)
  }

  /** A field of a partial update: left out of the request body, or given (possibly as `null`). */
  datatype Patch<+T> = Unset | Set(value: T)

  /** `TaskUpdate`: every field optional, so each one is either unset or set to a value or to `None`. */
  datatype TaskUpdate = TaskUpdate(
    title: Patch<Option<string>>,
    description: Patch<Option<string>>,
    dueDate: Patch<Option<Time>>,
    priority: Patch<Option<int>>,
    recurrence: Patch<Option<string>>,
    reminderOffset: Patch<Option<int>>,
    completed: Patch<Option<bool>>,
    lastRemindedAt: Patch<Option<Time>>)

  /** The request body `{}`: valid, and it sets nothing. */
  const EmptyUpdate: TaskUpdate :=
    TaskUpdate(Unset, Unset, Unset, Unset, Unset, Unset, Unset, Unset)

  /** `Reminder`: transient, never stored. */
  datatype Reminder = Reminder(taskId: int, runAt: Time, recurrence: Option<string>)

  /** `Reminder.eta`: the time left until `runAt`; positive exactly when `runAt` is still ahead. */
  function Eta(r: Reminder, now: Time): (d: int)
    ensures now + d == r.runAt
    ensures d > 0 <==> r.runAt > now
    ensures d == 0 <==> r.runAt == now
  {
    r.runAt - now
  }
}
