/**
 * The task handlers of `routers/tasks.py`. Each handler works on the database and, through the
 * scheduler service, on the job registry; each keeps `Scheduler.Consistent` (a completed task has no
 * job, and no job outlives its task). The row id SQLite assigns to a new task is the parameter `rowId`.
 */
module TasksRouter {
  import opened Common
  import opened Models
  import opened Store
  import opened JobKeys
  import opened Scheduler

  /** `GET /tasks`: the stored tasks, without the completed ones unless `includeCompleted` is set. */
  function ListTasks(tasks: map<int, Task>, includeCompleted: bool): (r: map<int, Task>)
    ensures includeCompleted ==> r == tasks
    ensures forall k :: k in r ==> k in tasks && r[k] == tasks[k] && (includeCompleted || !r[k].completed)
    ensures forall k :: k in tasks && !tasks[k].completed ==> k in r
  {
    map k | k in tasks && (includeCompleted || !tasks[k].completed) :: tasks[k]
  }

  /** `POST /tasks`: stores the new task, then syncs it. A priority or reminder offset outside the 64-bit
      column range makes the commit fail: nothing is stored and `sync_task` is not reached. */
  method CreateTask(db: Database, svc: SchedulerService, payload: TaskCreate, rowId: int, now: Time, crontab: Crontab)
    returns (r: Result<Task>)
    requires db.Valid() && rowId !in db.tasks
    requires Consistent(db.tasks, svc.scheduler.jobs)
    modifies db, svc.scheduler
    ensures !Storable(TaskFromCreate(payload)) ==>
              r == Err(Rejected) && db.tasks == old(db.tasks) && svc.scheduler.jobs == old(svc.scheduler.jobs)
    ensures Storable(TaskFromCreate(payload)) ==>
              r == Ok(TaskFromCreate(payload).(id := Some(rowId))) &&
              db.tasks == old(db.tasks)[rowId := r.value] &&
              svc.scheduler.jobs == Synced(old(svc.scheduler.jobs), r.value, now, crontab)
    ensures db.notes == old(db.notes)
    ensures db.Valid() && Consistent(db.tasks, svc.scheduler.jobs)
  {
    var t := TaskFromCreate(payload);
    if !Storable(t) {
      return Err(Rejected);
    }
    t := t.(id := Some(rowId));
    db.tasks := db.tasks[rowId := t];
    SyncKeepsConsistent(old(db.tasks), old(svc.scheduler.jobs), rowId, t, now, crontab);
    svc.SyncTask(t, now, crontab);
    r := Ok(t);
  }

  /** One `(field, value)` pair of `payload.dict(exclude_unset=True)`, as `setattr` applies it. */
  datatype Assignment =
    | SetTitle(title: string)
    | SetDescription(description: Option<string>)
    | SetDueDate(dueDate: Option<Time>)
    | SetPriority(priority: Option<int>)
    | SetRecurrence(recurrence: Option<string>)
    | SetReminderOffset(reminderOffset: Option<int>)
    | SetCompleted(completed: bool)
    | SetLastRemindedAt(lastRemindedAt: Option<Time>)

  /** The payload sets no `NOT NULL` column (`title`, `completed`) to `null`, and no integer column
      (`priority`, `reminder_offset`) to a value outside the 64-bit range; otherwise the commit fails. */
  predicate Writable(p: TaskUpdate) {
    p.title != Set(None) && p.completed != Set(None) &&
    (p.priority.Set? ==> FitsInt64(p.priority.value)) &&
    (p.reminderOffset.Set? ==> FitsInt64(p.reminderOffset.value))
  }

  /** The fields the payload sets, in declaration order; an unset field is absent. */
  function Assignments(p: TaskUpdate): seq<Assignment>
    requires Writable(p)
  {
    TextAssignments(p) + DateAssignments(p) + ScheduleAssignments(p) + StatusAssignments(p)
  }

  /** `title` and `description`, if set. */
  function TextAssignments(p: TaskUpdate): seq<Assignment>
    requires Writable(p)
  {
    (if p.title.Set? then [SetTitle(p.title.value.value)] else [])
    + (if p.description.Set? then [SetDescription(p.description.value)] else [])
  }

  /** `due_date` and `priority`, if set. */
  function DateAssignments(p: TaskUpdate): seq<Assignment> {
    (if p.dueDate.Set? then [SetDueDate(p.dueDate.value)] else [])
    + (if p.priority.Set? then [SetPriority(p.priority.value)] else [])
  }

  /** `recurrence` and `reminder_offset`, if set. */
  function ScheduleAssignments(p: TaskUpdate): seq<Assignment> {
    (if p.recurrence.Set? then [SetRecurrence(p.recurrence.value)] else [])
    + (if p.reminderOffset.Set? then [SetReminderOffset(p.reminderOffset.value)] else [])
  }

  /** `completed` and `last_reminded_at`, if set. */
  function StatusAssignments(p: TaskUpdate): seq<Assignment>
    requires Writable(p)
  {
    (if p.completed.Set? then [SetCompleted(p.completed.value.value)] else [])
    + (if p.lastRemindedAt.Set? then [SetLastRemindedAt(p.lastRemindedAt.value)] else [])
  }

  /** `setattr(task, field, value)`. */
  function SetAttr(t: Task, a: Assignment): Task {
    match a
    case SetTitle(v) => t.(title := v)
    case SetDescription(v) => t.(description := v)
    case SetDueDate(v) => t.(dueDate := v)
    case SetPriority(v) => t.(priority := v)
    case SetRecurrence(v) => t.(recurrence := v)
    case SetReminderOffset(v) => t.(reminderOffset := v)
    case SetCompleted(v) => t.(completed := v)
    case SetLastRemindedAt(v) => t.(lastRemindedAt := v)
  }

  /** The task after the `setattr` loop has applied `updates` in order. */
  function ApplyAll(t: Task, updates: seq<Assignment>): Task {
    if updates == [] then t else SetAttr(ApplyAll(t, updates[..|updates| - 1]), updates[|updates| - 1])
  }

  lemma {:induction false} ApplyAllAppend(t: Task, a: seq<Assignment>, b: seq<Assignment>)
    ensures ApplyAll(t, a + b) == ApplyAll(ApplyAll(t, a), b)
    decreases |b|
  {
    if b == [] {
      assert a + b == a;
    } else {
      assert (a + b)[..|a + b| - 1] == a + b[..|b| - 1];
      ApplyAllAppend(t, a, b[..|b| - 1]);
    }
  }

  /** A field the payload sets takes the given value; a field it leaves unset keeps its value. */
  function Pick<T>(p: Patch<T>, current: T): T {
    if p.Set? then p.value else current
  }

  /** The merged task, field by field. */
  function Merged(t: Task, p: TaskUpdate): Task
    requires Writable(p)
  {
    t.(title := if p.title.Set? then p.title.value.value else t.title,
       description := Pick(p.description, t.description),
       dueDate := Pick(p.dueDate, t.dueDate),
       priority := Pick(p.priority, t.priority),
       recurrence := Pick(p.recurrence, t.recurrence),
       reminderOffset := Pick(p.reminderOffset, t.reminderOffset),
       completed := if p.completed.Set? then p.completed.value.value else t.completed,
       lastRemindedAt := Pick(p.lastRemindedAt, t.lastRemindedAt))
  }

  /** Applying at most one assignment. */
  function Step(t: Task, a: seq<Assignment>): Task {
    if a == [] then t else SetAttr(t, a[0])
  }

  /** Applying at most two assignments, one after the other. */
  lemma PairStep(t: Task, a: seq<Assignment>, b: seq<Assignment>)
    requires |a| <= 1 && |b| <= 1
    ensures ApplyAll(t, a + b) == Step(Step(t, a), b)
  {
    ApplyAllAppend(t, a, b);
    if a != [] {
      assert a[..0] == [];
    }
    if b != [] {
      assert b[..0] == [];
    }
  }

  lemma TextAssignmentsMerge(t: Task, p: TaskUpdate)
    requires Writable(p)
    ensures ApplyAll(t, TextAssignments(p)) ==
            t.(title := if p.title.Set? then p.title.value.value else t.title,
               description := Pick(p.description, t.description))
  {
    PairStep(t, if p.title.Set? then [SetTitle(p.title.value.value)] else [],
             if p.description.Set? then [SetDescription(p.description.value)] else []);
  }

  lemma DateAssignmentsMerge(t: Task, p: TaskUpdate)
    ensures ApplyAll(t, DateAssignments(p)) ==
            t.(dueDate := Pick(p.dueDate, t.dueDate), priority := Pick(p.priority, t.priority))
  {
    PairStep(t, if p.dueDate.Set? then [SetDueDate(p.dueDate.value)] else [],
             if p.priority.Set? then [SetPriority(p.priority.value)] else []);
  }

  lemma ScheduleAssignmentsMerge(t: Task, p: TaskUpdate)
    ensures ApplyAll(t, ScheduleAssignments(p)) ==
            t.(recurrence := Pick(p.recurrence, t.recurrence),
               reminderOffset := Pick(p.reminderOffset, t.reminderOffset))
  {
    PairStep(t, if p.recurrence.Set? then [SetRecurrence(p.recurrence.value)] else [],
             if p.reminderOffset.Set? then [SetReminderOffset(p.reminderOffset.value)] else []);
  }

  lemma StatusAssignmentsMerge(t: Task, p: TaskUpdate)
    requires Writable(p)
    ensures ApplyAll(t, StatusAssignments(p)) ==
            t.(completed := if p.completed.Set? then p.completed.value.value else t.completed,
               lastRemindedAt := Pick(p.lastRemindedAt, t.lastRemindedAt))
  {
    PairStep(t, if p.completed.Set? then [SetCompleted(p.completed.value.value)] else [],
             if p.lastRemindedAt.Set? then [SetLastRemindedAt(p.lastRemindedAt.value)] else []);
  }

  /** The assignments of the payload, applied in order, give the field-wise merge. */
  lemma AssignmentsMerge(t: Task, p: TaskUpdate)
    requires Writable(p)
    ensures ApplyAll(t, Assignments(p)) == Merged(t, p)
  {
    var s1 := TextAssignments(p);
    var s2 := s1 + DateAssignments(p);
    var s3 := s2 + ScheduleAssignments(p);
    ApplyAllAppend(t, s3, StatusAssignments(p));
    ApplyAllAppend(t, s2, ScheduleAssignments(p));
    ApplyAllAppend(t, s1, DateAssignments(p));
    TextAssignmentsMerge(t, p);
    DateAssignmentsMerge(ApplyAll(t, s1), p);
    ScheduleAssignmentsMerge(ApplyAll(t, s2), p);
    StatusAssignmentsMerge(ApplyAll(t, s3), p);
  }

  /** The `setattr` loop of `update_task`: exactly the fields the payload sets are overwritten (an
      explicit `null` clears the field), and every other field, `id` and `created_at` included, is unchanged. */
  method MergeUpdate(t: Task, p: TaskUpdate) returns (m: Task)
    requires Writable(p)
    ensures m.id == t.id && m.createdAt == t.createdAt
    ensures m.title == if p.title.Set? then p.title.value.value else t.title
    ensures m.description == Pick(p.description, t.description)
    ensures m.dueDate == Pick(p.dueDate, t.dueDate)
    ensures m.priority == Pick(p.priority, t.priority)
    ensures m.recurrence == Pick(p.recurrence, t.recurrence)
    ensures m.reminderOffset == Pick(p.reminderOffset, t.reminderOffset)
    ensures m.completed == if p.completed.Set? then p.completed.value.value else t.completed
    ensures m.lastRemindedAt == Pick(p.lastRemindedAt, t.lastRemindedAt)
  {
    var updates := Assignments(p);
    m := t;
    for i := 0 to |updates|
      invariant m == ApplyAll(t, updates[..i])
    {
      assert updates[..i + 1][..i] == updates[..i];
      m := SetAttr(m, updates[i]);
    }
    assert updates[..|updates|] == updates;
    AssignmentsMerge(t, p);
  }

  /** The task `update_task` stores: the merge, and `last_reminded_at := now` when the result is completed. */
  function UpdatedTask(t: Task, p: TaskUpdate, now: Time): Task
    requires Writable(p)
  {
    var m := Merged(t, p);
    if m.completed then m.(lastRemindedAt := Some(now)) else m
  }

  /** An accepted update keeps a stored task's integer columns within their 64-bit range. */
  lemma UpdateKeepsStorable(t: Task, p: TaskUpdate, now: Time)
    requires Writable(p) && Storable(t)
    ensures Storable(UpdatedTask(t, p, now))
  {
  }

  /** The largest 64-bit priority is accepted and the next integer is not, on creation and on update. */
  lemma IntegerColumnBounds(title: string, now: Time)
    ensures Storable(TaskFromCreate(DefaultTaskCreate(title, now).(priority := Some(MaxInt64))))
    ensures !Storable(TaskFromCreate(DefaultTaskCreate(title, now).(priority := Some(MaxInt64 + 1))))
    ensures Writable(EmptyUpdate.(reminderOffset := Set(Some(MinInt64))))
    ensures !Writable(EmptyUpdate.(reminderOffset := Set(Some(MinInt64 - 1))))
  {
  }

  /** `PATCH /tasks/{id}`: 404 for an unknown id, and a failed commit for a `null` title or completion flag
      or an integer outside the 64-bit range, both with no change; otherwise the merged task is stored
      and synced. */
  method UpdateTask(db: Database, svc: SchedulerService, taskId: int, p: TaskUpdate, now: Time, crontab: Crontab)
    returns (r: Result<Task>)
    requires db.Valid() && Consistent(db.tasks, svc.scheduler.jobs)
    modifies db, svc.scheduler
    ensures taskId !in old(db.tasks) ==> r == Err(NotFound)
    ensures taskId in old(db.tasks) && !Writable(p) ==> r == Err(Rejected)
    ensures r.Err? ==> db.tasks == old(db.tasks) && svc.scheduler.jobs == old(svc.scheduler.jobs)
    ensures taskId in old(db.tasks) && Writable(p) ==>
              r == Ok(UpdatedTask(old(db.tasks)[taskId], p, now)) &&
              db.tasks == old(db.tasks)[taskId := r.value] &&
              svc.scheduler.jobs == Synced(old(svc.scheduler.jobs), r.value, now, crontab)
    ensures db.notes == old(db.notes)
    ensures db.Valid() && Consistent(db.tasks, svc.scheduler.jobs)
  {
    if taskId !in db.tasks {
      return Err(NotFound);
    }
    if !Writable(p) {
      return Err(Rejected);
    }
    UpdateKeepsStorable(db.tasks[taskId], p, now);
    var task := MergeUpdate(db.tasks[taskId], p);
    if task.completed {
      task := task.(lastRemindedAt := Some(now));
    }
    db.tasks := db.tasks[taskId := task];
    SyncKeepsConsistent(old(db.tasks), old(svc.scheduler.jobs), taskId, task, now, crontab);
    svc.SyncTask(task, now, crontab);
    r := Ok(task);
  }

  /** The task `complete_task` stores. */
  function CompletedTask(t: Task, now: Time): Task {
    t.(completed := true, lastRemindedAt := Some(now))
  }

  /** `POST /tasks/{id}/complete`: 404 with no change for an unknown id; otherwise the task is completed,
      stamped with `now`, and both of its keys are cancelled. */
  method CompleteTask(db: Database, svc: SchedulerService, taskId: int, now: Time) returns (r: Result<Task>)
    requires db.Valid() && Consistent(db.tasks, svc.scheduler.jobs)
    modifies db, svc.scheduler
    ensures taskId !in old(db.tasks) ==>
              r == Err(NotFound) && db.tasks == old(db.tasks) && svc.scheduler.jobs == old(svc.scheduler.jobs)
    ensures taskId in old(db.tasks) ==>
              r == Ok(CompletedTask(old(db.tasks)[taskId], now)) &&
              db.tasks == old(db.tasks)[taskId := r.value] &&
              svc.scheduler.jobs == Cancelled(old(svc.scheduler.jobs), Some(taskId))
    ensures db.notes == old(db.notes)
    ensures db.Valid() && Consistent(db.tasks, svc.scheduler.jobs)
  {
    if taskId !in db.tasks {
      return Err(NotFound);
    }
    var task := db.tasks[taskId];
    task := task.(completed := true);
    task := task.(lastRemindedAt := Some(now));
    db.tasks := db.tasks[taskId := task];
    CompleteKeepsConsistent(old(db.tasks), old(svc.scheduler.jobs), taskId, task);
    svc.CancelTask(task.id);
    r := Ok(task);
  }

  /** `DELETE /tasks/{id}`: 404 with no change for an unknown id; otherwise the row is removed and both of
      its keys are cancelled. */
  method DeleteTask(db: Database, svc: SchedulerService, taskId: int) returns (r: Result<()>)
    requires db.Valid() && Consistent(db.tasks, svc.scheduler.jobs)
    modifies db, svc.scheduler
    ensures taskId !in old(db.tasks) ==>
              r == Err(NotFound) && db.tasks == old(db.tasks) && svc.scheduler.jobs == old(svc.scheduler.jobs)
    ensures taskId in old(db.tasks) ==>
              r == Ok(()) && db.tasks == old(db.tasks) - {taskId} &&
              svc.scheduler.jobs == Cancelled(old(svc.scheduler.jobs), Some(taskId))
    ensures db.notes == old(db.notes)
    ensures db.Valid() && Consistent(db.tasks, svc.scheduler.jobs)
  {
    if taskId !in db.tasks {
      return Err(NotFound);
    }
    db.tasks := db.tasks - {taskId};
    DeleteKeepsConsistent(old(db.tasks), old(svc.scheduler.jobs), taskId);
    svc.CancelTask(Some(taskId));
    r := Ok(());
  }

  /** An update whose result is completed stamps `now`, whatever `last_reminded_at` the payload gave, and
      the sync that follows leaves the task no job. */
  lemma UpdateToCompleted(jobs: map<JobKey, Job>, t: Task, p: TaskUpdate, now: Time, crontab: Crontab)
    requires Writable(p) && Merged(t, p).completed
    ensures UpdatedTask(t, p, now).lastRemindedAt == Some(now)
    ensures TaskOnce(t.id) !in Synced(jobs, UpdatedTask(t, p, now), now, crontab)
    ensures TaskRecurring(t.id) !in Synced(jobs, UpdatedTask(t, p, now), now, crontab)
  {
    SyncCompletedHasNoJob(jobs, UpdatedTask(t, p, now), now, crontab);
  }

  /** The empty payload `{}` is accepted and leaves an uncompleted task as it was. */
  lemma EmptyUpdateKeepsTask(t: Task, now: Time)
    requires !t.completed
    ensures Writable(EmptyUpdate) && UpdatedTask(t, EmptyUpdate, now) == t
  {
  }

  /** Completing twice leaves the registry as completing once did; the second cancel is a no-op. */
  lemma CompleteTwice(jobs: map<JobKey, Job>, taskId: int)
    ensures Cancelled(Cancelled(jobs, Some(taskId)), Some(taskId)) == Cancelled(jobs, Some(taskId))
    ensures TaskOnce(Some(taskId)) !in Cancelled(jobs, Some(taskId))
    ensures TaskRecurring(Some(taskId)) !in Cancelled(jobs, Some(taskId))
  {
    CancelIdempotent(jobs, Some(taskId));
  }
}
