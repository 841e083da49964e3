/**
 * `SchedulerService` of `services/scheduler.py`: turns task and note state into scheduled jobs.
 *
 * The APScheduler instance is the class `Registry`, a map from job key to job; `add_job(...,
 * replace_existing=True)` is a map update and `remove_job` a map removal. `datetime.utcnow()` is the
 * parameter `now`, `datetime.fromisoformat` the parameter `iso`, and `CronTrigger.from_crontab` the
 * parameter `crontab`, which gives `None` where the library raises `ValueError`.
 *
 * Each state-changing method is proved against a function of the old state (`Cancelled`, `Synced`,
 * `Pinged`, `Notified`), and the lemmas after the classes state what those functions guarantee.
 */
module Scheduler {
  import opened Common
  import opened Strings
  import opened Models
  import opened JobKeys
  import opened Store
  import TimeParse

  /** A `CronTrigger`: one expression per crontab field (minute, hour, day of month, month, day of week). */
  datatype CronSpec = CronSpec(minute: string, hour: string, day: string, month: string, dayOfWeek: string)

  /** `CronTrigger(hour=9)`: the fields below the smallest one given start at their minimum, the others are `*`. */
  const Daily: CronSpec := CronSpec("0", "9", "*", "*", "*")
  /** `CronTrigger(day_of_week="mon", hour=9)`. */
  const Weekly: CronSpec := CronSpec("0", "9", "*", "*", "mon")
  /** `CronTrigger(day_of_week="mon-fri", hour=9)`. */
  const Weekdays: CronSpec := CronSpec("0", "9", "*", "*", "mon-fri")

  /** A `DateTrigger` fires once at `runAt`; a `CronTrigger` fires at every occurrence of its schedule. */
  datatype Trigger = At(runAt: Time) | Cron(spec: CronSpec)

  /** The callback and its arguments: `_notify_task(task_id)`, or `_notify(title, body)` for a note. */
  datatype Payload = TaskReminder(taskId: Option<int>) | NoteReminder(title: string, body: string)

  datatype Job = Job(trigger: Trigger, payload: Payload)

  /** `CronTrigger.from_crontab`: a schedule, or `None` where it raises `ValueError`. */
  type Crontab = string -> Option<CronSpec>

  /** `datetime.fromisoformat`: a time, or `None` where it raises `ValueError`. */
  type IsoParser = string -> Option<Time>

  /** `_parse_recurrence`: strip and lower-case, then a preset, else the crontab parse (never an error). */
  function ParseRecurrence(recurrence: string, crontab: Crontab): Option<CronSpec> {
    var r := Lower(Strip(recurrence));
    if r == "daily" then Some(Daily)
    else if r == "weekly" then Some(Weekly)
    else if r == "weekdays" then Some(Weekdays)
    else crontab(r)
  }

  /** The one-shot fire time: the due date, moved earlier by the offset when the offset is neither `None` nor `0`. */
  function FireTime(t: Task): Option<Time> {
    match t.dueDate
    case None => None
    case Some(due) =>
      if t.reminderOffset.Some? && t.reminderOffset.value != 0 then Some(due - t.reminderOffset.value * MINUTE)
      else Some(due)
  }

  /** What `sync_task` schedules after cancelling: nothing, a one-shot job, or a recurring job. */
  datatype Decision = NoJob | Once(runAt: Time) | Recurring(spec: CronSpec)

  /** The trigger decision of `sync_task`: a completed task gets nothing; a fire time strictly after `now`
      wins; otherwise a non-empty recurrence that parses; otherwise nothing. */
  function Resolve(t: Task, now: Time, crontab: Crontab): Decision {
    if t.completed then NoJob
    else if FireTime(t).Some? && FireTime(t).value > now then Once(FireTime(t).value)
    else if t.recurrence.Some? && t.recurrence.value != "" then
      match ParseRecurrence(t.recurrence.value, crontab)
      case None => NoJob
      case Some(spec) => Recurring(spec)
    else NoJob
  }

  /** The two keys `cancel_task` removes. */
  function TaskKeys(id: Option<int>): set<JobKey> {
    {TaskOnce(id), TaskRecurring(id)}
  }

  /** The registry after `cancel_task(id)`. */
  function Cancelled(jobs: map<JobKey, Job>, id: Option<int>): map<JobKey, Job> {
    jobs - TaskKeys(id)
  }

  /** The registry after `sync_task(t)`. */
  function Synced(jobs: map<JobKey, Job>, t: Task, now: Time, crontab: Crontab): map<JobKey, Job> {
    var rest := Cancelled(jobs, t.id);
    match Resolve(t, now, crontab)
    case NoJob => rest
    case Once(at) => rest[TaskOnce(t.id) := Job(At(at), TaskReminder(t.id))]
    case Recurring(spec) => rest[TaskRecurring(t.id) := Job(Cron(spec), TaskReminder(t.id))]
  }

  /** The arguments `schedule_note_ping` gives `_notify`. */
  function NotePingJob(note: Note, at: Time): Job {
    Job(At(at), NoteReminder("Reminder from note '" + note.title + "'", note.content))
  }

  /** The registry after `schedule_note_ping(note)`. */
  function Pinged(jobs: map<JobKey, Job>, note: Note, now: Time, iso: IsoParser): map<JobKey, Job> {
    match TimeParse.ParseWhen(note.content, now, iso)
    case None => jobs
    case Some(at) => jobs[NoteAt(note.id, at) := NotePingJob(note, at)]
  }

  /** The task table after `_notify_task(id)`. */
  function Notified(tasks: map<int, Task>, id: int, now: Time): map<int, Task> {
    if id in tasks then tasks[id := tasks[id].(lastRemindedAt := Some(now))] else tasks
  }

  /** The APScheduler instance: its job store, keyed by job id. */
  class Registry {
    var jobs: map<JobKey, Job>

    constructor ()
      ensures jobs == map[]
    {
      jobs := map[];
    }

    /** `add_job(..., id=key, replace_existing=True)`: adds the job, or replaces the one under `key`. */
    method AddJob(key: JobKey, job: Job)
      modifies this
      ensures jobs == old(jobs)[key := job]
    {
      jobs := jobs[key := job];
    }

    /** `remove_job(key)`; where APScheduler raises `JobLookupError`, `found` is false and nothing changes. */
    method RemoveJob(key: JobKey) returns (found: bool)
      modifies this
      ensures found == (key in old(jobs))
      ensures jobs == old(jobs) - {key}
    {
      found := key in jobs;
      jobs := jobs - {key};
    }
  }

  /** One (entity-level) notification: its title and body, as `_notify` prints them. */
  datatype Notification = Notification(title: string, body: string)

  class SchedulerService {
    const scheduler: Registry
    /** The notifications `_notify` has emitted, in order; printing and logging are not modelled. */
    ghost var sent: seq<Notification>

    constructor (scheduler: Registry)
      ensures this.scheduler == scheduler && sent == []
    {
      this.scheduler := scheduler;
      sent := [];
    }

    /** `cancel_task`: removes `task-{id}-once` and `task-{id}-recurring`; an absent key is skipped. */
    method CancelTask(id: Option<int>)
      modifies scheduler
      ensures scheduler.jobs == Cancelled(old(scheduler.jobs), id)
    {
      var keys := [TaskOnce(id), TaskRecurring(id)];
      for i := 0 to |keys|
        invariant scheduler.jobs == old(scheduler.jobs) - (set k | k in keys[..i])
      {
        var _ := scheduler.RemoveJob(keys[i]);
        assert keys[..i + 1] == keys[..i] + [keys[i]];
      }
      assert keys[..2] == keys;
      assert (set k | k in keys) == TaskKeys(id);
    }

    /** `sync_task`: cancel both task keys, then schedule what `Resolve` decides. */
    method SyncTask(t: Task, now: Time, crontab: Crontab)
      modifies scheduler
      ensures scheduler.jobs == Synced(old(scheduler.jobs), t, now, crontab)
    {
      CancelTask(t.id);
      if t.completed {
        return;
      }
      var nextRun: Option<Time> := None;
      if t.dueDate.Some? {
        var runTime := t.dueDate.value;
        if t.reminderOffset.Some? && t.reminderOffset.value != 0 {
          runTime := runTime - t.reminderOffset.value * MINUTE;
        }
        if runTime > now {
          nextRun := Some(runTime);
        }
      }
      assert nextRun == if FireTime(t).Some? && FireTime(t).value > now then FireTime(t) else None;
      if nextRun.None? && t.recurrence.Some? && t.recurrence.value != "" {
        var trigger := ParseRecurrence(t.recurrence.value, crontab);
        assert Resolve(t, now, crontab) == if trigger.Some? then Recurring(trigger.value) else NoJob;
        if trigger.Some? {
          scheduler.AddJob(TaskRecurring(t.id), Job(Cron(trigger.value), TaskReminder(t.id)));
        }
        return;
      }
      assert Resolve(t, now, crontab) == if nextRun.Some? then Once(nextRun.value) else NoJob;
      if nextRun.Some? {
        scheduler.AddJob(TaskOnce(t.id), Job(At(nextRun.value), TaskReminder(t.id)));
      }
    }

    /** `schedule_note_ping`: a one-shot ping at the time the note's content names, if it names one. */
    method ScheduleNotePing(note: Note, now: Time, iso: IsoParser)
      modifies scheduler
      ensures scheduler.jobs == Pinged(old(scheduler.jobs), note, now, iso)
    {
      var runAt := TimeParse.ParseWhen(note.content, now, iso);
      if runAt.None? {
        return;
      }
      scheduler.AddJob(NoteAt(note.id, runAt.value), NotePingJob(note, runAt.value));
    }

    /** `_notify_task`: re-reads the task; a missing task changes nothing, otherwise it is notified and
        `last_reminded_at` becomes `now`. */
    method NotifyTask(db: Database, taskId: int, now: Time)
      requires db.Valid()
      modifies db, this
      ensures db.tasks == Notified(old(db.tasks), taskId, now)
      ensures db.notes == old(db.notes) && db.Valid()
      ensures sent == if taskId in old(db.tasks)
                      then old(sent) + [TaskNotification(old(db.tasks)[taskId])]
                      else old(sent)
    {
      if taskId !in db.tasks {
        return;
      }
      var task := db.tasks[taskId];
      sent := sent + [TaskNotification(task)];
      db.tasks := db.tasks[taskId := task.(lastRemindedAt := Some(now))];
    }
  }

  /** `_notify(f"Task reminder: {task.title}", task.description or "")`. */
  function TaskNotification(t: Task): Notification {
    Notification("Task reminder: " + t.title,
                 if t.description.Some? then t.description.value else "")
  }

  // ---------------------------------------------------------------------------------------------
  // Recurrence resolution.

  /** Surrounding whitespace and letter case do not matter to `_parse_recurrence`. */
  lemma RecurrenceNormalized(recurrence: string, crontab: Crontab)
    ensures ParseRecurrence(Lower(recurrence), crontab) == ParseRecurrence(recurrence, crontab)
    ensures ParseRecurrence(Strip(recurrence), crontab) == ParseRecurrence(recurrence, crontab)
  {
    StripLowerCommute(recurrence);
    LowerIdempotent(Strip(recurrence));
    StripIdempotent(recurrence);
  }

  /** `daily`, in any letter case and with any surrounding whitespace, fires every day at 09:00. */
  lemma DailyPreset(before: string, word: string, after: string, crontab: Crontab)
    requires AllSpace(before) && AllSpace(after) && Lower(word) == "daily"
    ensures ParseRecurrence(before + word + after, crontab) == Some(Daily)
    ensures Daily.minute == "0" && Daily.hour == "9" && Daily.dayOfWeek == "*"
  {
    assert LowerChar(word[0]) == Lower(word)[0] == 'd' && LowerChar(word[4]) == Lower(word)[4] == 'y';
    StripPadded(before, word, after);
  }

  /** `weekly`, in any letter case and with any surrounding whitespace, fires every Monday at 09:00. */
  lemma WeeklyPreset(before: string, word: string, after: string, crontab: Crontab)
    requires AllSpace(before) && AllSpace(after) && Lower(word) == "weekly"
    ensures ParseRecurrence(before + word + after, crontab) == Some(Weekly)
    ensures Weekly.minute == "0" && Weekly.hour == "9" && Weekly.dayOfWeek == "mon"
  {
    assert LowerChar(word[0]) == Lower(word)[0] == 'w' && LowerChar(word[5]) == Lower(word)[5] == 'y';
    StripPadded(before, word, after);
  }

  /** `weekdays` fires Monday to Friday at 09:00. */
  lemma WeekdaysPreset(crontab: Crontab)
    ensures ParseRecurrence("weekdays", crontab) == Some(Weekdays)
    ensures Weekdays.minute == "0" && Weekdays.hour == "9" && Weekdays.dayOfWeek == "mon-fri"
  {
    TrimLeftIdle("weekdays");
    TrimRightIdle("weekdays");
    assert Lower("weekdays") == "weekdays";
  }

  /** Any other text goes to the crontab parser, normalized; a parse error yields no schedule. */
  lemma RecurrenceFallsBack(recurrence: string, crontab: Crontab)
    requires Lower(Strip(recurrence)) !in {"daily", "weekly", "weekdays"}
    ensures ParseRecurrence(recurrence, crontab) == crontab(Lower(Strip(recurrence)))
  {
  }

  // ---------------------------------------------------------------------------------------------
  // Cancelling.

  /** `cancel_task` removes exactly the two task keys; every other job stays as it was. */
  lemma CancelRemovesExactlyTaskKeys(jobs: map<JobKey, Job>, id: Option<int>, k: JobKey)
    ensures k in Cancelled(jobs, id) <==> k in jobs && k != TaskOnce(id) && k != TaskRecurring(id)
    ensures k in Cancelled(jobs, id) ==> Cancelled(jobs, id)[k] == jobs[k]
  {
  }

  /** Cancelling again changes nothing, and absent keys are no trouble. */
  lemma CancelIdempotent(jobs: map<JobKey, Job>, id: Option<int>)
    ensures Cancelled(Cancelled(jobs, id), id) == Cancelled(jobs, id)
    ensures TaskOnce(id) !in jobs && TaskRecurring(id) !in jobs ==> Cancelled(jobs, id) == jobs
  {
  }

  // ---------------------------------------------------------------------------------------------
  // Syncing a task.

  /** The one-shot fire time is the due date minus the offset in minutes; `None` or `0` fires at the due date. */
  lemma FireTimeIsDueMinusOffset(t: Task)
    requires t.dueDate.Some?
    ensures t.reminderOffset == None || t.reminderOffset == Some(0) ==> FireTime(t) == t.dueDate
    ensures t.reminderOffset.Some? ==> FireTime(t) == Some(t.dueDate.value - t.reminderOffset.value * MINUTE)
  {
  }

  /** `sync_task` touches no job but the task's own two keys: other tasks' jobs and note pings stay. */
  lemma SyncKeepsOtherJobs(jobs: map<JobKey, Job>, t: Task, now: Time, crontab: Crontab)
    ensures Synced(jobs, t, now, crontab) - TaskKeys(t.id) == jobs - TaskKeys(t.id)
  {
    var r := Synced(jobs, t, now, crontab);
    assert forall k :: k in r - TaskKeys(t.id) <==> k in jobs - TaskKeys(t.id);
  }

  /** A completed task has no job under either of its keys after `sync_task`. */
  lemma SyncCompletedHasNoJob(jobs: map<JobKey, Job>, t: Task, now: Time, crontab: Crontab)
    requires t.completed
    ensures TaskOnce(t.id) !in Synced(jobs, t, now, crontab)
    ensures TaskRecurring(t.id) !in Synced(jobs, t, now, crontab)
  {
  }

  /** A fire time strictly after `now` is scheduled as the one-shot job, and the recurrence is ignored. */
  lemma SyncFutureFireTime(jobs: map<JobKey, Job>, t: Task, now: Time, crontab: Crontab)
    requires !t.completed && FireTime(t).Some? && FireTime(t).value > now
    ensures var r := Synced(jobs, t, now, crontab);
            TaskOnce(t.id) in r && r[TaskOnce(t.id)] == Job(At(FireTime(t).value), TaskReminder(t.id)) &&
            TaskRecurring(t.id) !in r
  {
  }

  /** Without a future fire time, a non-empty recurrence that parses gives the recurring job and no
      one-shot job; offsets play no part in it. */
  lemma SyncFallsBackToRecurrence(jobs: map<JobKey, Job>, t: Task, now: Time, crontab: Crontab, spec: CronSpec)
    requires !t.completed && (FireTime(t).None? || FireTime(t).value <= now)
    requires t.recurrence.Some? && t.recurrence.value != ""
    requires ParseRecurrence(t.recurrence.value, crontab) == Some(spec)
    ensures var r := Synced(jobs, t, now, crontab);
            TaskRecurring(t.id) in r && r[TaskRecurring(t.id)] == Job(Cron(spec), TaskReminder(t.id)) &&
            TaskOnce(t.id) !in r
  {
  }

  /** A fire time at or before `now` with no usable recurrence (none, empty, or one the crontab parser
      rejects) leaves the task with no job. */
  lemma SyncNothingToSchedule(jobs: map<JobKey, Job>, t: Task, now: Time, crontab: Crontab)
    requires FireTime(t).None? || FireTime(t).value <= now
    requires t.recurrence.None? || t.recurrence.value == "" || ParseRecurrence(t.recurrence.value, crontab).None?
    ensures Synced(jobs, t, now, crontab) == Cancelled(jobs, t.id)
  {
  }

  /** A task never has both a one-shot and a recurring job after `sync_task`. */
  lemma SyncAtMostOneJob(jobs: map<JobKey, Job>, t: Task, now: Time, crontab: Crontab)
    ensures !(TaskOnce(t.id) in Synced(jobs, t, now, crontab) && TaskRecurring(t.id) in Synced(jobs, t, now, crontab))
  {
  }

  /** Syncing the same task twice with the same `now` gives the same registry as syncing it once. */
  lemma SyncIdempotent(jobs: map<JobKey, Job>, t: Task, now: Time, crontab: Crontab)
    ensures Synced(Synced(jobs, t, now, crontab), t, now, crontab) == Synced(jobs, t, now, crontab)
  {
    var once := Synced(jobs, t, now, crontab);
    assert Cancelled(once, t.id) == Cancelled(jobs, t.id);
  }

  /** Worked example: due ten minutes ahead with a five-minute offset fires five minutes ahead. */
  lemma OffsetExample(jobs: map<JobKey, Job>, t: Task, now: Time, crontab: Crontab)
    requires !t.completed && t.dueDate == Some(now + 10 * MINUTE) && t.reminderOffset == Some(5)
    ensures var r := Synced(jobs, t, now, crontab);
            TaskOnce(t.id) in r && r[TaskOnce(t.id)].trigger == At(now + 5 * MINUTE)
  {
  }

  /** Worked example: a past due date with the recurrence `daily` gives exactly the daily 09:00 job. */
  lemma PastDueDailyExample(jobs: map<JobKey, Job>, t: Task, now: Time, crontab: Crontab)
    requires !t.completed && t.dueDate == Some(now - DAY) && t.reminderOffset == None
    requires t.recurrence == Some("daily")
    ensures var r := Synced(jobs, t, now, crontab);
            TaskOnce(t.id) !in r && TaskRecurring(t.id) in r && r[TaskRecurring(t.id)].trigger == Cron(Daily)
  {
    TrimLeftIdle("daily");
    TrimRightIdle("daily");
    assert Lower("daily") == "daily";
  }

  // ---------------------------------------------------------------------------------------------
  // Note pings.

  /** A note whose content names no time adds no job. */
  lemma PingWithoutTimeAddsNothing(jobs: map<JobKey, Job>, note: Note, now: Time, iso: IsoParser)
    requires TimeParse.ParseWhen(note.content, now, iso).None?
    ensures Pinged(jobs, note, now, iso) == jobs
  {
  }

  /** A note ping adds or replaces only the job keyed by the note and the time its content names; every
      other job, including pings of the same note at other times, stays as it was. */
  lemma PingAddsOneKey(jobs: map<JobKey, Job>, note: Note, now: Time, iso: IsoParser)
    ensures var r := Pinged(jobs, note, now, iso);
            var at := TimeParse.ParseWhen(note.content, now, iso);
            forall k :: k in r && k !in jobs ==> at.Some? && k == NoteAt(note.id, at.value)
    ensures var r := Pinged(jobs, note, now, iso);
            var at := TimeParse.ParseWhen(note.content, now, iso);
            forall k :: k in jobs && (at.None? || k != NoteAt(note.id, at.value)) ==> k in r && r[k] == jobs[k]
  {
  }

  /** Two pings for one note at different times coexist; at the same time the later one replaces the earlier. */
  lemma PingsForOneNote(jobs: map<JobKey, Job>, n1: Note, n2: Note, now1: Time, now2: Time, iso: IsoParser, at1: Time, at2: Time)
    requires n1.id == n2.id
    requires TimeParse.ParseWhen(n1.content, now1, iso) == Some(at1)
    requires TimeParse.ParseWhen(n2.content, now2, iso) == Some(at2)
    ensures var r := Pinged(Pinged(jobs, n1, now1, iso), n2, now2, iso);
            NoteAt(n2.id, at2) in r && r[NoteAt(n2.id, at2)] == NotePingJob(n2, at2) &&
            (at1 != at2 ==> NoteAt(n1.id, at1) in r && r[NoteAt(n1.id, at1)] == NotePingJob(n1, at1))
  {
  }

  // ---------------------------------------------------------------------------------------------
  // The dispatcher.

  /** `_notify_task` changes no record for a missing task; for an existing one it changes nothing but
      `last_reminded_at`, which becomes `now`. In particular it never writes `completed`. */
  lemma NotifyOnlyStampsLastReminded(tasks: map<int, Task>, id: int, now: Time)
    ensures var r := Notified(tasks, id, now);
            r.Keys == tasks.Keys &&
            (id !in tasks ==> r == tasks) &&
            (forall k :: k in tasks && k != id ==> r[k] == tasks[k]) &&
            (id in tasks ==> r[id].lastRemindedAt == Some(now) &&
                             r[id].(lastRemindedAt := tasks[id].lastRemindedAt) == tasks[id] &&
                             r[id].completed == tasks[id].completed)
  {
  }

  // ---------------------------------------------------------------------------------------------
  // The invariant the callers keep.

  /** A completed task has no live job, and every task job belongs to a stored task (no orphans). */
  predicate Consistent(tasks: map<int, Task>, jobs: map<JobKey, Job>) {
    (forall k :: k in tasks && tasks[k].completed ==> TaskOnce(Some(k)) !in jobs && TaskRecurring(Some(k)) !in jobs) &&
    (forall key :: key in jobs && !key.NoteAt? ==> key.taskId.Some? && key.taskId.value in tasks)
  }

  /** Storing a task under its id and syncing it keeps the invariant. */
  lemma SyncKeepsConsistent(tasks: map<int, Task>, jobs: map<JobKey, Job>, k: int, t: Task, now: Time, crontab: Crontab)
    requires Consistent(tasks, jobs) && t.id == Some(k)
    ensures Consistent(tasks[k := t], Synced(jobs, t, now, crontab))
  {
    var r := Synced(jobs, t, now, crontab);
    var ts := tasks[k := t];
    forall key | key in r && !key.NoteAt?
      ensures key.taskId.Some? && key.taskId.value in ts
    {
      if key !in TaskKeys(t.id) {
        assert key in jobs;
      }
    }
    forall j | j in ts && ts[j].completed
      ensures TaskOnce(Some(j)) !in r && TaskRecurring(Some(j)) !in r
    {
      if j == k {
        SyncCompletedHasNoJob(jobs, t, now, crontab);
      } else {
        assert TaskOnce(Some(j)) !in TaskKeys(t.id) && TaskRecurring(Some(j)) !in TaskKeys(t.id);
      }
    }
  }

  /** Replacing a task by a completed one and cancelling its keys keeps the invariant. */
  lemma CompleteKeepsConsistent(tasks: map<int, Task>, jobs: map<JobKey, Job>, k: int, t: Task)
    requires Consistent(tasks, jobs) && t.completed
    ensures Consistent(tasks[k := t], Cancelled(jobs, Some(k)))
  {
    var r := Cancelled(jobs, Some(k));
    forall key | key in r && !key.NoteAt?
      ensures key.taskId.Some? && key.taskId.value in tasks[k := t]
    {
      assert key in jobs;
    }
  }

  /** Removing a task and cancelling its keys keeps the invariant: no job is left behind. */
  lemma DeleteKeepsConsistent(tasks: map<int, Task>, jobs: map<JobKey, Job>, k: int)
    requires Consistent(tasks, jobs)
    ensures Consistent(tasks - {k}, Cancelled(jobs, Some(k)))
  {
    var r := Cancelled(jobs, Some(k));
    forall key | key in r && !key.NoteAt?
      ensures key.taskId.Some? && key.taskId.value in tasks - {k}
    {
      assert key in jobs;
      assert key != TaskOnce(Some(k)) && key != TaskRecurring(Some(k));
    }
  }

  /** Storing a new task without any scheduler call keeps the invariant: no job names the new id yet. */
  lemma InsertKeepsConsistent(tasks: map<int, Task>, jobs: map<JobKey, Job>, k: int, t: Task)
    requires Consistent(tasks, jobs) && k !in tasks
    ensures Consistent(tasks[k := t], jobs)
  {
    forall j | j in tasks[k := t] && tasks[k := t][j].completed
      ensures TaskOnce(Some(j)) !in jobs && TaskRecurring(Some(j)) !in jobs
    {
      if j == k {
        assert TaskOnce(Some(k)) !in jobs;
        assert TaskRecurring(Some(k)) !in jobs;
      }
    }
  }

  /** Note pings add note keys only, so they keep the invariant. */
  lemma PingKeepsConsistent(tasks: map<int, Task>, jobs: map<JobKey, Job>, note: Note, now: Time, iso: IsoParser)
    requires Consistent(tasks, jobs)
    ensures Consistent(tasks, Pinged(jobs, note, now, iso))
  {
    var r := Pinged(jobs, note, now, iso);
    forall key | key in r && !key.NoteAt?
      ensures key.taskId.Some? && key.taskId.value in tasks
    {
      assert key in jobs;
    }
  }

  /** The dispatcher never completes a task, so it keeps the invariant. */
  lemma NotifyKeepsConsistent(tasks: map<int, Task>, jobs: map<JobKey, Job>, id: int, now: Time)
    requires Consistent(tasks, jobs)
    ensures Consistent(Notified(tasks, id, now), jobs)
  {
  }
}
