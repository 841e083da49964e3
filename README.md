# Reminder scheduling of the personal assistant, in Dafny

This project models the reminder-scheduling core of a small personal-assistant service. The service
is a FastAPI app over SQLite, with an APScheduler job store and a command-line quick-capture tool.
The model covers:

- **The scheduler service** (`scheduler.dfy`).
  - The APScheduler instance is the class `Registry`: a map from job key to job.
  - `SchedulerService` holds that registry. Its methods `CancelTask`, `SyncTask`, `ScheduleNotePing`
    and `NotifyTask` change it, or the database, in place.
  - Each method is proved equal to a function of the old state: `Cancelled`, `Synced`, `Pinged`,
    `Notified`. Lemmas state what those functions guarantee.
  - `ParseRecurrence` maps the presets `daily`, `weekly` and `weekdays` to cron schedules, and any
    other text to the crontab parser.
- **Job keys** (`jobkeys.dfy`). The keys are the strings `task-{id}-once`, `task-{id}-recurring` and
  `note-{id}-{timestamp}`, as a datatype. A parser inverts the rendering, so distinct keys are
  distinct strings.
- **The time-expression parser** (`timeparse.dfy`). `ParseWhen` strips the text, gives an ISO-8601
  timestamp precedence, and otherwise takes the leftmost `in N minute(s)|hour(s)|day(s)`,
  ignoring case.
- **The task and note handlers** (`tasks.dfy`, `notes.dfy`).
  - They work over the class `Database` (`store.dfy`), which holds the two tables as maps, together
    with the scheduler service. Its invariant `Valid` says that each row carries its own key, and
    that a task's `priority` and `reminder_offset` fit SQLite's 64-bit `INTEGER`.
  - Every handler keeps the invariant `Scheduler.Consistent`: a completed task has no job, and
    every task job belongs to a stored task.
  - The partial update is the `setattr` loop of the source. It is proved field by field against
    the merge it performs.
- **The daily briefing** (`briefing.dfy`). It is pure:
  - three half-open due-date buckets;
  - the upcoming tasks in due order;
  - the five newest notes;
  - the five most urgent tasks, by a stable sort on priority.
- **The records and their defaults** (`models.dfy`), and **the CLI's `_parse_due` and `task`
  command** (`cli.dfy`).

Time is an integer count of seconds since the epoch, in UTC (`Common.MINUTE`, `HOUR`, `DAY`).
Three things the code calls are parameters:

- `datetime.utcnow()` is `now`.
- `datetime.fromisoformat` is `iso: string -> Option<Time>`.
- `CronTrigger.from_crontab` is `crontab: string -> Option<CronSpec>`. `None` stands where it
  raises `ValueError`.

The row id that SQLite assigns to a new record is the parameter `rowId`, required to be unused.

## Model

| member | source | states |
|---|---|---|
| Models.DefaultTaskCreate | assistant/app/models.py:23-35 | a task given only a title is not completed, has no `last_reminded_at`, and has no description, due date, priority, recurrence or offset |
| Models.NoteFromCreate | assistant/app/models.py:9-16 | the unsaved note has the request's title, content and creation time, and its id is `None` until persisted |
| Models.TaskFromCreate | assistant/app/models.py:23-39 | the unsaved task carries every field of the request, and its id is `None` until persisted |
| Models.Eta | assistant/app/models.py:57-64 | `now + eta == run_at`; the eta is positive exactly when `run_at` is after `now`, and zero exactly when equal |
| JobKeys.KeyString | assistant/app/services/scheduler.py:37 | the job id strings of the three f-strings (also lines 56, 67 and 79); `KeyRoundTrip` and `KeyStringInjective` state that they parse back and never collide |
| JobKeys.OnceKeyRoundTrip | assistant/app/services/scheduler.py:67 | the string `task-{id}-once` parses back to the one-shot key of that id, `None` included |
| JobKeys.RecurringKeyRoundTrip | assistant/app/services/scheduler.py:56 | the string `task-{id}-recurring` parses back to the recurring key of that id |
| JobKeys.NoteKeyRoundTrip | assistant/app/services/scheduler.py:37 | the string `note-{id}-{timestamp}` parses back to the note key of that id and fire time |
| JobKeys.KeyRoundTrip | assistant/app/services/scheduler.py:29-83 | every key's string parses back to the key |
| JobKeys.KeyStringInjective | assistant/app/services/scheduler.py:77-83 | distinct keys have distinct strings, so cancelling a task's keys cannot remove another task's or a note's job |
| JobKeys.OnceKeyExample | assistant/app/services/scheduler.py:79 | the one-shot key of task 42 is the string `task-42-once` |
| Scheduler.Registry.AddJob | assistant/app/services/scheduler.py:68-74 | `add_job(..., replace_existing=True)` adds the job or replaces the one under its key; nothing else changes |
| Scheduler.Registry.RemoveJob | assistant/app/services/scheduler.py:80-83 | `remove_job` removes the key; where the source's call raises, the key was absent and the registry is unchanged |
| Scheduler.SchedulerService.CancelTask | assistant/app/services/scheduler.py:77-83 | the loop over the two suffixes leaves the registry without `task-{id}-once` and `task-{id}-recurring` and otherwise unchanged |
| Scheduler.SchedulerService.SyncTask | assistant/app/services/scheduler.py:42-75 | the registry after the branches of `sync_task` is `Synced(old registry, task, now)` |
| Scheduler.SchedulerService.ScheduleNotePing | assistant/app/services/scheduler.py:29-39 | the registry after `schedule_note_ping` is `Pinged(old registry, note, now)` |
| Scheduler.SchedulerService.NotifyTask | assistant/app/services/scheduler.py:85-94 | the task table becomes `Notified(old table, id, now)`; one notification `Task reminder: {title}` with the description, or `""`, is emitted exactly when the task exists |
| Scheduler.ParseRecurrence | assistant/app/services/scheduler.py:100-113 | `_parse_recurrence`: its contract is stated by `RecurrenceNormalized`, `DailyPreset`, `WeeklyPreset`, `WeekdaysPreset` and `RecurrenceFallsBack` |
| Scheduler.RecurrenceNormalized | assistant/app/services/scheduler.py:100-101 | surrounding whitespace and letter case do not change the parsed recurrence |
| Scheduler.DailyPreset | assistant/app/services/scheduler.py:100-108 | `daily` in any letter case, with any whitespace around it, is the preset schedule: minute 0, hour 9, every day of the week |
| Scheduler.WeeklyPreset | assistant/app/services/scheduler.py:100-104 | `weekly` in any letter case, with any whitespace around it, is the schedule 09:00 on Mondays |
| Scheduler.WeekdaysPreset | assistant/app/services/scheduler.py:105 | `weekdays` is the schedule 09:00 Monday to Friday |
| Scheduler.RecurrenceFallsBack | assistant/app/services/scheduler.py:109-113 | any other text goes, stripped and lower-cased, to the crontab parser; a parse error gives no schedule and no error |
| Scheduler.CancelRemovesExactlyTaskKeys | assistant/app/services/scheduler.py:77-83 | after cancelling, a key is present iff it was present and is not one of the task's two keys, with its job unchanged |
| Scheduler.CancelIdempotent | assistant/app/services/scheduler.py:80-83 | cancelling twice equals cancelling once; cancelling absent keys changes nothing |
| Scheduler.FireTimeIsDueMinusOffset | assistant/app/services/scheduler.py:47-50 | the one-shot time is the due date minus the offset in minutes; a `None` or `0` offset fires at the due date |
| Scheduler.SyncKeepsOtherJobs | assistant/app/services/scheduler.py:43 | outside the task's two keys, the registry after `sync_task` equals the registry before: other tasks' jobs and note pings stay |
| Scheduler.SyncCompletedHasNoJob | assistant/app/services/scheduler.py:43-45 | a completed task has no job under either key after `sync_task` |
| Scheduler.SyncFutureFireTime | assistant/app/services/scheduler.py:46-75 | a fire time strictly after `now` gives exactly the one-shot job at that time and no recurring job |
| Scheduler.SyncFallsBackToRecurrence | assistant/app/services/scheduler.py:53-65 | with no future fire time, a non-empty recurrence that parses gives the recurring job with that schedule and no one-shot job |
| Scheduler.SyncNothingToSchedule | assistant/app/services/scheduler.py:46-66 | with no future fire time and no usable recurrence, `sync_task` only cancels |
| Scheduler.SyncAtMostOneJob | assistant/app/services/scheduler.py:53-74 | a task never has both a one-shot and a recurring job after `sync_task` |
| Scheduler.SyncIdempotent | assistant/app/services/scheduler.py:42-75 | syncing the same task twice with the same `now` gives the registry of one sync |
| Scheduler.OffsetExample | assistant/app/services/scheduler.py:49-52 | due in 10 minutes with a 5-minute offset gives a one-shot job 5 minutes ahead |
| Scheduler.PastDueDailyExample | assistant/app/services/scheduler.py:51-65 | a past due date with recurrence `daily` gives the daily 09:00 job and no one-shot job |
| Scheduler.PingWithoutTimeAddsNothing | assistant/app/services/scheduler.py:30-32 | content naming no time leaves the registry unchanged |
| Scheduler.PingAddsOneKey | assistant/app/services/scheduler.py:30-38 | the only key a ping can add or replace is `note-{id}-{t}` for the time `t` that `parse_when` gives; every other job, this note's pings at other times included, is unchanged |
| Scheduler.PingsForOneNote | assistant/app/services/scheduler.py:37-38 | two pings of one note at different times coexist; at the same time the later replaces the earlier |
| Scheduler.NotifyOnlyStampsLastReminded | assistant/app/services/scheduler.py:86-94 | for a missing task no record changes; otherwise only that task's `last_reminded_at` changes, to `now`, and `completed` is never written |
| Scheduler.SyncKeepsConsistent | assistant/app/services/scheduler.py:42-75 | storing a task and syncing it keeps the invariant (no job for a completed task, no orphan task job) |
| Scheduler.CompleteKeepsConsistent | assistant/app/routers/tasks.py:73-78 | storing a completed task and cancelling its keys keeps the invariant |
| Scheduler.DeleteKeepsConsistent | assistant/app/routers/tasks.py:91-93 | removing a task and cancelling its keys keeps the invariant |
| Scheduler.InsertKeepsConsistent | assistant/app/cli.py:53-64 | storing a new task without any scheduler call keeps the invariant |
| Scheduler.PingKeepsConsistent | assistant/app/services/scheduler.py:29-39 | a note ping keeps the invariant |
| Scheduler.NotifyKeepsConsistent | assistant/app/services/scheduler.py:85-94 | the dispatcher keeps the invariant |
| TimeParse.UnitSeconds | assistant/app/utils/timeparse.py:27-32 | a minute is 60 seconds, an hour 60 minutes, a day 1440 minutes |
| TimeParse.Shift | assistant/app/utils/timeparse.py:33 | `now + N units` is never before `now` |
| TimeParse.ParseWhen | assistant/app/utils/timeparse.py:11-35 | `parse_when` with the intended pattern: its contract is stated by `BlankGivesNone`, `IsoTakesPrecedence`, `LeftmostMatchWins`, `NoMatchGivesNone`, `RelativeNotEarlier`, `RelativePhraseParse` and `RelativeIgnoresCase` |
| TimeParse.BlankGivesNone | assistant/app/utils/timeparse.py:13-15 | empty or whitespace-only text gives no time |
| TimeParse.IsoTakesPrecedence | assistant/app/utils/timeparse.py:17-20 | a stripped text that is an ISO timestamp gives that timestamp, whatever the relative pattern would say |
| TimeParse.LeftmostMatchWins | assistant/app/utils/timeparse.py:22-33 | without an ISO timestamp, the leftmost match `in N unit` gives `now + N units`; later expressions are ignored |
| TimeParse.NoMatchGivesNone | assistant/app/utils/timeparse.py:22-35 | text with neither an ISO timestamp nor a match gives no time |
| TimeParse.RelativeNotEarlier | assistant/app/utils/timeparse.py:24-33 | a relative result is never earlier than `now` |
| TimeParse.RelativePhrase | assistant/app/utils/timeparse.py:8 | every phrase `in`, one or more whitespace characters, the decimal count `n`, optional whitespace, `minute`/`hour`/`day` with or without a plural `s`, matches at its start with count `n` and that unit |
| TimeParse.RelativePhraseParse | assistant/app/utils/timeparse.py:11-33 | such a phrase, when it is not an ISO timestamp, gives `now` plus `n` units |
| TimeParse.RelativeIgnoresCase | assistant/app/utils/timeparse.py:8 | lower-casing the text does not change the relative result |
| TimeParse.ThirtyMinutesExample | assistant/app/utils/timeparse.py:11-35 | `in 30 minutes meet Sam` gives `now` plus 30 minutes |
| TimeParse.ParseWhenAsWritten | assistant/app/utils/timeparse.py:8-35 | `parse_when` with the pattern as written: its contract is stated by `AsWrittenIgnoresRelative` and `FiveMinutesAsWritten` |
| TimeParse.AsWrittenIgnoresRelative | assistant/app/utils/timeparse.py:8 | with the pattern as written, text without a backslash never gives a relative time |
| TimeParse.FiveMinutesAsWritten | assistant/app/utils/timeparse.py:8-33 | on `in 5 minutes`, the pattern as written gives no time, the intended one `now` plus 5 minutes |
| TasksRouter.ListTasks | assistant/app/routers/tasks.py:20-22 | the listing holds every stored task unchanged, minus the completed ones unless `include_completed` |
| TasksRouter.CreateTask | assistant/app/routers/tasks.py:27-38 | a priority or reminder offset outside the 64-bit `INTEGER` range fails the commit with no change and no sync; otherwise the task is stored under its new id, then synced; the invariant is kept |
| TasksRouter.AssignmentsMerge | assistant/app/routers/tasks.py:52-54 | applying the payload's assignments in order gives the field-wise merge |
| TasksRouter.MergeUpdate | assistant/app/routers/tasks.py:52-54 | exactly the fields the payload sets are overwritten (an explicit `null` clears one); every other field, id and creation time included, is unchanged |
| TasksRouter.UpdateTask | assistant/app/routers/tasks.py:41-61 | an unknown id gives 404 with no change; a `null` title or completion flag, or an integer outside the 64-bit range, fails the commit with no change and no sync; otherwise the merged task, stamped with `now` when completed, is stored and synced; the invariant is kept |
| TasksRouter.UpdateKeepsStorable | assistant/app/routers/tasks.py:52-58 | an accepted update keeps a stored task's `priority` and `reminder_offset` within the 64-bit column range |
| TasksRouter.IntegerColumnBounds | assistant/app/models.py:27-29 | the largest 64-bit priority is stored and the next integer is rejected; the same at the bottom of the range for an updated offset |
| TasksRouter.UpdateToCompleted | assistant/app/routers/tasks.py:55-60 | an update whose result is completed stamps `now` over any supplied value, and the following sync leaves the task no job |
| TasksRouter.EmptyUpdateKeepsTask | assistant/app/models.py:46-54 | the empty update is valid and leaves an uncompleted task as it was |
| TasksRouter.CompleteTask | assistant/app/routers/tasks.py:64-79 | an unknown id gives 404 with no change; otherwise `completed` and `last_reminded_at := now` are stored and both keys cancelled |
| TasksRouter.CompleteTwice | assistant/app/routers/tasks.py:73-78 | completing again leaves the registry as it was after the first completion |
| TasksRouter.DeleteTask | assistant/app/routers/tasks.py:82-93 | an unknown id gives 404 with no change; otherwise the row is removed and both keys cancelled |
| NotesRouter.ListNotes | assistant/app/routers/notes.py:13-16 | the listing is a permutation of its argument, the rows of the notes table (the values of `Database.notes`), newest first |
| NotesRouter.IsReminderTitle | assistant/app/routers/notes.py:31 | `title.lower().startswith("remind")`: its contract is stated by `ReminderTitlePrefix` and `ReminderTitleExamples` |
| NotesRouter.ReminderTitlePrefix | assistant/app/routers/notes.py:31 | a title qualifies exactly when its first six characters, lower-cased, are `remind`; anything appended to a qualifying title keeps it qualifying |
| NotesRouter.ReminderTitleExamples | assistant/app/routers/notes.py:31 | `Reminder` and `REMIND me` qualify for a ping; `Please remind me` and the empty title do not |
| NotesRouter.CreateNote | assistant/app/routers/notes.py:19-34 | the note is stored; the registry becomes `Pinged(...)` iff the title qualifies and is otherwise unchanged; the invariant is kept |
| NotesRouter.GetNote | assistant/app/routers/notes.py:37-42 | the stored note, or 404 for an unknown id |
| NotesRouter.DeleteNote | assistant/app/routers/notes.py:45-51 | an unknown id gives 404 with no change; otherwise the row is removed and no job is touched |
| NotesRouter.ThirtyMinutePing | assistant/app/services/scheduler.py:29-39 | a note with content `in 30 minutes meet Sam` gets a one-shot ping 30 minutes ahead, titled after the note |
| Cli.ParseDue | assistant/app/cli.py:34-40 | `_parse_due`: its contract is stated by `ParseDuePrecedence` and `ParseDueAgreesOnStrippedText` |
| Cli.ParseDuePrecedence | assistant/app/cli.py:34-40 | no value or `""` gives nothing; an ISO timestamp is returned as it is; otherwise the result of `parse_when` |
| Cli.ParseDueAgreesOnStrippedText | assistant/app/cli.py:37-40 | on text without surrounding whitespace `_parse_due` and `parse_when` agree |
| Cli.TaskCommand | assistant/app/cli.py:43-64 | a priority or reminder offset outside the 64-bit range makes `_save` fail with no change; otherwise the task is stored with the parsed due date and the defaults; the registry is not touched, and the invariant is kept |
| Briefing.StartOfDay | assistant/app/routers/briefing.py:16-18 | the start of day is a midnight, at or before `now` and less than a day before it |
| Briefing.Select | assistant/app/routers/briefing.py:20-46 | a bucket holds exactly the listed tasks that satisfy its `where` clauses |
| Briefing.WithPriority | assistant/app/routers/briefing.py:51 | exactly the tasks that have a priority |
| Briefing.SortSorted | assistant/app/routers/briefing.py:50-53 | the sort gives an ascending permutation of its input |
| Briefing.SortStable | assistant/app/routers/briefing.py:50-53 | the sort is stable: the tasks sharing a key keep their order |
| Briefing.SmallestFirst | assistant/app/routers/briefing.py:50-61 | the first five of the sorted list are the five smallest: ascending, from the input, none left out is smaller |
| Briefing.DailyBriefing | assistant/app/routers/briefing.py:15-62 | the briefing: its contract is stated by `BucketsExact`, `BucketsDisjoint`, `UpcomingAscending`, `PrioritiesFromCandidates`, `PrioritiesAscending`, `PrioritiesAreMostUrgent`, `PrioritiesStable` and `LatestNotesNewestFirst` |
| Briefing.BucketsExact | assistant/app/routers/briefing.py:20-46 | `due_today`, `overdue` and `upcoming` hold exactly the open, dated tasks in `[start, start+1d)`, before `start`, and in `[start+1d, start+8d)` |
| Briefing.BucketsDisjoint | assistant/app/routers/briefing.py:20-46 | the buckets are pairwise disjoint, and completed or undated tasks are in none |
| Briefing.UpcomingAscending | assistant/app/routers/briefing.py:37-46 | the upcoming tasks come in ascending due order |
| Briefing.PrioritiesFromCandidates | assistant/app/routers/briefing.py:50-61 | at most five priorities, fewer only when there are fewer candidates; each has a priority and is due today or upcoming |
| Briefing.PrioritiesAscending | assistant/app/routers/briefing.py:50-53 | the priorities come in ascending priority |
| Briefing.PrioritiesAreMostUrgent | assistant/app/routers/briefing.py:50-61 | no candidate left out has a smaller priority than one kept |
| Briefing.PrioritiesStable | assistant/app/routers/briefing.py:50-53 | candidates of equal priority keep their order (`due_today` before `upcoming`) |
| Briefing.LatestNotesNewestFirst | assistant/app/routers/briefing.py:48 | at most five notes, newest first, and none left out is newer than one kept |

## Left out

- APScheduler's background thread is not modelled. Neither is the actual firing, nor the removal of
  a one-shot job after it fires. `NotifyTask` is the callback, called directly.
- The next occurrence of a cron schedule is not computed: a recurring job is its `CronSpec`.
- `CronTrigger.from_crontab`'s exact validation of the five-field crontab format is not modelled.
  It is the opaque parameter `crontab`.
- The grammar of `datetime.fromisoformat` is not modelled. It is the opaque parameter `iso`.
- Printing and logging are not modelled. This covers `_notify` (scheduler.py:96-98) and every
  `logger` call. A notification is an entry appended to the ghost log `SchedulerService.sent`.
- Not modelled: SQLModel sessions, commit and refresh, `HTTPException` mechanics, and query building.
  - The tables are maps.
  - `list_tasks`' `order_by` is not modelled, because its NULL ordering depends on the database.
  - The order of the briefing's rows with equal sort keys is not modelled, for the same reason.
- `TasksRouter.UpdateTask`: a payload that sets `title` or `completed` to `null`, or `priority` or
  `reminder_offset` to an integer outside the 64-bit range, is modelled as an up-front `Rejected`
  error with no change. In the source the `NOT NULL` columns, or the `OverflowError` of binding the
  integer, make the commit fail after the in-memory merge; the observable outcome, no change, is the
  same. `TasksRouter.CreateTask` and `Cli.TaskCommand` check the range of the new row the same way.
- The 64-bit range is modelled for `priority` and `reminder_offset` only. Row ids are the parameter
  `rowId` and are not bounded.
- `JobKeys.KeyString`: the note key renders the fire time as its integer seconds followed by `.0`.
  That is what `datetime.timestamp()` prints for a whole-second time on a host whose local zone is
  UTC. `timestamp()` reads naive datetimes in the local zone, and sub-second times and float
  formatting of very large values are not modelled.
- `Strings.Lower`, `Strings.IsDigit`: only ASCII letters are lower-cased and only ASCII digits are
  digits. Python's Unicode lower-casing and the Unicode digits that `\d` and `int()` accept are not
  modelled. Whitespace (`Strings.IsSpace`) is the full `str.isspace` set.
- `TimeParse.WordAt`, `TimeParse.RelativeIgnoresCase`: the pattern's `re.IGNORECASE` flag is ASCII
  only here. In Python it also lets `i` match `ı` (U+0131) and `İ` (U+0130), `s` match `ſ`
  (U+017F) and `k` match the Kelvin sign (U+212A). So `ın 5 minutes` matches in the source and not in
  the model, and a unit such as `mınutes` is matched by the source and then, because
  `unit.lower().startswith("minute")` fails (timeparse.py:25-32), read as days.
- `Models.Eta` is an integer number of seconds, not a `timedelta`. The briefing's `timestamp` is the
  time itself, not its ISO rendering.
- `TimeParse.Shift`: `Time` is an unbounded integer, but a Python `datetime` covers only the years
  1 to 9999. `datetime.utcnow() + timedelta(...)` (timeparse.py:28-33) raises `OverflowError` when
  the sum leaves that range, as for `in 3000000 days`. `Shift`, and with it `ParseWhen` and
  `TimeParse.RelativePhraseParse`, give a time there instead of the error.
- `Scheduler.SchedulerService.SyncTask`, `Scheduler.FireTime`: for the same reason, the
  `OverflowError` that `run_time - timedelta(minutes=task.reminder_offset)` (scheduler.py:50)
  raises is not modelled. The API does not bound `reminder_offset` (models.py:29), so a huge offset
  reaches it. For an offset within the 64-bit column range (an offset outside it is `Rejected` at the
  commit, before `sync_task`), the error comes after `cancel_task` (scheduler.py:43): the registry is
  left as `Cancelled(old jobs, id)`, and `create_task`/`update_task` fail with the row already
  committed. The model ends at `Synced` instead, which for a task with a recurrence holds its
  `-recurring` job.
- `Scheduler.FireTime`, `Scheduler.Resolve`, `Briefing.InBucket`: `Time` is whole seconds, while
  `datetime.utcnow()` and stored due dates carry microseconds. The comparisons `run_time >
  datetime.utcnow()` (scheduler.py:51) and the briefing's interval bounds are therefore made on
  whole seconds; two times in the same second compare as equal in the model.
- `NotesRouter.ListNotes`, `Briefing.DailyBriefing`: the rows the queries return are a sequence
  argument. The model does not derive it from `Database`; the rows are the values of
  `Database.notes` and `Database.tasks`, and their SQL order is not modelled.
- The CLI's `note` and `export` commands, and `_save`, are not modelled: they are file and console
  I/O. The `task` command is modelled as a store only.
- `rag.py`, `llm.py`, `routers/ask.py`, `main.py` and `deps.py` are not part of this model. They
  are wrappers over ChromaDB, pypdf and the OpenAI client, plus application and engine wiring.
- The doc-string claim that `reminder_offset` applies to each recurring run (models.py:29-32) is not
  modelled: `sync_task` ignores the offset for recurring jobs, and so does `Synced`.

## Findings

| source | as written | input that shows it | evidently intended | confidence | as-written member | corrected member |
|---|---|---|---|---|---|---|
| assistant/app/utils/timeparse.py:8 | the raw string `r"in\\s+(\\d+)\\s*(...)"` passes `\\` to the regex engine as a literal backslash. The pattern therefore demands backslash characters, and any match would hand `int()` a group starting with a backslash, which raises | `in 5 minutes`, not an ISO timestamp: no time is returned | `now` plus 5 minutes (`in`, whitespace, digits, optional whitespace, unit) | not executed; high, from the raw-string escaping rules | TimeParse.FiveMinutesAsWritten | TimeParse.LeftmostMatchWins |
