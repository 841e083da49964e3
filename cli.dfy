/** The `_parse_due` helper and the `task` command of `cli.py`. */
module Cli {
  import opened Common
  import opened Strings
  import opened Models
  import opened Store
  import opened Scheduler
  import TimeParse

  /** `_parse_due`: nothing for a missing or empty value; an ISO timestamp as it is; else `parse_when`. */
  function ParseDue(value: Option<string>, now: Time, iso: IsoParser): Option<Time> {
    if value.None? || value.value == "" then None
    else if iso(value.value).Some? then iso(value.value)
    else TimeParse.ParseWhen(value.value, now, iso)
  }

  /** The precedence of `_parse_due`: empty gives nothing, an ISO timestamp wins over `parse_when`. */
  lemma ParseDuePrecedence(v: string, now: Time, iso: IsoParser)
    ensures ParseDue(None, now, iso) == None && ParseDue(Some(""), now, iso) == None
    ensures v != "" && iso(v).Some? ==> ParseDue(Some(v), now, iso) == iso(v)
    ensures iso(v).None? ==> ParseDue(Some(v), now, iso) == TimeParse.ParseWhen(v, now, iso)
  {
    if v == "" {
      TimeParse.BlankGivesNone(v, now, iso);
    }
  }

  /** On text without surrounding whitespace `_parse_due` and `parse_when` agree: the extra ISO attempt
      of `_parse_due` is the one `parse_when` makes first. */
  lemma ParseDueAgreesOnStrippedText(v: string, now: Time, iso: IsoParser)
    requires Strip(v) == v
    ensures ParseDue(Some(v), now, iso) == TimeParse.ParseWhen(v, now, iso)
  {
  }

  /** The `task` command: stores a task with the parsed due date and the defaults, and makes no scheduler
      call; the registry is not modified, so the new task has no job, and the invariant still holds. A
      priority or reminder offset outside the 64-bit column range makes `_save` fail and stores nothing. */
  method TaskCommand(db: Database, registry: Registry, title: string, description: Option<string>,
                     due: Option<string>, priority: Option<int>, recurrence: Option<string>,
                     reminderOffset: Option<int>, rowId: int, now: Time, iso: IsoParser)
    returns (r: Result<Task>)
    requires db.Valid() && rowId !in db.tasks
    requires Consistent(db.tasks, registry.jobs)
    modifies db
    ensures !(FitsInt64(priority) && FitsInt64(reminderOffset)) ==> r == Err(Rejected) && db.tasks == old(db.tasks)
    ensures FitsInt64(priority) && FitsInt64(reminderOffset) ==>
              r == Ok(Task(Some(rowId), title, description, ParseDue(due, now, iso), priority, recurrence,
                           reminderOffset, now, false, None)) &&
              db.tasks == old(db.tasks)[rowId := r.value]
    ensures db.notes == old(db.notes)
    ensures db.Valid() && Consistent(db.tasks, registry.jobs)
  {
    var payload := TaskCreate(title, description, ParseDue(due, now, iso), priority, recurrence,
                              reminderOffset, now, false, None);
    var t := TaskFromCreate(payload);
    if !Storable(t) {
      return Err(Rejected);
    }
    t := t.(id := Some(rowId));
    InsertKeepsConsistent(db.tasks, registry.jobs, rowId, t);
    db.tasks := db.tasks[rowId := t];
    r := Ok(t);
  }
}
