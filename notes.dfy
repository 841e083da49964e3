/** The note handlers of `routers/notes.py`; a note titled like a reminder gets a ping scheduled. */
module NotesRouter {
  import opened Common
  import opened Strings
  import opened Models
  import opened Store
  import opened JobKeys
  import opened Scheduler
  import TimeParse
  import Briefing

  /** The quick-capture convention of `create_note`: the lower-cased title starts with `remind`. */
  predicate IsReminderTitle(title: string) {
    StartsWith(Lower(title), "remind")
  }

  /** `Reminder` and `REMIND me` qualify; `Please remind me` and the empty title do not. */
  lemma ReminderTitleExamples()
    ensures IsReminderTitle("Reminder")
    ensures IsReminderTitle("REMIND me")
    ensures !IsReminderTitle("Please remind me")
    ensures !IsReminderTitle("")
  {
    assert Lower("Reminder")[..6] == "remind";
    assert Lower("REMIND me")[..6] == "remind";
    assert Lower("Please remind me")[0] == 'p';
  }

  /** Only the first six characters decide, each in either case: a title qualifies exactly when they spell
      `remind` once lower-cased, so whatever follows a qualifying title, it still qualifies. */
  lemma ReminderTitlePrefix(title: string, rest: string)
    ensures IsReminderTitle(title) <==> |title| >= 6 && Lower(title[..6]) == "remind"
    ensures IsReminderTitle(title) ==> IsReminderTitle(title + rest)
  {
    if |title| >= 6 {
      assert Lower(title)[..6] == Lower(title[..6]);
      assert (title + rest)[..6] == title[..6];
      assert Lower(title + rest)[..6] == Lower((title + rest)[..6]);
    }
  }

  /** `GET /notes`: every stored note, newest first (ties keep the table's order). */
  function ListNotes(notes: seq<Note>): (r: seq<Note>)
    ensures multiset(r) == multiset(notes)
    ensures forall i, j :: 0 <= i < j < |r| ==> r[i].createdAt >= r[j].createdAt
  {
    Briefing.SortSorted(notes, Briefing.NewestFirstKey);
    var r := Briefing.SortBy(notes, Briefing.NewestFirstKey);
    assert forall i, j :: 0 <= i < j < |r| ==> Briefing.NewestFirstKey(r[i]) <= Briefing.NewestFirstKey(r[j]);
    r
  }

  /** `POST /notes`: the note is stored first; a ping is scheduled exactly when the title qualifies, and
      otherwise the registry is left as it was. Tasks are untouched. */
  method CreateNote(db: Database, svc: SchedulerService, payload: NoteCreate, rowId: int, now: Time, iso: IsoParser)
    returns (n: Note)
    requires db.Valid() && rowId !in db.notes
    requires Consistent(db.tasks, svc.scheduler.jobs)
    modifies db, svc.scheduler
    ensures n == NoteFromCreate(payload).(id := Some(rowId))
    ensures db.notes == old(db.notes)[rowId := n] && db.tasks == old(db.tasks)
    ensures svc.scheduler.jobs ==
              if IsReminderTitle(payload.title) then Pinged(old(svc.scheduler.jobs), n, now, iso)
              else old(svc.scheduler.jobs)
    ensures db.Valid() && Consistent(db.tasks, svc.scheduler.jobs)
  {
    n := NoteFromCreate(payload);
    n := n.(id := Some(rowId));
    db.notes := db.notes[rowId := n];
    if payload.title != "" && IsReminderTitle(payload.title) {
      PingKeepsConsistent(db.tasks, svc.scheduler.jobs, n, now, iso);
      svc.ScheduleNotePing(n, now, iso);
    }
  }

  /** `GET /notes/{id}`: the stored note, or 404. */
  method GetNote(db: Database, noteId: int) returns (r: Result<Note>)
    requires db.Valid()
    ensures noteId in db.notes ==> r == Ok(db.notes[noteId]) && r.value.id == Some(noteId)
    ensures noteId !in db.notes ==> r == Err(NotFound)
  {
    if noteId !in db.notes {
      return Err(NotFound);
    }
    r := Ok(db.notes[noteId]);
  }

  /** `DELETE /notes/{id}`: 404 with no change for an unknown id; otherwise the row is removed. No job is
      cancelled: the service is not a parameter, so a ping of the deleted note stays scheduled. */
  method DeleteNote(db: Database, noteId: int) returns (r: Result<()>)
    requires db.Valid()
    modifies db
    ensures noteId !in old(db.notes) ==> r == Err(NotFound) && db.notes == old(db.notes)
    ensures noteId in old(db.notes) ==> r == Ok(()) && db.notes == old(db.notes) - {noteId}
    ensures db.tasks == old(db.tasks) && db.Valid()
  {
    if noteId !in db.notes {
      return Err(NotFound);
    }
    db.notes := db.notes - {noteId};
    r := Ok(());
  }

  /** Worked example: a note with content `in 30 minutes meet Sam` pings 30 minutes ahead. */
  lemma ThirtyMinutePing(jobs: map<JobKey, Job>, n: Note, now: Time, iso: IsoParser)
    requires n.content == "in 30 minutes meet Sam"
    requires iso("in 30 minutes meet Sam").None?
    ensures var r := Pinged(jobs, n, now, iso);
            NoteAt(n.id, now + 30 * MINUTE) in r &&
            r[NoteAt(n.id, now + 30 * MINUTE)] == NotePingJob(n, now + 30 * MINUTE) &&
            r[NoteAt(n.id, now + 30 * MINUTE)].trigger == At(now + 30 * MINUTE)
  {
    TimeParse.ThirtyMinutesExample(now, iso);
  }
}
