/**
 * The identities of scheduled jobs. `scheduler.py` names its jobs with strings: `task-{id}-once`,
 * `task-{id}-recurring` and `note-{id}-{run_at.timestamp()}`. The registry is keyed here by the
 * datatype `JobKey`; `KeyString` renders a key as the job id the scheduler uses, and `ParseKey` reads it
 * back, so distinct keys are distinct job ids and a map over `JobKey` behaves as the map over strings.
 */
module JobKeys {
  import opened Common
  import opened Strings

  datatype JobKey =
    | TaskOnce(taskId: Option<int>)          // the one-shot reminder of a task
    | TaskRecurring(taskId: Option<int>)     // the recurring reminder of a task
    | NoteAt(noteId: Option<int>, runAt: Time)  // a ping for a note at one fire time

  /** `str(id)` of an `Optional[int]`: an unsaved record's id prints as `None`. */
  function IdString(id: Option<int>): string {
    match id
    case None => "None"
    case Some(i) => IntToString(i)
  }

  function ParseId(s: string): Option<int> {
    if s == "None" then None else Some(ParseInt(s))
  }

  lemma IdRoundTrip(id: Option<int>)
    ensures ParseId(IdString(id)) == id
  {
    if id.Some? {
      var s := IntToString(id.value);
      IntToStringShape(id.value);
      assert s != "None" by {
        if s[0] != '-' {
          assert IsDigit(s[0]);
        }
      }
      IntToStringRoundTrip(id.value);
    }
  }

  /** An id string is non-empty and has no `-` after its first character. */
  lemma IdStringShape(id: Option<int>)
    ensures |IdString(id)| > 0
    ensures forall k :: 1 <= k < |IdString(id)| ==> IdString(id)[k] != '-'
  {
    if id.Some? {
      IntToStringShape(id.value);
    }
  }

  /** The job id under which `scheduler.py` registers the job. A note ping's time is rendered as the
      `float` that `timestamp()` gives for a whole number of seconds, e.g. `1700000000.0`. */
  function KeyString(k: JobKey): string {
    match k
    case TaskOnce(id) => "task-" + IdString(id) + "-once"
    case TaskRecurring(id) => "task-" + IdString(id) + "-recurring"
    case NoteAt(id, t) => "note-" + IdString(id) + "-" + IntToString(t) + ".0"
  }

  /** The first `-` at or after position `from`. */
  function DashFrom(s: string, from: nat): (r: Option<nat>)
    ensures r.Some? ==> from <= r.value < |s| && s[r.value] == '-'
    decreases |s| - from
  {
    if from >= |s| then None
    else if s[from] == '-' then Some(from)
    else DashFrom(s, from + 1)
  }

  lemma {:induction false} DashFromFinds(s: string, from: nat, p: nat)
    requires from <= p < |s| && s[p] == '-'
    requires forall k :: from <= k < p ==> s[k] != '-'
    ensures DashFrom(s, from) == Some(p)
    decreases p - from
  {
    if from < p {
      DashFromFinds(s, from + 1, p);
    }
  }

  /** Reads a job id back into the key it names, if it names one. */
  function ParseKey(s: string): Option<JobKey> {
    if |s| >= 10 && StartsWith(s, "task-") && EndsWith(s, "-once") then
      Some(TaskOnce(ParseId(s[5..|s| - 5])))
    else if |s| >= 15 && StartsWith(s, "task-") && EndsWith(s, "-recurring") then
      Some(TaskRecurring(ParseId(s[5..|s| - 10])))
    else if |s| >= 7 && StartsWith(s, "note-") && EndsWith(s, ".0") then
      ParseNoteMiddle(s[5..|s| - 2])
    else None
  }

  /** Reads `{id}-{seconds}`, the middle of a note key: the id ends at the first `-` after its first
      character, which may itself be the sign of a negative id. */
  function ParseNoteMiddle(mid: string): Option<JobKey> {
    match DashFrom(mid, 1)
    case None => None
    case Some(p) => Some(NoteAt(ParseId(mid[..p]), ParseInt(mid[p + 1..])))
  }

  lemma {:induction false} OnceKeyRoundTrip(id: Option<int>)
    ensures ParseKey(KeyString(TaskOnce(id))) == Some(TaskOnce(id))
  {
    var s := KeyString(TaskOnce(id));
    var i := IdString(id);
    IdStringShape(id);
    assert s[..5] == "task-" && s[|s| - 5..] == "-once";
    assert s[5..|s| - 5] == i;
    IdRoundTrip(id);
  }

  lemma {:induction false} RecurringKeyRoundTrip(id: Option<int>)
    ensures ParseKey(KeyString(TaskRecurring(id))) == Some(TaskRecurring(id))
  {
    var s := KeyString(TaskRecurring(id));
    var i := IdString(id);
    IdStringShape(id);
    assert s[|s| - 5..] == "rring";
    assert !EndsWith(s, "-once");
    assert s[..5] == "task-" && s[|s| - 10..] == "-recurring";
    assert s[5..|s| - 10] == i;
    IdRoundTrip(id);
  }

  /** The first `-` after the id's first character separates the id from the time. */
  lemma {:induction false} SplitAtDash(id: Option<int>, ts: string)
    ensures var mid := IdString(id) + "-" + ts;
            DashFrom(mid, 1) == Some(|IdString(id)|) &&
            mid[..|IdString(id)|] == IdString(id) && mid[|IdString(id)| + 1..] == ts
  {
    var i := IdString(id);
    var mid := i + "-" + ts;
    IdStringShape(id);
    assert forall k :: 1 <= k < |i| ==> mid[k] == i[k];
    DashFromFinds(mid, 1, |i|);
    assert mid[..|i|] == i && mid[|i| + 1..] == ts;
  }

  lemma {:induction false} NoteMiddleRoundTrip(id: Option<int>, t: Time)
    ensures ParseNoteMiddle(IdString(id) + "-" + IntToString(t)) == Some(NoteAt(id, t))
  {
    SplitAtDash(id, IntToString(t));
    IdRoundTrip(id);
    IntToStringRoundTrip(t);
  }

  /** A note key starts with `note-`, not `task-`, ends with `.0`, and has `{id}-{seconds}` between. */
  /** The frame `note-<middle>.0` around any middle part. */
  lemma {:induction false} NoteFrame(mid: string)
    ensures var s := "note-" + mid + ".0";
            |s| >= 7 && !StartsWith(s, "task-") && StartsWith(s, "note-") && EndsWith(s, ".0") &&
            s[5..|s| - 2] == mid
  {
    var s := "note-" + mid + ".0";
    assert s[0] == 'n';
    assert s[..5] == "note-" && s[|s| - 2..] == ".0";
    assert s[5..|s| - 2] == mid;
  }

  lemma {:induction false} NoteKeyShape(id: Option<int>, t: Time)
    ensures var s := KeyString(NoteAt(id, t));
            |s| >= 7 && !StartsWith(s, "task-") && StartsWith(s, "note-") && EndsWith(s, ".0") &&
            s[5..|s| - 2] == IdString(id) + "-" + IntToString(t)
  {
    var mid := IdString(id) + "-" + IntToString(t);
    NoteFrame(mid);
    assert KeyString(NoteAt(id, t)) == "note-" + mid + ".0";
  }

  lemma {:induction false} NoteKeyRoundTrip(id: Option<int>, t: Time)
    ensures ParseKey(KeyString(NoteAt(id, t))) == Some(NoteAt(id, t))
  {
    NoteKeyShape(id, t);
    NoteMiddleRoundTrip(id, t);
  }

  /** Every job id the scheduler writes reads back as the key it was made from. */
  lemma KeyRoundTrip(k: JobKey)
    ensures ParseKey(KeyString(k)) == Some(k)
  {
    match k
    case TaskOnce(id) => OnceKeyRoundTrip(id);
    case TaskRecurring(id) => RecurringKeyRoundTrip(id);
    case NoteAt(id, t) => NoteKeyRoundTrip(id, t);
  }

  /** Distinct keys are distinct job ids: keying the registry by `JobKey` loses nothing. */
  lemma KeyStringInjective(a: JobKey, b: JobKey)
    ensures KeyString(a) == KeyString(b) ==> a == b
  {
    KeyRoundTrip(a);
    KeyRoundTrip(b);
  }

  lemma OnceKeyExample()
    ensures KeyString(TaskOnce(Some(42))) == "task-42-once"
  {
    assert NatToString(42) == NatToString(4) + [DigitChar(2)];
  }
}
