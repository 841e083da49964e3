/**
 * `daily_briefing` of `routers/briefing.py`: the open tasks due today, overdue and due in the next week,
 * the latest notes, and the five most urgent tasks by priority. The task and note tables are given as
 * the sequences of rows the database returns; `now` stands for `datetime.utcnow()`.
 */
module Briefing {
  import opened Common
  import opened Models

  /** `datetime(now.year, now.month, now.day)`: midnight at the start of `now`'s day. */
  function StartOfDay(now: Time): (s: Time)
    ensures s <= now < s + DAY
    ensures s % DAY == 0
  {
    now - now % DAY
  }

  function EndOfDay(now: Time): Time {
    StartOfDay(now) + DAY
  }

  datatype Bucket = DueToday | Overdue | Upcoming

  /** The `where` clauses of the three queries: not completed, a due date, and a half-open interval. */
  predicate InBucket(t: Task, b: Bucket, now: Time) {
    !t.completed && t.dueDate.Some? &&
    match b
    case DueToday => StartOfDay(now) <= t.dueDate.value < EndOfDay(now)
    case Overdue => t.dueDate.value < StartOfDay(now)
    case Upcoming => EndOfDay(now) <= t.dueDate.value < EndOfDay(now) + 7 * DAY
  }

  /** The rows a query selects, in the order the table returns them. */
  function Select(tasks: seq<Task>, b: Bucket, now: Time): (r: seq<Task>)
    ensures forall x :: x in r <==> x in tasks && InBucket(x, b, now)
    ensures |r| <= |tasks|
  {
    if tasks == [] then []
    else (if InBucket(tasks[0], b, now) then [tasks[0]] else []) + Select(tasks[1..], b, now)
  }

  /** `[task for task in ... if task.priority is not None]`. */
  function WithPriority(tasks: seq<Task>): (r: seq<Task>)
    ensures forall x :: x in r <==> x in tasks && x.priority.Some?
  {
    if tasks == [] then []
    else (if tasks[0].priority.Some? then [tasks[0]] else []) + WithPriority(tasks[1..])
  }

  // A stable insertion sort by an integer key.

  /** Inserts `x` before the first element whose key is not smaller. */
  function Insert<T>(x: T, s: seq<T>, key: T -> int): seq<T> {
    if s == [] || key(x) <= key(s[0]) then [x] + s
    else [s[0]] + Insert(x, s[1..], key)
  }

  function SortBy<T>(xs: seq<T>, key: T -> int): seq<T> {
    if xs == [] then [] else Insert(xs[0], SortBy(xs[1..], key), key)
  }

  predicate SortedBy<T>(s: seq<T>, key: T -> int) {
    forall i, j :: 0 <= i < j < |s| ==> key(s[i]) <= key(s[j])
  }

  /** The elements of `s` whose key is `v`, in their order in `s`. */
  function WithKey<T>(s: seq<T>, key: T -> int, v: int): seq<T> {
    if s == [] then [] else (if key(s[0]) == v then [s[0]] else []) + WithKey(s[1..], key, v)
  }

  lemma {:induction false} InsertMembers<T>(x: T, s: seq<T>, key: T -> int)
    ensures forall y :: y in Insert(x, s, key) ==> y == x || y in s
    ensures x in Insert(x, s, key) && forall y :: y in s ==> y in Insert(x, s, key)
    ensures |Insert(x, s, key)| == |s| + 1
    decreases |s|
  {
    if s != [] && key(x) > key(s[0]) {
      InsertMembers(x, s[1..], key);
      assert s == [s[0]] + s[1..];
    }
  }

  lemma {:induction false} InsertSorted<T>(x: T, s: seq<T>, key: T -> int)
    requires SortedBy(s, key)
    ensures SortedBy(Insert(x, s, key), key)
    decreases |s|
  {
    if s != [] && key(x) > key(s[0]) {
      var rest := s[1..];
      InsertSorted(x, rest, key);
      InsertMembers(x, rest, key);
      var ins := Insert(x, rest, key);
      var r := [s[0]] + ins;
      forall j | 0 <= j < |ins| ensures key(s[0]) <= key(ins[j]) {
        var y := ins[j];
        assert y in Insert(x, rest, key);
        if y != x {
          assert y in rest;
          var k :| 0 <= k < |rest| && rest[k] == ins[j];
          assert s[k + 1] == rest[k];
        }
      }
      forall i, j | 0 <= i < j < |r| ensures key(r[i]) <= key(r[j]) {
        assert r[j] == ins[j - 1];
        if i > 0 {
          assert r[i] == ins[i - 1];
        }
      }
    }
  }

  lemma {:induction false} InsertPermutes<T>(x: T, s: seq<T>, key: T -> int)
    ensures multiset(Insert(x, s, key)) == multiset(s) + multiset{x}
    decreases |s|
  {
    if s != [] && key(x) > key(s[0]) {
      InsertPermutes(x, s[1..], key);
      assert s == [s[0]] + s[1..];
    }
  }

  /** Inserting `x` keeps the relative order of the elements that share a key. */
  lemma {:induction false} InsertWithKey<T>(x: T, s: seq<T>, key: T -> int, v: int)
    ensures WithKey(Insert(x, s, key), key, v) ==
            (if key(x) == v then [x] + WithKey(s, key, v) else WithKey(s, key, v))
    decreases |s|
  {
    if s == [] || key(x) <= key(s[0]) {
      assert ([x] + s)[1..] == s;
    } else {
      InsertWithKey(x, s[1..], key, v);
      assert ([s[0]] + Insert(x, s[1..], key))[1..] == Insert(x, s[1..], key);
    }
  }

  /** `SortBy` gives an ascending permutation of its input. */
  lemma {:induction false} SortSorted<T>(xs: seq<T>, key: T -> int)
    ensures SortedBy(SortBy(xs, key), key)
    ensures multiset(SortBy(xs, key)) == multiset(xs)
  {
    if xs != [] {
      SortSorted(xs[1..], key);
      InsertSorted(xs[0], SortBy(xs[1..], key), key);
      InsertPermutes(xs[0], SortBy(xs[1..], key), key);
      assert xs == [xs[0]] + xs[1..];
    }
  }

  lemma {:induction false} SortMembers<T>(xs: seq<T>, key: T -> int)
    ensures forall y :: y in SortBy(xs, key) <==> y in xs
    ensures |SortBy(xs, key)| == |xs|
  {
    if xs != [] {
      SortMembers(xs[1..], key);
      InsertMembers(xs[0], SortBy(xs[1..], key), key);
      assert xs == [xs[0]] + xs[1..];
    }
  }

  /** Of a sequence split in two, an element of the whole that is not (as a multiset) in the first part is in
      the second. */
  lemma LeftOut<T>(p: seq<T>, rest: seq<T>, y: T)
    requires y in multiset(p + rest) - multiset(p)
    ensures y in rest
  {
    assert multiset(p + rest) == multiset(p) + multiset(rest);
    assert y in multiset(rest);
  }

  /** In an ascending sequence, every key of a prefix is at most every key after it. */
  lemma PrefixBelowRest<T>(s: seq<T>, key: T -> int, m: nat, y: T)
    requires SortedBy(s, key) && m <= |s| && y in s[m..]
    ensures forall i :: 0 <= i < m ==> key(s[i]) <= key(y)
  {
    var j :| 0 <= j < |s[m..]| && s[m..][j] == y;
    assert s[m + j] == y;
  }

  /** The first `n` elements of the sorted sequence are its `n` smallest: ascending, taken from the input,
      and no key among the elements left out is smaller. */
  lemma SmallestFirst<T>(xs: seq<T>, key: T -> int, n: nat)
    ensures |Take(SortBy(xs, key), n)| == (if |xs| < n then |xs| else n)
    ensures SortedBy(Take(SortBy(xs, key), n), key)
    ensures forall y :: y in Take(SortBy(xs, key), n) ==> y in xs
    ensures forall i, y :: 0 <= i < |Take(SortBy(xs, key), n)| &&
                           y in multiset(xs) - multiset(Take(SortBy(xs, key), n)) ==>
                             key(Take(SortBy(xs, key), n)[i]) <= key(y)
  {
    var sorted := SortBy(xs, key);
    SortSorted(xs, key);
    SortMembers(xs, key);
    var m := if |xs| < n then |xs| else n;
    var p := sorted[..m];
    assert Take(sorted, n) == p;
    forall y | y in p ensures y in xs {
      assert y in sorted;
    }
    PrefixSmallest(xs, sorted, key, m);
  }

  /** For an ascending permutation `sorted` of `xs`, each of its first `m` keys is at most the key of
      every element of `xs` outside that prefix. */
  lemma PrefixSmallest<T>(xs: seq<T>, sorted: seq<T>, key: T -> int, m: nat)
    requires SortedBy(sorted, key) && multiset(sorted) == multiset(xs) && m <= |sorted|
    ensures forall i, y :: 0 <= i < m && y in multiset(xs) - multiset(sorted[..m]) ==>
                             key(sorted[i]) <= key(y)
  {
    var p := sorted[..m];
    assert sorted == p + sorted[m..];
    forall i, y | 0 <= i < m && y in multiset(xs) - multiset(p) ensures key(sorted[i]) <= key(y) {
      LeftOut(p, sorted[m..], y);
      PrefixBelowRest(sorted, key, m, y);
    }
  }

  /** `SortBy` is stable: the elements with any one key keep their input order, as with Python's `sorted`. */
  lemma {:induction false} SortStable<T>(xs: seq<T>, key: T -> int, v: int)
    ensures WithKey(SortBy(xs, key), key, v) == WithKey(xs, key, v)
  {
    if xs != [] {
      SortStable(xs[1..], key, v);
      InsertWithKey(xs[0], SortBy(xs[1..], key), key, v);
    }
  }

  function DueKey(t: Task): int {
    if t.dueDate.Some? then t.dueDate.value else 0
  }

  function PriorityKey(t: Task): int {
    if t.priority.Some? then t.priority.value else 0
  }

  /** `order_by(Note.created_at.desc())`, as an ascending sort on the negated creation time. */
  function NewestFirstKey(n: Note): int {
    -n.createdAt
  }

  function Take<T>(s: seq<T>, n: nat): seq<T> {
    if |s| <= n then s else s[..n]
  }

  datatype Briefing = Briefing(
    timestamp: Time,
    dueToday: seq<Task>,
    overdue: seq<Task>,
    upcoming: seq<Task>,
    latestNotes: seq<Note>,
    priorities: seq<Task>)

  /** The priority candidates: the tasks due today, then the upcoming ones, that have a priority. */
  function PriorityCandidates(dueToday: seq<Task>, upcoming: seq<Task>): seq<Task> {
    WithPriority(dueToday + upcoming)
  }

  /** `latest_notes`: the five newest notes. */
  function LatestNotes(notes: seq<Note>): seq<Note> {
    Take(SortBy(notes, NewestFirstKey), 5)
  }

  /** `priorities[:5]`: the candidates sorted by priority, the first five. */
  function Priorities(dueToday: seq<Task>, upcoming: seq<Task>): seq<Task> {
    Take(SortBy(PriorityCandidates(dueToday, upcoming), PriorityKey), 5)
  }

  function DailyBriefing(tasks: seq<Task>, notes: seq<Note>, now: Time): Briefing {
    var dueToday := Select(tasks, DueToday, now);
    var upcoming := SortBy(Select(tasks, Upcoming, now), DueKey);
    Briefing(now, dueToday, Select(tasks, Overdue, now), upcoming, LatestNotes(notes),
             Priorities(dueToday, upcoming))
  }

  /** Each bucket holds exactly the rows of its interval: due today in [start, end), overdue before start,
      upcoming in [end, end + 7 days), all of them open and dated. */
  lemma BucketsExact(tasks: seq<Task>, notes: seq<Note>, now: Time)
    ensures var b := DailyBriefing(tasks, notes, now);
            var start := StartOfDay(now);
            (forall x :: x in b.dueToday <==> x in tasks && !x.completed && x.dueDate.Some? &&
                                              start <= x.dueDate.value < start + DAY) &&
            (forall x :: x in b.overdue <==> x in tasks && !x.completed && x.dueDate.Some? &&
                                             x.dueDate.value < start) &&
            (forall x :: x in b.upcoming <==> x in tasks && !x.completed && x.dueDate.Some? &&
                                              start + DAY <= x.dueDate.value < start + 8 * DAY)
  {
    var up := Select(tasks, Upcoming, now);
    SortSorted(up, DueKey);
    forall x ensures x in SortBy(up, DueKey) <==> x in up {
      assert x in SortBy(up, DueKey) <==> x in multiset(SortBy(up, DueKey));
    }
  }

  /** No task is in two buckets, and completed or undated tasks are in none. */
  lemma BucketsDisjoint(tasks: seq<Task>, notes: seq<Note>, now: Time, x: Task)
    ensures var b := DailyBriefing(tasks, notes, now);
            !(x in b.dueToday && x in b.overdue) &&
            !(x in b.dueToday && x in b.upcoming) &&
            !(x in b.overdue && x in b.upcoming) &&
            (x.completed || x.dueDate.None? ==> x !in b.dueToday && x !in b.overdue && x !in b.upcoming)
  {
    BucketsExact(tasks, notes, now);
  }

  /** Every task is dated and the due dates never decrease. */
  predicate DueAscending(u: seq<Task>) {
    forall i, j :: 0 <= i < j < |u| ==>
      u[i].dueDate.Some? && u[j].dueDate.Some? && u[i].dueDate.value <= u[j].dueDate.value
  }

  /** The upcoming tasks come in ascending due order. */
  lemma UpcomingAscending(tasks: seq<Task>, notes: seq<Note>, now: Time)
    ensures DueAscending(DailyBriefing(tasks, notes, now).upcoming)
  {
    DatedByDue(Select(tasks, Upcoming, now));
  }

  /** Sorting dated tasks by `DueKey` orders them by due date. */
  lemma {:induction false} DatedByDue(up: seq<Task>)
    requires forall x :: x in up ==> x.dueDate.Some?
    ensures DueAscending(SortBy(up, DueKey))
  {
    var u := SortBy(up, DueKey);
    SortSorted(up, DueKey);
    SortMembers(up, DueKey);
    forall k | 0 <= k < |u| ensures u[k].dueDate.Some? {
      assert u[k] in up;
    }
  }

  /** `priorities` has at most five tasks (fewer only when there are fewer candidates), each with a
      priority and each due today or upcoming. */
  lemma PrioritiesFromCandidates(dueToday: seq<Task>, upcoming: seq<Task>)
    ensures var cands := PriorityCandidates(dueToday, upcoming);
            var p := Priorities(dueToday, upcoming);
            |p| == (if |cands| < 5 then |cands| else 5) &&
            (forall x :: x in p ==> x.priority.Some? && (x in dueToday || x in upcoming))
  {
    var cands := PriorityCandidates(dueToday, upcoming);
    SmallestFirst(cands, PriorityKey, 5);
  }

  /** `priorities` comes in ascending priority. */
  lemma PrioritiesAscending(dueToday: seq<Task>, upcoming: seq<Task>)
    ensures var p := Priorities(dueToday, upcoming);
            forall i, j :: 0 <= i < j < |p| ==>
              p[i].priority.Some? && p[j].priority.Some? && p[i].priority.value <= p[j].priority.value
  {
    var cands := PriorityCandidates(dueToday, upcoming);
    var p := Priorities(dueToday, upcoming);
    SmallestFirst(cands, PriorityKey, 5);
    forall i, j | 0 <= i < j < |p|
      ensures p[i].priority.Some? && p[j].priority.Some? && p[i].priority.value <= p[j].priority.value
    {
      assert p[i] in p && p[j] in p;
      assert PriorityKey(p[i]) <= PriorityKey(p[j]);
    }
  }

  /** `priorities` holds the most urgent candidates: no candidate left out has a smaller priority than
      one kept. */
  lemma PrioritiesAreMostUrgent(dueToday: seq<Task>, upcoming: seq<Task>)
    ensures var cands := PriorityCandidates(dueToday, upcoming);
            var p := Priorities(dueToday, upcoming);
            forall x, y :: x in p && y in multiset(cands) - multiset(p) ==>
                             x.priority.Some? && y.priority.Some? && x.priority.value <= y.priority.value
  {
    var cands := PriorityCandidates(dueToday, upcoming);
    var p := Priorities(dueToday, upcoming);
    SmallestFirst(cands, PriorityKey, 5);
    forall x, y | x in p && y in multiset(cands) - multiset(p)
      ensures x.priority.Some? && y.priority.Some? && x.priority.value <= y.priority.value
    {
      var i :| 0 <= i < |p| && p[i] == x;
      assert PriorityKey(p[i]) <= PriorityKey(y);
      assert y in multiset(cands);
      assert y in cands;
    }
  }

  /** `latest_notes`: at most five notes of the table, newest first, and no note left out is newer than
      any note kept. */
  lemma LatestNotesNewestFirst(notes: seq<Note>)
    ensures var l := LatestNotes(notes);
            |l| == (if |notes| < 5 then |notes| else 5) &&
            (forall x :: x in l ==> x in notes) &&
            (forall i, j :: 0 <= i < j < |l| ==> l[i].createdAt >= l[j].createdAt) &&
            (forall i, y :: 0 <= i < |l| && y in multiset(notes) - multiset(l) ==>
                              l[i].createdAt >= y.createdAt)
  {
    var l := LatestNotes(notes);
    SmallestFirst(notes, NewestFirstKey, 5);
    forall i, j | 0 <= i < j < |l| ensures l[i].createdAt >= l[j].createdAt {
      assert NewestFirstKey(l[i]) <= NewestFirstKey(l[j]);
    }
    forall i, y | 0 <= i < |l| && y in multiset(notes) - multiset(l) ensures l[i].createdAt >= y.createdAt {
      assert NewestFirstKey(l[i]) <= NewestFirstKey(y);
    }
  }

  /** Among the priorities, tasks of equal priority keep the order they had among the candidates. */
  lemma PrioritiesStable(dueToday: seq<Task>, upcoming: seq<Task>, v: int)
    ensures WithKey(SortBy(PriorityCandidates(dueToday, upcoming), PriorityKey), PriorityKey, v) ==
            WithKey(PriorityCandidates(dueToday, upcoming), PriorityKey, v)
  {
    SortStable(PriorityCandidates(dueToday, upcoming), PriorityKey, v);
  }
}
