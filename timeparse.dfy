/**
 * `parse_when` of `utils/timeparse.py`: strip the text, try an ISO-8601 timestamp, else take the
 * leftmost relative expression "in N minute(s)|hour(s)|day(s)" and add it to the current time.
 *
 * `datetime.fromisoformat` is a parameter `iso`, and `datetime.utcnow()` is the parameter `now`.
 *
 * The pattern at timeparse.py:8 is written `r"in\\s+(\\d+)\\s*(minutes?|hours?|days?)"`. In a raw
 * string each `\\` reaches the regular expression engine as an escaped, literal backslash, so the
 * pattern as written asks for literal backslash characters and its digit group would start with a
 * backslash that `int()` rejects. `ParseWhen` models the evident grammar
 *   `in` whitespace+ digits+ whitespace* (`minute`|`hour`|`day`)[`s`]   (case-insensitive),
 * which the rest of the model uses; `ParseWhenAsWritten` models the literal pattern, and the lemmas at
 * the end of this module show where the two differ.
 */
module TimeParse {
  import opened Common
  import opened Strings

  datatype Unit = Minutes | Hours | Days

  /** A relative expression: a count (the digits of group 1) and a unit (group 2). */
  datatype Relative = Relative(count: nat, unit: Unit)

  /** The `timedelta` of one unit, in seconds. */
  function UnitSeconds(u: Unit): (d: int)
    ensures d > 0
    ensures u == Minutes ==> d == 60
    ensures u == Hours ==> d == 60 * MINUTE
    ensures u == Days ==> d == 1440 * MINUTE
  {
    match u
    case Minutes => MINUTE
    case Hours => HOUR
    case Days => DAY
  }

  /** The lower-case word `w` occurs at position `i`, ignoring case. */
  predicate WordAt(s: string, i: nat, w: string) {
    i + |w| <= |s| && forall k :: 0 <= k < |w| ==> LowerChar(s[i + k]) == w[k]
  }

  /** The length of the run of whitespace starting at `i` (what a greedy `\s*` consumes). */
  function SpaceRun(s: string, i: nat): (n: nat)
    requires i <= |s|
    ensures i + n <= |s|
    decreases |s| - i
  {
    if i < |s| && IsSpace(s[i]) then 1 + SpaceRun(s, i + 1) else 0
  }

  /** The run is all whitespace and as long as possible. */
  lemma {:induction false} SpaceRunMaximal(s: string, i: nat)
    requires i <= |s|
    ensures forall k :: i <= k < i + SpaceRun(s, i) ==> IsSpace(s[k])
    ensures i + SpaceRun(s, i) == |s| || !IsSpace(s[i + SpaceRun(s, i)])
    decreases |s| - i
  {
    if i < |s| && IsSpace(s[i]) {
      SpaceRunMaximal(s, i + 1);
    }
  }

  /** The length of the run of ASCII digits starting at `i` (what a greedy `\d+` consumes). */
  function DigitRun(s: string, i: nat): (n: nat)
    requires i <= |s|
    ensures i + n <= |s|
    decreases |s| - i
  {
    if i < |s| && IsDigit(s[i]) then 1 + DigitRun(s, i + 1) else 0
  }

  /** The run is all digits and as long as possible. */
  lemma {:induction false} DigitRunMaximal(s: string, i: nat)
    requires i <= |s|
    ensures AllDigits(s[i..i + DigitRun(s, i)])
    ensures i + DigitRun(s, i) == |s| || !IsDigit(s[i + DigitRun(s, i)])
    decreases |s| - i
  {
    if i < |s| && IsDigit(s[i]) {
      DigitRunMaximal(s, i + 1);
      var run := s[i..i + DigitRun(s, i)];
      var rest := s[i + 1..i + DigitRun(s, i)];
      forall k | 0 <= k < |run| ensures IsDigit(run[k]) {
        if k > 0 {
          assert run[k] == rest[k - 1];
        }
      }
    }
  }

  /** Group 2, `minutes?|hours?|days?`: the alternatives start with different letters, so at most one applies;
      the optional plural `s` does not change the unit. */
  function UnitAt(s: string, i: nat): Option<Unit> {
    if WordAt(s, i, "minute") then Some(Minutes)
    else if WordAt(s, i, "hour") then Some(Hours)
    else if WordAt(s, i, "day") then Some(Days)
    else None
  }

  /** The relative expression of a count and the unit group 2 found, if it found one. */
  function WithUnit(count: nat, u: Option<Unit>): Option<Relative> {
    match u
    case None => None
    case Some(unit) => Some(Relative(count, unit))
  }

  /** `(\d+)\s*(minutes?|hours?|days?)` from position `d0`: the count and the unit. */
  function CountAt(s: string, d0: nat): (r: Option<Relative>)
    requires d0 <= |s|
  {
    CountOf(DigitRun(s, d0), RunValue(s, d0), UnitAfter(s, d0))
  }

  /** The unit group 2 finds after the run of digits at `d0` and the optional whitespace. */
  function UnitAfter(s: string, d0: nat): Option<Unit>
    requires d0 <= |s|
  {
    UnitAt(s, UnitStart(s, d0))
  }

  /** Where group 2 starts: past the run of digits at `d0` and the whitespace after it. */
  function UnitStart(s: string, d0: nat): nat
    requires d0 <= |s|
  {
    var nd := DigitRun(s, d0);
    d0 + nd + SpaceRun(s, d0 + nd)
  }

  /** No count without at least one digit; otherwise the count with the unit, if one follows. */
  function CountOf(digits: nat, value: nat, u: Option<Unit>): Option<Relative> {
    if digits == 0 then None else WithUnit(value, u)
  }

  /** `int(match.group(1))`: the value of the run of digits at `d0`, never negative. */
  function RunValue(s: string, d0: nat): (v: nat)
    requires d0 <= |s|
  {
    DigitRunMaximal(s, d0);
    DigitsValueNonNegative(s[d0..d0 + DigitRun(s, d0)]);
    DigitsValue(s[d0..d0 + DigitRun(s, d0)])
  }

  /**
   * The match of the relative pattern starting exactly at `i`, if any. Every greedy repetition is followed
   * by something its own characters cannot start (a digit after whitespace, a letter or whitespace after
   * digits, a unit letter after whitespace), so backtracking never finds a different match: the match at
   * `i` is unique, and its digit group is the whole run of digits.
   */
  function MatchAt(s: string, i: nat): (r: Option<Relative>)
    requires i <= |s|
    ensures r.Some? ==> WordAt(s, i, "in") && i + 2 < |s| && IsSpace(s[i + 2])
  {
    if !WordAt(s, i, "in") then None else SpacedCount(s, i + 2)
  }

  /** `\s+(\d+)\s*(minutes?|hours?|days?)` from position `j`: at least one whitespace, then the count. */
  function SpacedCount(s: string, j: nat): (r: Option<Relative>)
    requires j <= |s|
    ensures r.Some? ==> j < |s| && IsSpace(s[j])
  {
    var ws := SpaceRun(s, j);
    if ws == 0 then None else CountAt(s, j + ws)
  }

  /** `RELATIVE_PATTERN.search`: the leftmost position at or after `from` where the pattern matches. */
  function FirstMatch(s: string, from: nat): (r: Option<nat>)
    requires from <= |s|
    ensures r.Some? ==> from <= r.value <= |s|
    decreases |s| - from
  {
    if MatchAt(s, from).Some? then Some(from)
    else if from == |s| then None
    else FirstMatch(s, from + 1)
  }

  /** `FirstMatch` finds a match, and no earlier one exists. */
  lemma {:induction false} FirstMatchSound(s: string, from: nat)
    requires from <= |s|
    ensures FirstMatch(s, from).Some? ==> MatchAt(s, FirstMatch(s, from).value).Some?
    ensures FirstMatch(s, from).Some? ==> forall k :: from <= k < FirstMatch(s, from).value ==> MatchAt(s, k).None?
    decreases |s| - from
  {
    if MatchAt(s, from).None? && from < |s| {
      FirstMatchSound(s, from + 1);
    }
  }

  /** The leftmost matching position is the one `FirstMatch` returns. */
  lemma {:induction false} FirstMatchIsLeftmost(s: string, from: nat, i: nat)
    requires from <= i <= |s| && MatchAt(s, i).Some?
    requires forall k :: from <= k < i ==> MatchAt(s, k).None?
    ensures FirstMatch(s, from) == Some(i)
    decreases i - from
  {
    if from < i {
      FirstMatchIsLeftmost(s, from + 1, i);
    }
  }

  /** Without any matching position, `FirstMatch` finds nothing. */
  lemma {:induction false} FirstMatchNone(s: string, from: nat)
    requires from <= |s|
    requires forall k :: from <= k <= |s| ==> MatchAt(s, k).None?
    ensures FirstMatch(s, from) == None
    decreases |s| - from
  {
    if from < |s| {
      FirstMatchNone(s, from + 1);
    }
  }

  /** The relative expression `search` finds in `t`, if any. */
  function Search(t: string): Option<Relative> {
    match FirstMatch(t, 0)
    case None => None
    case Some(i) => MatchAt(t, i)
  }

  /** `now + timedelta(...)` for a relative expression. */
  function Shift(now: Time, rel: Relative): (r: Time)
    ensures r >= now
  {
    now + rel.count * UnitSeconds(rel.unit)
  }

  /** `parse_when` once the text is stripped. */
  function ParseStripped(t: string, now: Time, iso: string -> Option<Time>): Option<Time> {
    if t == [] then None
    else if iso(t).Some? then iso(t)
    else
      match Search(t)
      case None => None
      case Some(rel) => Some(Shift(now, rel))
  }

  /** `parse_when(text)`, with `datetime.utcnow()` given as `now`. */
  function ParseWhen(text: string, now: Time, iso: string -> Option<Time>): Option<Time> {
    ParseStripped(Strip(text), now, iso)
  }

  /** Empty or whitespace-only text gives no time. */
  lemma BlankGivesNone(text: string, now: Time, iso: string -> Option<Time>)
    requires AllSpace(text)
    ensures ParseWhen(text, now, iso) == None
  {
    StripEmptyIff(text);
  }

  /** A valid ISO timestamp in the stripped text is returned as it is; the relative pattern is not consulted. */
  lemma IsoTakesPrecedence(text: string, now: Time, iso: string -> Option<Time>)
    requires !AllSpace(text) && iso(Strip(text)).Some?
    ensures ParseWhen(text, now, iso) == iso(Strip(text))
  {
    StripEmptyIff(text);
  }

  lemma LeftmostMatchWinsStripped(t: string, now: Time, iso: string -> Option<Time>, i: nat, n: nat, u: Unit)
    requires t != [] && iso(t).None?
    requires i <= |t| && MatchAt(t, i) == Some(Relative(n, u))
    requires forall k :: 0 <= k < i ==> MatchAt(t, k).None?
    ensures ParseStripped(t, now, iso) == Some(now + n * UnitSeconds(u))
  {
    FirstMatchIsLeftmost(t, 0, i);
  }

  /** Without an ISO timestamp, the leftmost match decides, whatever relative expressions follow it. */
  lemma LeftmostMatchWins(text: string, now: Time, iso: string -> Option<Time>, i: nat, n: nat, u: Unit)
    requires !AllSpace(text) && iso(Strip(text)).None?
    requires i <= |Strip(text)| && MatchAt(Strip(text), i) == Some(Relative(n, u))
    requires forall k :: 0 <= k < i ==> MatchAt(Strip(text), k).None?
    ensures ParseWhen(text, now, iso) == Some(now + n * UnitSeconds(u))
  {
    StripEmptyIff(text);
    LeftmostMatchWinsStripped(Strip(text), now, iso, i, n, u);
  }

  /** Text with neither an ISO timestamp nor a match gives no time. */
  lemma NoMatchGivesNone(text: string, now: Time, iso: string -> Option<Time>)
    requires iso(Strip(text)).None?
    requires forall k :: 0 <= k <= |Strip(text)| ==> MatchAt(Strip(text), k).None?
    ensures ParseWhen(text, now, iso) == None
  {
    FirstMatchNone(Strip(text), 0);
  }

  /** A relative result is never earlier than `now`: the count is made of digits. */
  lemma RelativeNotEarlier(text: string, now: Time, iso: string -> Option<Time>)
    requires iso(Strip(text)).None?
    ensures ParseWhen(text, now, iso).Some? ==> ParseWhen(text, now, iso).value >= now
  {
  }

  // Case-insensitivity: lower-casing the text does not change any match.

  lemma {:induction false} SpaceRunLower(s: string, i: nat)
    requires i <= |s|
    ensures SpaceRun(Lower(s), i) == SpaceRun(s, i)
    decreases |s| - i
  {
    if i < |s| && IsSpace(s[i]) {
      SpaceRunLower(s, i + 1);
    }
  }

  lemma {:induction false} DigitRunLower(s: string, i: nat)
    requires i <= |s|
    ensures DigitRun(Lower(s), i) == DigitRun(s, i)
    decreases |s| - i
  {
    if i < |s| && IsDigit(s[i]) {
      DigitRunLower(s, i + 1);
    }
  }

  lemma {:induction false} WordAtLower(s: string, i: nat, w: string)
    ensures WordAt(Lower(s), i, w) == WordAt(s, i, w)
  {
    if i + |w| <= |s| {
      forall k | 0 <= k < |w| ensures (LowerChar(Lower(s)[i + k]) == w[k]) == (LowerChar(s[i + k]) == w[k]) {
        LowerCharIdempotent(s[i + k]);
      }
    }
  }

  lemma {:induction false} UnitAtLower(s: string, i: nat)
    ensures UnitAt(Lower(s), i) == UnitAt(s, i)
  {
    WordAtLower(s, i, "minute");
    WordAtLower(s, i, "hour");
    WordAtLower(s, i, "day");
  }

  /** Lower-casing leaves a run of digits as it is. */
  lemma {:induction false} DigitsLower(s: string, d0: nat)
    requires d0 <= |s|
    ensures Lower(s)[d0..d0 + DigitRun(s, d0)] == s[d0..d0 + DigitRun(s, d0)]
  {
    var nd := DigitRun(s, d0);
    DigitRunMaximal(s, d0);
    forall k | d0 <= k < d0 + nd ensures Lower(s)[k] == s[k] {
      assert IsDigit(s[d0..d0 + nd][k - d0]);
    }
  }

  lemma {:induction false} RunValueLower(s: string, d0: nat)
    requires d0 <= |s|
    ensures RunValue(Lower(s), d0) == RunValue(s, d0)
  {
    DigitRunLower(s, d0);
    DigitsLower(s, d0);
  }

  lemma {:induction false} UnitStartLower(s: string, d0: nat)
    requires d0 <= |s|
    ensures UnitStart(Lower(s), d0) == UnitStart(s, d0)
  {
    DigitRunLower(s, d0);
    SpaceRunLower(s, d0 + DigitRun(s, d0));
  }

  lemma {:induction false} UnitAfterLower(s: string, d0: nat)
    requires d0 <= |s|
    ensures UnitAfter(Lower(s), d0) == UnitAfter(s, d0)
  {
    UnitStartLower(s, d0);
    UnitAtLower(s, UnitStart(s, d0));
  }

  lemma {:induction false} CountAtLower(s: string, d0: nat)
    requires d0 <= |s|
    ensures CountAt(Lower(s), d0) == CountAt(s, d0)
  {
    DigitRunLower(s, d0);
    UnitAfterLower(s, d0);
    RunValueLower(s, d0);
  }

  lemma {:induction false} MatchAtLower(s: string, i: nat)
    requires i <= |s|
    ensures MatchAt(Lower(s), i) == MatchAt(s, i)
  {
    WordAtLower(s, i, "in");
    if WordAt(s, i, "in") {
      SpacedCountLower(s, i + 2);
    }
  }

  lemma {:induction false} SpacedCountLower(s: string, j: nat)
    requires j <= |s|
    ensures SpacedCount(Lower(s), j) == SpacedCount(s, j)
  {
    SpaceRunLower(s, j);
    var ws := SpaceRun(s, j);
    CountAtLower(s, j + ws);
    SpacedCountCongruent(Lower(s), s, j);
  }

  /** `SpacedCount` depends only on the whitespace run and the count after it. */
  lemma {:induction false} SpacedCountCongruent(a: string, b: string, j: nat)
    requires j <= |a| && j <= |b| && SpaceRun(a, j) == SpaceRun(b, j)
    requires j + SpaceRun(a, j) <= |b|
    requires CountAt(a, j + SpaceRun(a, j)) == CountAt(b, j + SpaceRun(a, j))
    ensures SpacedCount(a, j) == SpacedCount(b, j)
  {
  }

  /** `FirstMatch` depends only on where the pattern matches. */
  lemma {:induction false} FirstMatchCongruent(a: string, b: string, from: nat)
    requires |a| == |b| && from <= |a|
    requires forall k :: from <= k <= |a| ==> MatchAt(a, k) == MatchAt(b, k)
    ensures FirstMatch(a, from) == FirstMatch(b, from)
    decreases |a| - from
  {
    if MatchAt(a, from).None? && from < |a| {
      FirstMatchCongruent(a, b, from + 1);
    }
  }

  lemma {:induction false} FirstMatchLower(s: string)
    ensures FirstMatch(Lower(s), 0) == FirstMatch(s, 0)
  {
    forall k | 0 <= k <= |s| ensures MatchAt(Lower(s), k) == MatchAt(s, k) {
      MatchAtLower(s, k);
    }
    FirstMatchCongruent(Lower(s), s, 0);
  }

  lemma {:induction false} SearchLower(t: string)
    ensures Search(Lower(t)) == Search(t)
  {
    FirstMatchLower(t);
    var j := FirstMatch(t, 0);
    if j.Some? {
      MatchAtLower(t, j.value);
    }
  }

  /** Matching ignores case: when neither spelling is an ISO timestamp, `IN 2 HOURS` reads as `in 2 hours`. */
  lemma RelativeIgnoresCase(text: string, now: Time, iso: string -> Option<Time>)
    requires iso(Strip(text)).None? && iso(Strip(Lower(text))).None?
    ensures ParseWhen(Lower(text), now, iso) == ParseWhen(text, now, iso)
  {
    StripLowerCommute(text);
    SearchLower(Strip(text));
  }

  // Every phrase of the documented form: `in`, whitespace, a count, optional whitespace, a unit, an optional `s`.

  /** The singular spelling of a unit, as group 2 accepts it. */
  function UnitWord(u: Unit): (w: string)
    ensures |w| >= 3
  {
    match u
    case Minutes => "minute"
    case Hours => "hour"
    case Days => "day"
  }

  /** `in<ws1><n><ws2><unit>[s]`, the phrase shape the pattern is written for. */
  function RelativeText(n: nat, ws1: string, ws2: string, u: Unit, plural: bool): string {
    "in" + ws1 + NatToString(n) + ws2 + UnitWord(u) + (if plural then "s" else "")
  }

  /** The greedy whitespace run over a stretch of `m` whitespace characters stops right after it. */
  lemma {:induction false} SpaceRunExact(s: string, i: nat, m: nat)
    requires i + m <= |s|
    requires forall k :: i <= k < i + m ==> IsSpace(s[k])
    requires i + m == |s| || !IsSpace(s[i + m])
    ensures SpaceRun(s, i) == m
    decreases m
  {
    if m > 0 {
      SpaceRunExact(s, i + 1, m - 1);
    }
  }

  /** The greedy digit run over a stretch of `m` digits stops right after it. */
  lemma {:induction false} DigitRunExact(s: string, i: nat, m: nat)
    requires i + m <= |s|
    requires forall k :: i <= k < i + m ==> IsDigit(s[k])
    requires i + m == |s| || !IsDigit(s[i + m])
    ensures DigitRun(s, i) == m
    decreases m
  {
    if m > 0 {
      DigitRunExact(s, i + 1, m - 1);
    }
  }

  /** Where the six parts of a concatenation sit; `RelativeText` is one. */
  lemma {:induction false} SixParts(a: string, b: string, c: string, e: string, f: string, g: string)
    ensures var s := a + b + c + e + f + g;
            var pc := |a| + |b|;
            var pf := pc + |c| + |e|;
            (forall k :: 0 <= k < |a| ==> s[k] == a[k]) &&
            (forall k :: 0 <= k < |b| ==> s[|a| + k] == b[k]) &&
            s[pc..pc + |c|] == c &&
            (forall k :: 0 <= k < |e| ==> s[pc + |c| + k] == e[k]) &&
            s[pf..pf + |f|] == f
  {
    var s := a + b + c + e + f + g;
    var pc := |a| + |b|;
    var pf := pc + |c| + |e|;
    assert s[pc..pc + |c|] == c by {
      assert forall k :: 0 <= k < |c| ==> s[pc + k] == c[k];
    }
    assert s[pf..pf + |f|] == f by {
      assert forall k :: 0 <= k < |f| ==> s[pf + k] == f[k];
    }
  }

  /** The unit word at `p` is read as its unit: the three words start with different letters. */
  lemma {:induction false} UnitAtWord(s: string, p: nat, u: Unit)
    requires p + |UnitWord(u)| <= |s| && s[p..p + |UnitWord(u)|] == UnitWord(u)
    ensures UnitAt(s, p) == Some(u)
  {
    var w := UnitWord(u);
    forall k | 0 <= k < |w| ensures LowerChar(s[p + k]) == w[k] {
      assert s[p + k] == s[p..p + |w|][k];
    }
    assert WordAt(s, p, w);
    assert LowerChar(s[p + 0]) == w[0];
    assert "minute"[0] == 'm' && "hour"[0] == 'h';
  }

  /** A run of digits `d` at `p`, not followed by another digit, is group 1, and its value is the count. */
  lemma {:induction false} DigitsAt(s: string, p: nat, d: string)
    requires d != [] && AllDigits(d) && p + |d| <= |s| && s[p..p + |d|] == d
    requires p + |d| == |s| || !IsDigit(s[p + |d|])
    ensures DigitRun(s, p) == |d| && RunValue(s, p) == DigitsValue(d)
  {
    forall k | p <= k < p + |d| ensures IsDigit(s[k]) {
      assert s[k] == d[k - p];
    }
    DigitRunExact(s, p, |d|);
  }

  /** `(\d+)\s*(unit)` over a run of digits `d`, `m2` whitespace characters and a unit word. */
  lemma {:induction false} CountAtPhrase(s: string, p2: nat, d: string, m2: nat, u: Unit, v: nat)
    requires d != [] && AllDigits(d) && DigitsValue(d) == v
    requires p2 + |d| + m2 + |UnitWord(u)| <= |s|
    requires s[p2..p2 + |d|] == d
    requires forall k :: p2 + |d| <= k < p2 + |d| + m2 ==> IsSpace(s[k])
    requires var p4 := p2 + |d| + m2; s[p4..p4 + |UnitWord(u)|] == UnitWord(u)
    ensures CountAt(s, p2) == Some(Relative(v, u))
  {
    var p3 := p2 + |d|;
    var p4 := p3 + m2;
    var w := UnitWord(u);
    assert s[p4] == s[p4..p4 + |w|][0] && s[p4] == w[0];
    assert !IsDigit(s[p3]) by {
      if m2 > 0 {
        assert IsSpace(s[p3]);
      }
    }
    DigitsAt(s, p2, d);
    SpaceRunExact(s, p3, m2);
    assert UnitStart(s, p2) == p4;
    UnitAtWord(s, p4, u);
  }

  /** The whole pattern at 0 over `in`, `m1 > 0` whitespace characters and a count phrase. */
  lemma {:induction false} PhraseMatch(s: string, m1: nat, d: string, m2: nat, u: Unit, v: nat)
    requires m1 > 0 && d != [] && AllDigits(d) && DigitsValue(d) == v
    requires 2 + m1 + |d| + m2 + |UnitWord(u)| <= |s|
    requires s[0] == 'i' && s[1] == 'n'
    requires forall k :: 2 <= k < 2 + m1 ==> IsSpace(s[k])
    requires s[2 + m1..2 + m1 + |d|] == d
    requires forall k :: 2 + m1 + |d| <= k < 2 + m1 + |d| + m2 ==> IsSpace(s[k])
    requires var p4 := 2 + m1 + |d| + m2; s[p4..p4 + |UnitWord(u)|] == UnitWord(u)
    ensures MatchAt(s, 0) == Some(Relative(v, u))
  {
    assert WordAt(s, 0, "in");
    assert s[2 + m1] == s[2 + m1..2 + m1 + |d|][0] && IsDigit(d[0]);
    SpaceRunExact(s, 2, m1);
    CountAtPhrase(s, 2 + m1, d, m2, u, v);
    assert SpacedCount(s, 2) == CountAt(s, 2 + m1);
  }

  /** `PhraseMatch` on a concatenation of the phrase's parts. */
  lemma {:induction false} PartsMatch(b: string, c: string, e: string, f: string, g: string, u: Unit, v: nat)
    requires b != [] && AllSpace(b) && c != [] && AllDigits(c) && DigitsValue(c) == v
    requires AllSpace(e) && f == UnitWord(u)
    ensures MatchAt("in" + b + c + e + f + g, 0) == Some(Relative(v, u))
  {
    var s := "in" + b + c + e + f + g;
    SixParts("in", b, c, e, f, g);
    assert s[0] == "in"[0] && s[1] == "in"[1];
    forall k | 2 <= k < 2 + |b| ensures IsSpace(s[k]) {
      assert s[2 + (k - 2)] == b[k - 2];
    }
    forall k | 2 + |b| + |c| <= k < 2 + |b| + |c| + |e| ensures IsSpace(s[k]) {
      assert s[2 + |b| + |c| + (k - 2 - |b| - |c|)] == e[k - 2 - |b| - |c|];
    }
    PhraseMatch(s, |b|, c, |e|, u, v);
  }

  /** What the pattern promises: every phrase of the documented form matches where it starts, with its
      count and unit, whatever the whitespace and whether the unit is plural. */
  lemma {:induction false} RelativePhrase(n: nat, ws1: string, ws2: string, u: Unit, plural: bool)
    requires ws1 != [] && AllSpace(ws1) && AllSpace(ws2)
    ensures MatchAt(RelativeText(n, ws1, ws2, u, plural), 0) == Some(Relative(n, u))
  {
    NatToStringRoundTrip(n);
    PartsMatch(ws1, NatToString(n), ws2, UnitWord(u), if plural then "s" else "", u, n);
  }

  /** The corollary for `parse_when`: such a phrase, when it is not an ISO timestamp, is `now` plus the count
      of units. */
  lemma RelativePhraseParse(n: nat, ws1: string, ws2: string, u: Unit, plural: bool,
                            now: Time, iso: string -> Option<Time>)
    requires ws1 != [] && AllSpace(ws1) && AllSpace(ws2)
    requires iso(RelativeText(n, ws1, ws2, u, plural)).None?
    ensures ParseWhen(RelativeText(n, ws1, ws2, u, plural), now, iso) == Some(now + n * UnitSeconds(u))
  {
    var t := RelativeText(n, ws1, ws2, u, plural);
    RelativeTextStripped(n, ws1, ws2, u, plural);
    RelativePhrase(n, ws1, ws2, u, plural);
    LeftmostMatchWinsStripped(t, now, iso, 0, n, u);
  }

  /** A phrase starts with `i` and ends with a letter, so `strip` leaves it as it is. */
  lemma {:induction false} RelativeTextStripped(n: nat, ws1: string, ws2: string, u: Unit, plural: bool)
    ensures Strip(RelativeText(n, ws1, ws2, u, plural)) == RelativeText(n, ws1, ws2, u, plural)
  {
    var t := RelativeText(n, ws1, ws2, u, plural);
    var w := UnitWord(u);
    var head := "in" + ws1 + NatToString(n) + ws2;
    assert t[0] == 'i';
    assert 'a' <= t[|t| - 1] <= 'z' by {
      if plural {
        assert t == head + w + "s";
      } else {
        assert t == head + w;
        assert t[|t| - 1] == w[|w| - 1];
      }
    }
    TrimLeftIdle(t);
    TrimRightIdle(t);
  }

  lemma ThirtyMinutesCount()
    ensures DigitRun("in 30 minutes meet Sam", 3) == 2 && RunValue("in 30 minutes meet Sam", 3) == 30
  {
    var t := "in 30 minutes meet Sam";
    assert DigitRun(t, 3) == 2 by { assert DigitRun(t, 4) == 1 by { assert DigitRun(t, 5) == 0; } }
    assert t[3..5] == "30";
    assert DigitsValue("30") == 30 by { assert "30"[..1] == "3"; }
  }

  lemma ThirtyMinutesUnit()
    ensures UnitAfter("in 30 minutes meet Sam", 3) == Some(Minutes)
  {
    var t := "in 30 minutes meet Sam";
    assert DigitRun(t, 3) == 2 by { assert DigitRun(t, 4) == 1 by { assert DigitRun(t, 5) == 0; } }
    assert SpaceRun(t, 5) == 1 by { assert SpaceRun(t, 6) == 0; }
    assert UnitStart(t, 3) == 6;
    assert WordAt(t, 6, "minute");
  }

  lemma ThirtyMinutesMatch()
    ensures MatchAt("in 30 minutes meet Sam", 0) == Some(Relative(30, Minutes))
  {
    var t := "in 30 minutes meet Sam";
    ThirtyMinutesCount();
    ThirtyMinutesUnit();
    assert WordAt(t, 0, "in");
    assert SpaceRun(t, 2) == 1 by { assert SpaceRun(t, 3) == 0; }
    assert CountAt(t, 3) == Some(Relative(30, Minutes));
  }

  /** Worked example: the note content "in 30 minutes meet Sam" gives a time 30 minutes ahead. */
  lemma ThirtyMinutesExample(now: Time, iso: string -> Option<Time>)
    requires iso("in 30 minutes meet Sam").None?
    ensures ParseWhen("in 30 minutes meet Sam", now, iso) == Some(now + 30 * MINUTE)
  {
    var t := "in 30 minutes meet Sam";
    TrimLeftIdle(t);
    TrimRightIdle(t);
    ThirtyMinutesMatch();
    LeftmostMatchWinsStripped(t, now, iso, 0, 30, Minutes);
  }

  // The pattern as written at timeparse.py:8.

  /** The length of the run of characters equal to `c` when lower-cased, starting at `i`. */
  function LetterRun(s: string, i: nat, c: char): (n: nat)
    requires i <= |s|
    ensures i + n <= |s|
    ensures i + n == |s| || LowerChar(s[i + n]) != c
    decreases |s| - i
  {
    if i < |s| && LowerChar(s[i]) == c then 1 + LetterRun(s, i + 1, c) else 0
  }

  /**
   * The literal pattern `in` `\` `s+` `\` `d+` `\` `s*` unit, ignoring case, at position `i`. As in
   * `MatchAt`, each greedy run is followed by a character it cannot consume, so the match is unique.
   */
  predicate MatchAtAsWritten(s: string, i: nat)
    requires i <= |s|
  {
    WordAt(s, i, "in") && i + 2 < |s| && s[i + 2] == '\\' &&
    var ns := LetterRun(s, i + 3, 's');
    var b1 := i + 3 + ns;
    ns > 0 && b1 < |s| && s[b1] == '\\' &&
    var nd := LetterRun(s, b1 + 1, 'd');
    var b2 := b1 + 1 + nd;
    nd > 0 && b2 < |s| && s[b2] == '\\' &&
    UnitAt(s, b2 + 1 + LetterRun(s, b2 + 1, 's')).Some?
  }

  function AnyMatchAsWritten(s: string, from: nat): (b: bool)
    requires from <= |s|
    ensures b <==> exists k :: from <= k <= |s| && MatchAtAsWritten(s, k)
    decreases |s| - from
  {
    if MatchAtAsWritten(s, from) then true
    else if from == |s| then false
    else AnyMatchAsWritten(s, from + 1)
  }

  /** What `parse_when` as written does: return a time or nothing, or raise from `int()`. */
  datatype Outcome = Returned(when: Option<Time>) | Raised

  /** `parse_when` with the pattern as written: a match always has group 1 = a backslash and letters `d`,
      which `int()` rejects with a `ValueError` that nothing catches. */
  function ParseWhenAsWritten(text: string, now: Time, iso: string -> Option<Time>): Outcome {
    var t := Strip(text);
    if t == [] then Returned(None)
    else if iso(t).Some? then Returned(iso(t))
    else if AnyMatchAsWritten(t, 0) then Raised
    else Returned(None)
  }

  lemma StripKeepsChars(s: string, c: char)
    ensures c in Strip(s) ==> c in s
  {
    var l := TrimLeft(s);
    var r := TrimRight(l);
    assert Strip(s) == r;
    if c in r {
      var k :| 0 <= k < |r| && r[k] == c;
      assert r[k] == l[..|r|][k] == l[k];
      assert l[k] == s[|s| - |l|..][k] == s[|s| - |l| + k];
    }
  }

  /** As written, backslash-free text never yields a relative time: only the ISO branch can produce one. */
  lemma AsWrittenIgnoresRelative(text: string, now: Time, iso: string -> Option<Time>)
    requires '\\' !in text
    ensures ParseWhenAsWritten(text, now, iso) ==
            Returned(if Strip(text) == [] then None else iso(Strip(text)))
  {
    StripKeepsChars(text, '\\');
    var t := Strip(text);
    forall k | 0 <= k <= |t| ensures !MatchAtAsWritten(t, k) {
      if k + 2 < |t| {
        assert t[k + 2] in t;
      }
    }
  }

  lemma FiveMinutesCount()
    ensures DigitRun("in 5 minutes", 3) == 1 && RunValue("in 5 minutes", 3) == 5
  {
    var t := "in 5 minutes";
    assert DigitRun(t, 3) == 1 by { assert DigitRun(t, 4) == 0; }
    assert t[3..4] == "5";
  }

  lemma FiveMinutesUnit()
    ensures UnitAfter("in 5 minutes", 3) == Some(Minutes)
  {
    var t := "in 5 minutes";
    assert DigitRun(t, 3) == 1 by { assert DigitRun(t, 4) == 0; }
    assert SpaceRun(t, 4) == 1 by { assert SpaceRun(t, 5) == 0; }
    assert UnitStart(t, 3) == 5;
    assert WordAt(t, 5, "minute");
  }

  lemma FiveMinutesMatch()
    ensures MatchAt("in 5 minutes", 0) == Some(Relative(5, Minutes))
  {
    var t := "in 5 minutes";
    FiveMinutesCount();
    FiveMinutesUnit();
    assert WordAt(t, 0, "in");
    assert SpaceRun(t, 2) == 1 by { assert SpaceRun(t, 3) == 0; }
    assert CountAt(t, 3) == Some(Relative(5, Minutes));
  }

  /** The discrepancy on "in 5 minutes": as written no time, as intended five minutes ahead. */
  lemma FiveMinutesAsWritten(now: Time, iso: string -> Option<Time>)
    requires iso("in 5 minutes").None?
    ensures ParseWhenAsWritten("in 5 minutes", now, iso) == Returned(None)
    ensures ParseWhen("in 5 minutes", now, iso) == Some(now + 5 * MINUTE)
  {
    var t := "in 5 minutes";
    TrimLeftIdle(t);
    TrimRightIdle(t);
    AsWrittenIgnoresRelative(t, now, iso);
    FiveMinutesMatch();
    LeftmostMatchWinsStripped(t, now, iso, 0, 5, Minutes);
  }
}
