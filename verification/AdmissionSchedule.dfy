/** Weekly admission windows: parsing `Mon-Fri@22:00-06:00` and deciding whether a minute of
    the week lies in one, with windows that run past midnight and past the end of the week. */
module AdmissionSchedule {
  import opened Digits
  import opened Options

  const DAY := 1440
  const WEEK := 10080

  /** `days` holds the weekdays whose bit is set in the mask, Sunday being zero. */
  datatype AdmissionWindow = AdmissionWindow(days: set<nat>, start: int, end: int)
  {
    predicate WellFormed() {
      0 <= start < DAY && 0 <= end <= DAY && start != end && forall d :: d in days ==> d < 7
    }

    function Length(): int {
      if start < end then end - start else end + DAY - start
    }

    /** The minute of the week that lies `offset` minutes after the window opens on day `d`. */
    function At(d: nat, offset: int): int {
      (d * DAY + start + offset) % WEEK
    }

    /** The window as a set of minutes of the week, without looking at the clock's day. */
    ghost predicate Covers(minuteOfWeek: int) {
      exists d: nat, offset :: d in days && 0 <= offset < Length() && At(d, offset) == minuteOfWeek
    }
  }

  // ---------------------------------------------------------------------------------
  // Clock times.

  function Format(minute: int): string
    requires 0 <= minute <= DAY
  {
    var h, m := minute / 60, minute % 60;
    [Digit(h / 10), Digit(h % 10), ':', Digit(m / 10), Digit(m % 10)]
  }

  /** Two decimal digits; the caller has checked the first one. */
  function Atoi2(s: string): Option<int>
    requires |s| == 2 && IsDigit(s[0])
  {
    if IsDigit(s[1]) then Some((s[0] as int - '0' as int) * 10 + (s[1] as int - '0' as int)) else None
  }

  function ParseMinute(value: string, allowEndOfDay: bool): Option<int> {
    if allowEndOfDay && value == "24:00" then Some(24 * 60)
    else if |value| != 5 || value[2] != ':' || !IsDigit(value[0]) || !IsDigit(value[3]) then None
    else
      var hour, minute := Atoi2(value[..2]), Atoi2(value[3..]);
      if hour.None? || minute.None? || hour.value > 23 || minute.value > 59 then None
      else Some(hour.value * 60 + minute.value)
  }

  lemma DigitsInvert(c: char, n: int)
    requires 0 <= n < 10
    ensures Digit(n) == c <==> IsDigit(c) && c as int - '0' as int == n
  {
    assert Digit(n) as int - '0' as int == n;
  }

  /** Parsing accepts exactly the canonical clock times, and inverts their formatting; the
      end of the day is only accepted where a window ends. */
  lemma ParseMinuteInvertsFormat(value: string, allowEndOfDay: bool, m: int)
    requires 0 <= m <= DAY
    ensures ParseMinute(value, allowEndOfDay) == Some(m) <==> value == Format(m) && (m < DAY || allowEndOfDay)
    ensures ParseMinute(value, allowEndOfDay).Some? ==> 0 <= ParseMinute(value, allowEndOfDay).value <= DAY
  {
    var h, n := m / 60, m % 60;
    assert Format(DAY) == "24:00";
    if |value| == 5 {
      DigitsInvert(value[0], h / 10);
      DigitsInvert(value[1], h % 10);
      DigitsInvert(value[3], n / 10);
      DigitsInvert(value[4], n % 10);
      assert value == [value[0], value[1], value[2], value[3], value[4]];
    }
  }

  // ---------------------------------------------------------------------------------
  // Weekdays.

  function DayNamed(name: string): Option<nat> {
    if name == "sun" then Some(0) else if name == "mon" then Some(1) else if name == "tue" then Some(2)
    else if name == "wed" then Some(3) else if name == "thu" then Some(4) else if name == "fri" then Some(5)
    else if name == "sat" then Some(6) else None
  }

  /** Two letters outside ASCII have a lower case inside it: the dotted capital I and the
      Kelvin sign. */
  function Lower(c: char): char {
    if 'A' <= c <= 'Z' then (c as int + 32) as char
    else if c == '\U{0130}' then 'i'
    else if c == '\U{212A}' then 'k'
    else c
  }

  function ToLower(s: string): string {
    seq(|s|, i requires 0 <= i < |s| => Lower(s[i]))
  }

  /** The days met when walking from `first` to `last` around the week. */
  predicate InRange(first: nat, last: nat, day: nat) {
    day < 7 && StepsFrom(first, day) <= StepsFrom(first, last)
  }

  function StepsFrom(first: nat, day: nat): int {
    if day >= first then day - first else day + 7 - first
  }

  /** Splits at the first separator. */
  function Cut(s: string, sep: char): (string, string, bool)
    decreases |s|
  {
    if s == [] then ("", "", false)
    else if s[0] == sep then ("", s[1..], true)
    else
      var (before, after, found) := Cut(s[1..], sep);
      ([s[0]] + before, after, found)
  }

  lemma {:induction false} CutJoins(s: string, sep: char)
    ensures var (before, after, found) := Cut(s, sep);
            && sep !in before
            && s == if found then before + [sep] + after else before
    decreases |s|
  {
    if s != [] && s[0] != sep {
      CutJoins(s[1..], sep);
      assert s == [s[0]] + s[1..];
    }
  }

  lemma {:induction false} CutAtSeparator(before: string, sep: char, after: string)
    requires sep !in before
    ensures Cut(before + [sep] + after, sep) == (before, after, true)
    decreases |before|
  {
    var s := before + [sep] + after;
    if before == [] {
      assert s == [sep] + after && s[1..] == after;
    } else {
      CutAtSeparator(before[1..], sep, after);
      assert s[0] == before[0] && s[1..] == before[1..] + [sep] + after;
      assert [before[0]] + before[1..] == before;
    }
  }

  /** The weekdays that a day specification stands for. */
  function DaysOf(value: string): Option<set<nat>> {
    if value == "*" then Some({0, 1, 2, 3, 4, 5, 6})
    else
      var (first, last, isRange) := Cut(ToLower(value), '-');
      var start, end := DayNamed(first), DayNamed(if isRange then last else first);
      if start.None? || end.None? then None
      else Some(set d: nat | d < 7 && InRange(start.value, end.value, d))
  }

  const WEEKDAYS := ["sun", "mon", "tue", "wed", "thu", "fri", "sat"]

  /** The same word, each letter in either case; the dotted capital I is one of an i. */
  predicate Spells(word: string, name: string) {
    && |word| == |name|
    && forall i :: 0 <= i < |name| ==>
         || word[i] == name[i] || word[i] as int + 32 == name[i] as int
         || (word[i] == '\U{0130}' && name[i] == 'i')
  }

  lemma SpelledIsLowered(word: string, d: nat)
    requires d < 7 && Spells(word, WEEKDAYS[d])
    ensures ToLower(word) == WEEKDAYS[d] && '-' !in ToLower(word) && '@' !in word && word != "*"
  {
    assert |WEEKDAYS[d]| == 3;
    assert forall i :: 0 <= i < 3 ==> 'a' <= WEEKDAYS[d][i] <= 'z';
  }

  lemma WeekdayIsNamed(d: nat)
    requires d < 7
    ensures DayNamed(WEEKDAYS[d]) == Some(d)
  {
  }

  lemma EveryDayIsRead(d: nat)
    ensures DaysOf("*").Some? && (d in DaysOf("*").value <==> d < 7)
  {
  }

  lemma OneDayIsRead(word: string, d: nat)
    requires word != "*" && '-' !in ToLower(word) && DayNamed(ToLower(word)) == Some(d) && d < 7
    ensures DaysOf(word) == Some({d})
  {
    CutWithout(ToLower(word), '-');
    assert (set n: nat | n < 7 && InRange(d, d, n)) == {d};
  }

  /** Every spelling of a weekday stands for that day, Sunday being zero. */
  lemma WeekdayIsRead(word: string, d: nat)
    requires d < 7 && Spells(word, WEEKDAYS[d])
    ensures DaysOf(word) == Some({d})
  {
    SpelledIsLowered(word, d);
    WeekdayIsNamed(d);
    OneDayIsRead(word, d);
  }

  /** Day `d` is reached from `a` before the walk around the week passes `b`. */
  predicate Between(a: nat, d: nat, b: nat) {
    d < 7 && (d + 7 - a) % 7 <= (b + 7 - a) % 7
  }

  lemma WalkIsBetween(a: nat, d: nat, b: nat)
    requires a < 7 && b < 7
    ensures InRange(a, b, d) <==> Between(a, d, b)
  {
  }

  /** And a range for the days from the first to the last, around the end of the week. */
  lemma WeekdayRangeIsRead(first: string, last: string, a: nat, b: nat)
    requires a < 7 && b < 7 && Spells(first, WEEKDAYS[a]) && Spells(last, WEEKDAYS[b])
    ensures var days := DaysOf(first + "-" + last); days.Some? && forall d :: d in days.value <==> Between(a, d, b)
  {
    SpelledIsLowered(first, a);
    SpelledIsLowered(last, b);
    WeekdayIsNamed(a);
    WeekdayIsNamed(b);
    assert ToLower(first + "-" + last) == ToLower(first) + ['-'] + ToLower(last);
    CutAtSeparator(ToLower(first), '-', ToLower(last));
    forall d ensures InRange(a, b, d) <==> Between(a, d, b) {
      WalkIsBetween(a, d, b);
    }
  }

  lemma {:induction false} CutWithout(s: string, sep: char)
    requires sep !in s
    ensures Cut(s, sep) == (s, "", false)
    decreases |s|
  {
    if s != [] {
      CutWithout(s[1..], sep);
      assert [s[0]] + s[1..] == s;
    }
  }

  method ParseDays(value: string) returns (days: Option<set<nat>>)
    ensures days == DaysOf(value)
  {
    if value == "*" {
      return Some({0, 1, 2, 3, 4, 5, 6});
    }
    var (first, last, isRange) := Cut(ToLower(value), '-');
    var start := DayNamed(first);
    if start.None? {
      return None;
    }
    var end := start;
    if isRange {
      end := DayNamed(last);
      if end.None? {
        return None;
      }
    }
    var mask := WalkDays(start.value, end.value);
    assert mask == (set d: nat | d < 7 && InRange(start.value, end.value, d));
    return Some(mask);
  }

  method WalkDays(start: nat, end: nat) returns (mask: set<nat>)
    requires start < 7 && end < 7
    ensures forall d :: d in mask <==> InRange(start, end, d)
  {
    mask := {};
    var day := start;
    while true
      invariant day < 7 && StepsFrom(start, day) <= StepsFrom(start, end)
      invariant forall d :: d in mask <==> d < 7 && StepsFrom(start, d) < StepsFrom(start, day)
      decreases StepsFrom(start, end) - StepsFrom(start, day)
    {
      mask := mask + {day};
      if day == end {
        return;
      }
      day := (day + 1) % 7;
    }
  }

  /** The window that an entry stands for, if it is one. */
  function WindowOf(entry: string): Option<AdmissionWindow> {
    var (before, after, found) := Cut(entry, '@');
    var days := DaysOf(if found then before else "*");
    var (from, to, dashed) := Cut(if found then after else entry, '-');
    var start, end := ParseMinute(from, false), ParseMinute(to, true);
    if days.None? || !dashed || start.None? || end.None? || start == end then None
    else Some(AdmissionWindow(days.value, start.value, end.value))
  }

  method ParseWindow(entry: string) returns (window: Option<AdmissionWindow>)
    ensures window == WindowOf(entry)
  {
    var (days, hours, ok) := Cut(entry, '@');
    if !ok {
      days, hours := "*", entry;
    }
    var mask := ParseDays(days);
    if mask.None? {
      return None;
    }
    var (startText, endText, dashed) := Cut(hours, '-');
    if !dashed {
      return None;
    }
    var start := ParseMinute(startText, false);
    if start.None? {
      return None;
    }
    var end := ParseMinute(endText, true);
    if end.None? || start == end {
      return None;
    }
    return Some(AdmissionWindow(mask.value, start.value, end.value));
  }

  lemma ParsedWindowsAreWellFormed(entry: string)
    requires WindowOf(entry).Some?
    ensures WindowOf(entry).value.WellFormed()
  {
    var (before, after, found) := Cut(entry, '@');
    var (from, to, dashed) := Cut(if found then after else entry, '-');
    ParseMinuteInvertsFormat(from, false, DAY);
    ParseMinuteInvertsFormat(to, true, DAY);
  }

  /** Writing a window down and parsing it gives the window back: for every day
      specification, every start before midnight and every other end up to 24:00. */
  lemma WindowRoundTrip(days: string, start: int, end: int)
    requires DaysOf(days).Some? && '@' !in days && 0 <= start < DAY && 0 <= end <= DAY && start != end
    ensures WindowOf(days + "@" + Format(start) + "-" + Format(end))
            == Some(AdmissionWindow(DaysOf(days).value, start, end))
  {
    var hours := Format(start) + "-" + Format(end);
    assert days + "@" + Format(start) + "-" + Format(end) == days + ['@'] + hours;
    CutAtSeparator(days, '@', hours);
    forall i | 0 <= i < 5 ensures Format(start)[i] != '-' {
      assert forall n :: 0 <= n < 10 ==> Digit(n) != '-';
    }
    CutAtSeparator(Format(start), '-', Format(end));
    ParseMinuteInvertsFormat(Format(start), false, start);
    ParseMinuteInvertsFormat(Format(end), true, end);
  }

  // ---------------------------------------------------------------------------------
  // Admission.

  predicate Includes(w: AdmissionWindow, day: nat, minute: nat) {
    if w.start < w.end then day in w.days && w.start <= minute < w.end
    else (day in w.days && minute >= w.start) || ((day + 6) % 7 in w.days && minute < w.end)
  }

  lemma WrapsOnce(x: int, now: int)
    requires 0 <= x < 2 * WEEK && x % WEEK == now
    ensures x == now || x == now + WEEK
  {
  }

  /** A window that is open at a minute has opened on that day or on the day before. */
  lemma OpenedTodayOrYesterday(d: nat, after: int, day: nat, minute: nat)
    requires d < 7 && day < 7 && minute < DAY && 0 <= after < 2 * DAY
    requires d * DAY + after == day * DAY + minute || d * DAY + after == day * DAY + minute + WEEK
    ensures (d == day && after == minute) || ((day + 6) % 7 == d && after == minute + DAY)
  {
  }

  lemma CoveredIsIncluded(w: AdmissionWindow, day: nat, minute: nat)
    requires w.WellFormed() && day < 7 && minute < DAY && w.Covers(day * DAY + minute)
    ensures Includes(w, day, minute)
  {
    var now := day * DAY + minute;
    var d: nat, offset :| d in w.days && 0 <= offset < w.Length() && w.At(d, offset) == now;
    assert w.Length() <= DAY;
    WrapsOnce(d * DAY + w.start + offset, now);
    OpenedTodayOrYesterday(d, w.start + offset, day, minute);
  }

  /** Looking at the clock's day and the day before it decides exactly whether the minute of
      the week lies in the window, also across the end of the week. */
  lemma IncludesIsCovers(w: AdmissionWindow, day: nat, minute: nat)
    requires w.WellFormed() && day < 7 && minute < DAY
    ensures Includes(w, day, minute) <==> w.Covers(day * DAY + minute)
  {
    if Includes(w, day, minute) {
      var now := day * DAY + minute;
      if day in w.days && minute >= w.start && (w.start < w.end ==> minute < w.end) {
        assert w.At(day, minute - w.start) == now;
      } else {
        assert w.At((day + 6) % 7, minute + DAY - w.start) == now;
      }
    }
    if w.Covers(day * DAY + minute) {
      CoveredIsIncluded(w, day, minute);
    }
  }

  /** All entries, or nothing if one of them cannot be read. */
  method ParseSchedule(entries: seq<string>) returns (windows: Option<seq<AdmissionWindow>>)
    ensures windows.Some? <==> forall i :: 0 <= i < |entries| ==> WindowOf(entries[i]).Some?
    ensures windows.Some? ==>
              && |windows.value| == |entries|
              && forall i :: 0 <= i < |entries| ==>
                   WindowOf(entries[i]) == Some(windows.value[i]) && windows.value[i].WellFormed()
  {
    var parsed: seq<AdmissionWindow> := [];
    for i := 0 to |entries|
      invariant |parsed| == i
      invariant forall j :: 0 <= j < i ==> WindowOf(entries[j]) == Some(parsed[j]) && parsed[j].WellFormed()
    {
      var window := ParseWindow(entries[i]);
      if window.None? {
        return None;
      }
      ParsedWindowsAreWellFormed(entries[i]);
      parsed := parsed + [window.value];
    }
    return Some(parsed);
  }

  method InSomeWindow(windows: seq<AdmissionWindow>, day: nat, minute: nat) returns (found: bool)
    requires day < 7 && minute < DAY && forall w :: w in windows ==> w.WellFormed()
    ensures found <==> exists i :: 0 <= i < |windows| && windows[i].Covers(day * DAY + minute)
  {
    for i := 0 to |windows|
      invariant forall j :: 0 <= j < i ==> !windows[j].Covers(day * DAY + minute)
    {
      IncludesIsCovers(windows[i], day, minute);
      if Includes(windows[i], day, minute) {
        return true;
      }
    }
    return false;
  }

  datatype Period = Period(startAfter: int, stopAfter: int)

  /** The admission policy; `entries` are the configured windows without surrounding blanks,
      `zoneKnown` says that the time zone exists, and `elapsed` is the time since midnight.
      With windows it is membership in the union of their weekly intervals; one unreadable
      entry, or a daily period beside them, closes admission. */
  method AdmissionAllowedAt(entries: seq<string>, zoneKnown: bool, period: Option<Period>,
                            day: nat, minute: nat, elapsed: int)
    returns (allowed: bool)
    requires day < 7 && minute < DAY
    ensures entries != [] ==>
              (allowed <==> zoneKnown && (period.Some? ==> period.value.startAfter == 0 == period.value.stopAfter)
                            && (forall i :: 0 <= i < |entries| ==> WindowOf(entries[i]).Some?)
                            && exists i :: 0 <= i < |entries| && WindowOf(entries[i]).value.Covers(day * DAY + minute))
    ensures entries == [] ==>
              (allowed <==> || period.None? || (period.value.startAfter == 0 && period.value.stopAfter == 0)
                            || period.value.startAfter <= elapsed <= period.value.stopAfter)
  {
    if entries == [] {
      if Configured(period) {
        return elapsed >= period.value.startAfter && elapsed <= period.value.stopAfter;
      }
      return true;
    }
    if !zoneKnown {
      return false;
    }
    var parsed := ParseSchedule(entries);
    if parsed.None? || Configured(period) {
      return false;
    }
    allowed := InSomeWindow(parsed.value, day, minute);
  }

  predicate Configured(period: Option<Period>) {
    period.Some? && (period.value.startAfter != 0 || period.value.stopAfter != 0)
  }
}
