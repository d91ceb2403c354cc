/**
 Periods and counts of the analytics view, frontend/src/features/analytics/periods.ts. Instants are
 milliseconds; an invalid date is None. The local zone has a fixed offset from UTC.
 */
module Periods {
  import opened Common
  import opened StableSort

  type Instant = Option<int>
  type Parser = string -> Instant

  datatype PeriodKey = Today | Week | Month | Custom
  datatype Period = Period(start: Instant, end: Instant)
  datatype Comparison = Comparison(current: Period, previous: Period)

  const DAY: int := 86_400_000

  /** Midnight in the zone: dividing by a positive number rounds down. */
  function StartOfDay(t: int, offset: int): int {
    (t + offset) / DAY * DAY - offset
  }

  function Plus(t: Instant, ms: int): Instant {
    if t.Some? then Some(t.value + ms) else None
  }

  function Midnight(t: Instant, offset: int): Instant {
    if t.Some? then Some(StartOfDay(t.value, offset)) else None
  }

  /** The two dates of a custom period, when both are given. */
  predicate HasDates(custom: Option<(string, string)>) {
    custom.Some? && custom.value.0 != "" && custom.value.1 != ""
  }

  function Current(key: PeriodKey, now: int, custom: Option<(string, string)>, parse: Parser, offset: int): Period {
    if key == Custom && HasDates(custom) then
      Period(Midnight(parse(custom.value.0), offset), Plus(Midnight(parse(custom.value.1), offset), DAY))
    else if key == Today then
      var start := StartOfDay(now, offset);
      Period(Some(start), Some(start + DAY))
    else
      var end := StartOfDay(now, offset) + DAY;
      Period(Some(end - (if key == Week then 7 else 30) * DAY), Some(end))
  }

  function ResolvePeriod(
    key: PeriodKey, now: int, custom: Option<(string, string)>, parse: Parser, offset: int): Comparison
  {
    var p := Current(key, now, custom, parse, offset);
    var before :=
      if p.start.Some? && p.end.Some? then Some(p.start.value - Max(DAY, p.end.value - p.start.value)) else None;
    Comparison(p, Period(before, p.start))
  }

  predicate InPeriod(t: Instant, p: Period) {
    t.Some? && p.start.Some? && p.end.Some? && p.start.value <= t.value < p.end.value
  }

  predicate Valid(p: Period) {
    p.start.Some? && p.end.Some?
  }

  function Length(p: Period): int
    requires Valid(p)
  {
    p.end.value - p.start.value
  }

  /** Like for like: the previous period ends where the current starts, shares no instant with it and is as long. */
  ghost predicate LikeForLike(c: Comparison)
    requires Valid(c.current) && Valid(c.previous)
  {
    && c.previous.end == c.current.start
    && Length(c.previous) == Length(c.current)
    && forall t: int {:trigger Some(t)} :: !(InPeriod(Some(t), c.current) && InPeriod(Some(t), c.previous))
  }

  /** Midnight in the zone: the one instant of the day before the given one that is a whole number of days after local midnight 1970. */
  lemma StartOfDayMeans(t: int, offset: int, midnight: int)
    ensures StartOfDay(t, offset) == midnight <==> midnight <= t < midnight + 86_400_000 && (midnight + offset) % 86_400_000 == 0
  {
    if midnight <= t < midnight + 86_400_000 && (midnight + offset) % 86_400_000 == 0 {
      WholeDays((midnight + offset) / DAY);
    }
  }

  lemma StartOfDayOrder(a: int, b: int, offset: int)
    ensures StartOfDay(a, offset) <= a < StartOfDay(a, offset) + DAY
    ensures a <= b ==> StartOfDay(a, offset) <= StartOfDay(b, offset)
  {
  }

  /** The named periods always compare like for like, over 1, 7 and 30 days up to the end of today. */
  lemma NamedLikeForLike(key: PeriodKey, now: int, custom: Option<(string, string)>, parse: Parser, offset: int)
    requires key != Custom || custom.None? || custom.value.0 == "" || custom.value.1 == ""
    ensures var c := ResolvePeriod(key, now, custom, parse, offset);
            && Valid(c.current) && Valid(c.previous) && LikeForLike(c)
            && InPeriod(Some(now), c.current)
            && c.current.end.value == StartOfDay(now, offset) + 86_400_000
            && Length(c.current) == (if key == Today then 1 else if key == Week then 7 else 30) * DAY
  {
    StartOfDayOrder(now, now, offset);
  }

  /** A custom period is a period exactly when both its dates can be read. */
  lemma CustomValidIff(now: int, from: string, to: string, parse: Parser, offset: int)
    requires from != "" && to != ""
    ensures var c := ResolvePeriod(Custom, now, Some((from, to)), parse, offset);
            && (Valid(c.current) <==> parse(from).Some? && parse(to).Some?)
            && (Valid(c.previous) <==> parse(from).Some? && parse(to).Some?)
  {
  }

  /** A custom period compares like for like exactly when its first day is not after its last. */
  lemma CustomLikeForLikeIff(now: int, from: string, to: string, parse: Parser, offset: int)
    requires from != "" && to != "" && parse(from).Some? && parse(to).Some?
    ensures var c := ResolvePeriod(Custom, now, Some((from, to)), parse, offset);
            && Valid(c.current) && Valid(c.previous)
            && (LikeForLike(c) <==> StartOfDay(parse(from).value, offset) <= StartOfDay(parse(to).value, offset))
            && Length(c.current) % DAY == 0
            && c.current.start.value == StartOfDay(parse(from).value, offset)
            && c.current.end.value == StartOfDay(parse(to).value, offset) + 86_400_000
  {
    var c := ResolvePeriod(Custom, now, Some((from, to)), parse, offset);
    var a, b := (parse(from).value + offset) / DAY, (parse(to).value + offset) / DAY;
    assert Length(c.current) == (b + 1 - a) * DAY;
    WholeDays(b + 1 - a);
  }

  lemma WholeDays(n: int)
    ensures n * DAY % DAY == 0 && n * DAY / DAY == n
    ensures n >= 1 <==> n * DAY >= DAY
  {
  }

  // ---- daily counts ----

  datatype Date = Date(year: int, month: int, day: int)

  predicate IsLeap(year: int) {
    year % 4 == 0 && (year % 100 != 0 || year % 400 == 0)
  }

  function DaysInMonth(year: int, month: int): int {
    if month == 2 then (if IsLeap(year) then 29 else 28)
    else if month == 4 || month == 6 || month == 9 || month == 11 then 30
    else 31
  }

  predicate IsDate(d: Date) {
    1 <= d.month <= 12 && 1 <= d.day <= DaysInMonth(d.year, d.month)
  }

  function NextDay(d: Date): (n: Date)
    requires IsDate(d)
    ensures IsDate(n)
  {
    if d.day < DaysInMonth(d.year, d.month) then d.(day := d.day + 1)
    else if d.month < 12 then Date(d.year, d.month + 1, 1)
    else Date(d.year + 1, 1, 1)
  }

  function DayBefore(d: Date): (n: Date)
    requires IsDate(d)
    ensures IsDate(n)
  {
    if d.day > 1 then d.(day := d.day - 1)
    else if d.month > 1 then Date(d.year, d.month - 1, DaysInMonth(d.year, d.month - 1))
    else Date(d.year - 1, 12, 31)
  }

  lemma DaysInverse(d: Date)
    requires IsDate(d)
    ensures DayBefore(NextDay(d)) == d && NextDay(DayBefore(d)) == d
  {
  }

  /** The calendar date of a day counted from 1 January 1970. */
  function DateOf(day: int): (d: Date)
    ensures IsDate(d)
    decreases if day < 0 then -day else day
  {
    if day == 0 then Date(1970, 1, 1)
    else if day > 0 then NextDay(DateOf(day - 1))
    else DayBefore(DateOf(day + 1))
  }

  function Digit(n: int): char
    requires 0 <= n < 10
  {
    (48 + n) as char
  }

  function TwoDigits(n: int): string
    requires 0 <= n < 100
  {
    [Digit(n / 10), Digit(n % 10)]
  }

  /** What toISOString().slice(5, 10) prints of an instant in the years 0 to 9999. */
  function MonthDay(d: Date): string
    requires IsDate(d)
  {
    TwoDigits(d.month) + ['-'] + TwoDigits(d.day)
  }

  /** The date an instant falls on in UTC, as the code prints it. */
  function Label(t: int): string {
    MonthDay(DateOf(t / DAY))
  }

  /** Counting days and the calendar agree, before 1970 too. */
  lemma NextDate(day: int)
    ensures DateOf(day + 1) == NextDay(DateOf(day))
  {
    if day < 0 {
      DaysInverse(DateOf(day + 1));
    }
  }

  /** Leap days in the years 1970 to year - 1, or less those from year to 1969. */
  function LeapDays(year: int): int {
    (year - 1) / 4 - (year - 1) / 100 + (year - 1) / 400 - 477
  }

  const DAYS_BEFORE: seq<int> := [0, 31, 59, 90, 120, 151, 181, 212, 243, 273, 304, 334]

  /** Days from 1 January 1970, by the Gregorian rule. */
  function DayNumber(d: Date): int
    requires IsDate(d)
  {
    (d.year - 1970) * 365 + LeapDays(d.year) + DAYS_BEFORE[d.month - 1]
    + (if d.month > 2 && d.year % 4 == 0 && (d.year % 100 != 0 || d.year % 400 == 0) then 1 else 0) + d.day - 1
  }

  lemma LeapDaysStep(year: int)
    ensures LeapDays(year + 1) == LeapDays(year) + if IsLeap(year) then 1 else 0
  {
    QuarterStep(year);
    CenturyStep(year);
    CycleStep(year);
  }

  lemma QuarterStep(year: int)
    ensures year / 4 == (year - 1) / 4 + if year % 4 == 0 then 1 else 0
  {
  }

  lemma CenturyStep(year: int)
    ensures year / 100 == (year - 1) / 100 + if year % 100 == 0 then 1 else 0
    ensures year % 100 == 0 ==> year % 4 == 0
  {
  }

  lemma CycleStep(year: int)
    ensures year / 400 == (year - 1) / 400 + if year % 400 == 0 then 1 else 0
    ensures year % 400 == 0 ==> year % 100 == 0
  {
  }

  lemma NextDayNumber(d: Date)
    requires IsDate(d)
    ensures DayNumber(NextDay(d)) == DayNumber(d) + 1
  {
    LeapDaysStep(d.year);
  }

  /** The calendar counts right: the date of a day has that number, before 1970 too. */
  lemma {:induction false} DateNumber(day: int)
    ensures DayNumber(DateOf(day)) == day
    decreases if day < 0 then -day else day
  {
    if day > 0 {
      DateNumber(day - 1);
      NextDayNumber(DateOf(day - 1));
    } else if day < 0 {
      DateNumber(day + 1);
      DaysInverse(DateOf(day + 1));
      NextDayNumber(DateOf(day));
    }
  }

  /** The printed month and day are read back from their digits. */
  lemma PrintedDate(d: Date)
    requires IsDate(d)
    ensures var s := MonthDay(d);
            && |s| == 5 && s[2] == '-'
            && (s[0] as int - 48) * 10 + (s[1] as int - 48) == d.month
            && (s[3] as int - 48) * 10 + (s[4] as int - 48) == d.day
            && forall i :: 0 <= i < 5 && i != 2 ==> '0' <= s[i] <= '9'
  {
  }

  lemma TwoDigitsDiffer(m: int, n: int)
    requires 0 <= m < 100 && 0 <= n < 100 && TwoDigits(m) == TwoDigits(n)
    ensures m == n
  {
    assert TwoDigits(m)[0] == TwoDigits(n)[0] && TwoDigits(m)[1] == TwoDigits(n)[1];
  }

  /** Different dates of a year are printed differently. */
  lemma MonthDayTells(a: Date, b: Date)
    requires IsDate(a) && IsDate(b)
    ensures MonthDay(a) == MonthDay(b) <==> a.month == b.month && a.day == b.day
  {
    if MonthDay(a) == MonthDay(b) {
      assert MonthDay(a)[..2] == TwoDigits(a.month) && MonthDay(b)[..2] == TwoDigits(b.month);
      assert MonthDay(a)[3..] == TwoDigits(a.day) && MonthDay(b)[3..] == TwoDigits(b.day);
      TwoDigitsDiffer(a.month, b.month);
      TwoDigitsDiffer(a.day, b.day);
    }
  }

  /** Neighbouring days are printed differently. */
  lemma NeighboursDiffer(day: int)
    ensures MonthDay(DateOf(day)) != MonthDay(DateOf(day + 1))
  {
    NextDate(day);
    MonthDayTells(DateOf(day), DateOf(day + 1));
  }

  /** A bar, labelled with the date its start falls on in UTC. */
  datatype DayBar = DayBar(name: string, value: int)

  /** Rounding half up. */
  function Rounded(ms: int): int {
    (2 * ms + DAY) / (2 * DAY)
  }

  function Days(p: Period): nat
    requires Valid(p)
  {
    Min(90, Max(1, Rounded(Length(p))))
  }

  /** The number of bars: the length in days, the nearest whole number and the greater of two, between 1 and 90. */
  lemma DaysShown(p: Period)
    requires Valid(p)
    ensures 1 <= Days(p) <= 90
    ensures 1 < Days(p) < 90 ==> (2 * Days(p) - 1) * 43_200_000 <= Length(p) < (2 * Days(p) + 1) * 43_200_000
    ensures Days(p) == 1 <==> Length(p) < 3 * 43_200_000
    ensures Days(p) == 90 <==> Length(p) >= 179 * 43_200_000
  {
  }

  function DayOf(t: int, start: int): int {
    (t - start) / DAY
  }

  /** How many of the rows fall on day i after the start. */
  function CountDay(rows: seq<string>, parse: Parser, start: int, i: int): nat {
    if rows == [] then 0
    else
      var t := parse(rows[|rows| - 1]);
      CountDay(rows[..|rows| - 1], parse, start, i) + if t.Some? && DayOf(t.value, start) == i then 1 else 0
  }

  method DailyCounts(rows: seq<string>, p: Period, parse: Parser) returns (out: seq<DayBar>)
    ensures !Valid(p) ==> out == []
    ensures Valid(p) ==> |out| == Days(p)
    ensures Valid(p) ==> forall i :: 0 <= i < Days(p) ==>
              out[i] == DayBar(Label(p.start.value + i * DAY), CountDay(rows, parse, p.start.value, i))
  {
    if p.start.None? || p.end.None? {
      return [];
    }
    var start := p.start.value;
    var days := Min(90, Max(1, Rounded(p.end.value - start)));
    var names := seq(days, i => Label(start + i * DAY));
    var bars := new DayBar[days](i requires 0 <= i < days => DayBar(names[i], 0));
    for n := 0 to |rows|
      invariant forall i :: 0 <= i < days ==> bars[i] == DayBar(names[i], CountDay(rows[..n], parse, start, i))
    {
      assert rows[..n + 1][..n] == rows[..n];
      var t := parse(rows[n]);
      if t.Some? {
        var idx := (t.value - start) / DAY;
        if 0 <= idx < days {
          bars[idx] := bars[idx].(value := bars[idx].value + 1);
        }
      }
    }
    assert rows[..|rows|] == rows;
    out := bars[..];
  }

  /** Rows whose instant lies in a half-open range. */
  function CountIn(rows: seq<string>, parse: Parser, from: int, to: int): nat {
    if rows == [] then 0
    else
      var t := parse(rows[|rows| - 1]);
      CountIn(rows[..|rows| - 1], parse, from, to) + if t.Some? && from <= t.value < to then 1 else 0
  }

  function SumDays(rows: seq<string>, parse: Parser, start: int, days: nat): nat {
    if days == 0 then 0 else SumDays(rows, parse, start, days - 1) + CountDay(rows, parse, start, days - 1)
  }

  lemma DayIff(t: int, start: int, i: int)
    ensures DayOf(t, start) == i <==> start + i * DAY <= t < start + (i + 1) * DAY
  {
  }

  /** A bar counts the rows of its own day. */
  lemma {:induction false} BarCounts(rows: seq<string>, parse: Parser, start: int, i: int)
    ensures CountDay(rows, parse, start, i) == CountIn(rows, parse, start + i * DAY, start + (i + 1) * DAY)
    decreases |rows|
  {
    if rows != [] {
      BarCounts(rows[..|rows| - 1], parse, start, i);
      var t := parse(rows[|rows| - 1]);
      if t.Some? {
        DayIff(t.value, start, i);
      }
    }
  }

  lemma {:induction false} CountSplit(rows: seq<string>, parse: Parser, a: int, b: int, c: int)
    requires a <= b <= c
    ensures CountIn(rows, parse, a, c) == CountIn(rows, parse, a, b) + CountIn(rows, parse, b, c)
    decreases |rows|
  {
    if rows != [] {
      CountSplit(rows[..|rows| - 1], parse, a, b, c);
    }
  }

  lemma {:induction false} CountEmpty(rows: seq<string>, parse: Parser, a: int)
    ensures CountIn(rows, parse, a, a) == 0
    decreases |rows|
  {
    if rows != [] {
      CountEmpty(rows[..|rows| - 1], parse, a);
    }
  }

  /** The bars together count each row of the days they show once. */
  lemma {:induction false} BarsConserve(rows: seq<string>, parse: Parser, start: int, days: nat)
    ensures SumDays(rows, parse, start, days) == CountIn(rows, parse, start, start + days * DAY)
    decreases days
  {
    if days == 0 {
      CountEmpty(rows, parse, start);
    } else {
      var n := days - 1;
      BarsConserve(rows, parse, start, n);
      BarCounts(rows, parse, start, n);
      assert start + n * DAY + DAY == start + days * DAY;
      CountSplit(rows, parse, start, start + n * DAY, start + days * DAY);
    }
  }

  lemma RoundedWhole(n: int)
    ensures Rounded(n * DAY) == n
  {
    assert 2 * (n * DAY) + DAY == n * (2 * DAY) + DAY;
  }

  /** Over whole days, nothing is lost up to 90 of them; beyond, exactly the rows from day 90 on are. */
  lemma WholePeriodConserves(rows: seq<string>, parse: Parser, p: Period, n: nat)
    requires Valid(p) && n >= 1 && Length(p) == n * DAY
    ensures var start, shown := p.start.value, SumDays(rows, parse, p.start.value, Days(p));
            && (n <= 90 ==> shown == CountIn(rows, parse, start, p.end.value))
            && (n > 90 ==> shown + CountIn(rows, parse, start + 90 * DAY, p.end.value) == CountIn(rows, parse, start, p.end.value))
  {
    var start := p.start.value;
    RoundedWhole(n);
    BarsConserve(rows, parse, start, Days(p));
    if n > 90 {
      assert start + 90 * DAY <= start + n * DAY;
      CountSplit(rows, parse, start, start + 90 * DAY, p.end.value);
    }
  }

  /**
   Labels are printed from UTC days although days start at local midnight: they name the day they count
   exactly when the zone is not east of Greenwich (offsets are less than a day).
   */
  lemma LabelIff(t: int, offset: int, i: nat)
    requires -DAY < offset < DAY
    ensures var start := StartOfDay(t, offset) + i * DAY;
            Label(start) == MonthDay(DateOf((start + offset) / DAY)) <==> offset <= 0
  {
    var k := (t + offset) / DAY + i;
    var start := StartOfDay(t, offset) + i * DAY;
    assert start == k * DAY - offset;
    WholeDays(k);
    LabelOf(k, offset);
  }

  lemma LabelOf(k: int, offset: int)
    requires -DAY < offset < DAY
    ensures Label(k * DAY - offset) == MonthDay(DateOf(k)) <==> offset <= 0
  {
    FloorShift(k, offset);
    NeighboursDiffer(k - 1);
  }

  lemma FloorShift(k: int, offset: int)
    requires -DAY < offset < DAY
    ensures (k * DAY - offset) / DAY == if offset <= 0 then k else k - 1
  {
  }

  // ---- counts by label ----

  datatype Bar = Bar(name: string, value: int)

  function ValueOf(b: Bar): int {
    b.value
  }

  /** A JavaScript Map keeps its entries in the order of first insertion. */
  function Get(m: seq<Bar>, name: string): int {
    if m == [] then 0 else if m[0].name == name then m[0].value else Get(m[1..], name)
  }

  function Put(m: seq<Bar>, name: string, value: int): seq<Bar> {
    if m == [] then [Bar(name, value)]
    else if m[0].name == name then [Bar(name, value)] + m[1..]
    else [m[0]] + Put(m[1..], name, value)
  }

  function Tally<T>(rows: seq<T>, key: T -> string): seq<Bar> {
    if rows == [] then []
    else
      var m, name := Tally(rows[..|rows| - 1], key), key(rows[|rows| - 1]);
      Put(m, name, Get(m, name) + 1)
  }

  method CountBy<T>(rows: seq<T>, key: T -> string) returns (out: seq<Bar>)
    ensures out == SortDesc(Tally(rows, key), ValueOf)
  {
    var m: seq<Bar> := [];
    for n := 0 to |rows|
      invariant m == Tally(rows[..n], key)
    {
      assert rows[..n + 1][..n] == rows[..n];
      m := Put(m, key(rows[n]), Get(m, key(rows[n])) + 1);
    }
    assert rows[..|rows|] == rows;
    out := SortDesc(m, ValueOf);
  }

  function Multiplicity<T>(rows: seq<T>, key: T -> string, name: string): nat {
    if rows == [] then 0
    else Multiplicity(rows[..|rows| - 1], key, name) + if key(rows[|rows| - 1]) == name then 1 else 0
  }

  ghost predicate Unique(m: seq<Bar>) {
    forall i, j :: 0 <= i < j < |m| ==> m[i].name != m[j].name
  }

  function Total(m: seq<Bar>): int {
    if m == [] then 0 else m[0].value + Total(m[1..])
  }

  lemma {:induction false} PutLabels(m: seq<Bar>, name: string, value: int, b: Bar)
    requires b in Put(m, name, value)
    ensures b == Bar(name, value) || b in m
    decreases |m|
  {
    if m != [] && m[0].name != name && b != m[0] {
      PutLabels(m[1..], name, value, b);
    }
  }

  lemma {:induction false} PutUnique(m: seq<Bar>, name: string, value: int)
    requires Unique(m)
    ensures Unique(Put(m, name, value))
    decreases |m|
  {
    if m == [] {
    } else if m[0].name == name {
    } else {
      PutUnique(m[1..], name, value);
      var rest := Put(m[1..], name, value);
      forall j | 0 <= j < |rest| ensures rest[j].name != m[0].name {
        PutLabels(m[1..], name, value, rest[j]);
      }
    }
  }

  lemma {:induction false} PutGet(m: seq<Bar>, name: string, value: int, other: string)
    ensures Get(Put(m, name, value), other) == if other == name then value else Get(m, other)
    decreases |m|
  {
    if m != [] && m[0].name != name {
      PutGet(m[1..], name, value, other);
    }
  }

  lemma {:induction false} PutTotal(m: seq<Bar>, name: string, value: int)
    ensures Total(Put(m, name, value)) == Total(m) - Get(m, name) + value
    decreases |m|
  {
    if m != [] && m[0].name != name {
      PutTotal(m[1..], name, value);
    }
  }

  /** Before sorting: one entry a label, holding its multiplicity. */
  lemma {:induction false} TallyMeans<T>(rows: seq<T>, key: T -> string)
    ensures Unique(Tally(rows, key)) && Total(Tally(rows, key)) == |rows|
    ensures forall name :: Get(Tally(rows, key), name) == Multiplicity(rows, key, name)
    decreases |rows|
  {
    if rows != [] {
      var before, last := rows[..|rows| - 1], key(rows[|rows| - 1]);
      TallyMeans(before, key);
      var m := Tally(before, key);
      PutUnique(m, last, Get(m, last) + 1);
      PutTotal(m, last, Get(m, last) + 1);
      forall name ensures Get(Tally(rows, key), name) == Multiplicity(rows, key, name) {
        PutGet(m, last, Get(m, last) + 1, name);
      }
    }
  }

  lemma {:induction false} GetEntry(m: seq<Bar>, b: Bar)
    requires Unique(m) && b in m
    ensures Get(m, b.name) == b.value
    decreases |m|
  {
    if b != m[0] {
      var i :| 0 < i < |m| && m[i] == b;
      assert b == m[1..][i - 1];
      GetEntry(m[1..], b);
    }
  }

  lemma {:induction false} GetFinds(m: seq<Bar>, name: string)
    requires Get(m, name) != 0
    ensures Bar(name, Get(m, name)) in m
    decreases |m|
  {
    if m[0].name != name {
      GetFinds(m[1..], name);
    }
  }

  lemma {:induction false} OnceEach(m: seq<Bar>, b: Bar)
    requires Unique(m)
    ensures multiset(m)[b] <= 1
    decreases |m|
  {
    if m != [] {
      OnceEach(m[1..], b);
      assert m == [m[0]] + m[1..];
      if m[0] == b {
        assert b !in m[1..];
      }
    }
  }

  lemma TwiceCounts(m: seq<Bar>, i: nat, j: nat)
    requires i < j < |m| && m[i] == m[j]
    ensures multiset(m)[m[j]] >= 2
  {
    assert m == m[..j] + ([m[j]] + m[j + 1..]);
    assert m[i] in m[..j];
  }

  lemma UniqueRearranged(m: seq<Bar>, out: seq<Bar>)
    requires Unique(m) && multiset(out) == multiset(m)
    ensures Unique(out)
  {
    forall i, j | 0 <= i < j < |out| ensures out[i].name != out[j].name {
      assert out[i] in multiset(m) && out[j] in multiset(m);
      if out[i].name == out[j].name {
        GetEntry(m, out[i]);
        GetEntry(m, out[j]);
        TwiceCounts(out, i, j);
        OnceEach(m, out[j]);
      }
    }
  }

  lemma {:induction false} InsertTotal(b: Bar, m: seq<Bar>)
    ensures Total(InsertDesc(b, ValueOf, m)) == b.value + Total(m)
    decreases |m|
  {
    if m != [] && ValueOf(b) < ValueOf(m[0]) {
      InsertTotal(b, m[1..]);
    }
  }

  lemma {:induction false} SortTotal(m: seq<Bar>)
    ensures Total(SortDesc(m, ValueOf)) == Total(m)
    decreases |m|
  {
    if m != [] {
      SortTotal(m[1..]);
      InsertTotal(m[0], SortDesc(m[1..], ValueOf));
    }
  }

  /** The bars name each label that occurs once, with its multiplicity, largest first, and add up to the rows. */
  lemma CountByMeans<T>(rows: seq<T>, key: T -> string, name: string, value: int)
    ensures var out := SortDesc(Tally(rows, key), ValueOf);
            && Unique(out) && Descending(out, ValueOf) && Total(out) == |rows|
            && (value != 0 ==> (Bar(name, value) in out <==> value == Multiplicity(rows, key, name)))
  {
    var m := Tally(rows, key);
    var out := SortDesc(m, ValueOf);
    TallyMeans(rows, key);
    SortDescSorted(m, ValueOf);
    SortTotal(m);
    UniqueRearranged(m, out);
    assert Bar(name, value) in out <==> Bar(name, value) in multiset(m);
    if Bar(name, value) in m {
      GetEntry(m, Bar(name, value));
    } else if value != 0 && value == Multiplicity(rows, key, name) {
      GetFinds(m, name);
    }
  }
}
