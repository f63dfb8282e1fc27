/** `LunarEventsService.parseLunarEvents`: turns lines `d/m: name` into anniversary
    entries, converts each lunar day to this year's solar date, counts the days left
    from today (moving an occurrence more than 200 days past into next year), labels
    the count and sorts the entries by it. */
module LunarEvents {
  import opened Text
  import opened Values
  import opened Dates
  import opened Sorting

  /** What `lunarToSolar` gives back: `{ solarDay, solarMonth }`, the month 1-based. */
  datatype SolarDay = SolarDay(solarDay: int, solarMonth: int)

  /** `lunarToSolar({ year, month, day })`; its calendar tables are not part of this
      model. Month and day are `parseInt` results, `None` standing for NaN. */
  type Converter = (int, Option<int>, Option<int>) -> SolarDay

  /** One parsed entry. */
  datatype LunarEvent = LunarEvent(
    date: string,
    lunarDate: string,
    solarDate: string,
    eventName: string,
    daysLeft: int,
    daysText: string)

  // ---------------------------------------------------------------- parseInt

  predicate IsHexDigit(c: char) {
    IsDigit(c) || 'a' <= c <= 'f' || 'A' <= c <= 'F'
  }

  function HexDigitValue(c: char): (v: nat)
    requires IsHexDigit(c)
    ensures v < 16
  {
    if IsDigit(c) then c as int - 48
    else if 'a' <= c <= 'f' then c as int - 87
    else c as int - 55
  }

  /** The value of a string of hexadecimal digits. */
  function HexValue(s: string): nat
    requires forall i :: 0 <= i < |s| ==> IsHexDigit(s[i])
  {
    if s == [] then 0 else HexValue(s[..|s| - 1]) * 16 + HexDigitValue(s[|s| - 1])
  }

  /** `parseInt(s)` without a radix: leading whitespace is skipped, then an optional
      sign; a `0x`/`0X` prefix switches to hexadecimal; the longest run of digits that
      follows is the value, and no digit at all is NaN (`None`). */
  function ParseInt(s: string): Option<int> {
    var t := TrimStart(s);
    var negative := t != [] && t[0] == '-';
    var body := if t != [] && (t[0] == '-' || t[0] == '+') then t[1..] else t;
    var magnitude: Option<int> :=
      if |body| >= 2 && body[0] == '0' && (body[1] == 'x' || body[1] == 'X') then
        var h := LeadingRun(body[2..], IsHexDigit);
        if h == [] then None else Some(HexValue(h))
      else
        var d := LeadingRun(body, IsDigit);
        if d == [] then None else Some(DigitsValue(d));
    match magnitude
    case None => None
    case Some(v) => Some(if negative then -v else v)
  }

  /** `parseInt` reads a decimal numeral back and stops at the first character that
      cannot continue it; only a lone `0` followed by `x` or `X` reads as hexadecimal. */
  lemma ParseIntPrefix(n: nat, rest: string)
    requires rest == [] || (!IsDigit(rest[0]) && !(n == 0 && (rest[0] == 'x' || rest[0] == 'X')))
    ensures ParseInt(NatToString(n) + rest) == Some(n)
  {
    var s := NatToString(n);
    var t := s + rest;
    assert t[0] == s[0] && !IsSpace(t[0]);
    assert TrimStart(t) == t;
    assert t[0] != '-' && t[0] != '+';
    if |t| >= 2 && t[0] == '0' {
      assert |s| == 1;
      assert t[1] == rest[0];
    }
    LeadingRunConcat(s, rest, IsDigit);
    DigitsRoundTrip(n);
  }

  lemma ParseIntNumeral(n: nat)
    ensures ParseInt(NatToString(n)) == Some(n)
  {
    ParseIntPrefix(n, []);
    assert NatToString(n) + [] == NatToString(n);
  }

  /** `${v}` for a `parseInt` result. */
  function Show(v: Option<int>): string {
    match v
    case None => "NaN"
    case Some(n) => IntToString(n)
  }

  // ---------------------------------------------------------------- days left

  /** `new Date(year, solarMonth - 1, solarDay)` */
  function Occurrence(year: int, s: SolarDay): Date {
    MakeDate(year, s.solarMonth - 1, s.solarDay)
  }

  /** Days from today's midnight to this year's occurrence, or to next year's when this
      year's lies more than 200 days back. */
  function DaysLeft(today: Date, s: SolarDay): int
    requires ValidDate(today)
  {
    var d := DayNumber(Occurrence(today.year, s)) - DayNumber(today);
    if d < -200 then DayNumber(Occurrence(today.year + 1, s)) - DayNumber(today) else d
  }

  /** A converter result that is a day of the calendar year. */
  predicate InRange(s: SolarDay) {
    1 <= s.solarMonth <= 12 && s.solarDay >= 1
  }

  /** Next year's occurrence of a date in range falls on or after next 1 January. */
  lemma NextYearOccurrence(y: int, s: SolarDay)
    requires InRange(s)
    ensures DayNumber(Occurrence(y + 1, s)) >= DaysBeforeYear(y + 1)
  {
    var m := s.solarMonth - 1;
    assert m / 12 == 0 && m % 12 == m;
    MakeDateDayNumber(y + 1, m, s.solarDay);
    DaysBeforeYearMonotone(y + 1, JsYear(y + 1));
  }

  /** For a month in range and a positive day, no entry lies more than 200 days back,
      and a moved occurrence lies ahead of today. */
  lemma DaysLeftBound(today: Date, s: SolarDay)
    requires ValidDate(today) && InRange(s)
    ensures DaysLeft(today, s) >= -200
    ensures DayNumber(Occurrence(today.year, s)) - DayNumber(today) < -200 ==> DaysLeft(today, s) > 0
  {
    NextYearOccurrence(today.year, s);
    DayNumberInYear(today);
  }

  /** The label for `daysLeft`. */
  function DaysText(n: int): string {
    if n == 0 then "Hôm nay"
    else if n == 1 then "Ngày mai"
    else if n > 1 then "Cách " + IntToString(n) + " ngày"
    else "Đã qua " + IntToString(-n) + " ngày"
  }

  /** Past occurrences, and only they, are labelled `Đã qua …`. */
  lemma DaysTextPast(n: int)
    ensures n < 0 <==> StartsWith(DaysText(n), "Đã qua ")
  {
    var l := DaysText(n);
    if n >= 0 {
      assert l[0] != 'Đ';
    }
  }

  /** The first letter tells the four kinds of label apart. */
  lemma DaysTextHead(n: int)
    ensures DaysText(n)[0] == (if n == 0 then 'H' else if n == 1 then 'N' else if n > 1 then 'C' else 'Đ')
  {
  }

  lemma AheadInjective(a: int, b: int)
    requires a > 1 && b > 1 && DaysText(a) == DaysText(b)
    ensures a == b
  {
    var la, lb := DaysText(a), DaysText(b);
    assert la[5..|la| - 5] == NatToString(a);
    assert lb[5..|lb| - 5] == NatToString(b);
    NatToStringInjective(a, b);
  }

  lemma BackInjective(a: int, b: int)
    requires a < 0 && b < 0 && DaysText(a) == DaysText(b)
    ensures a == b
  {
    var la, lb := DaysText(a), DaysText(b);
    assert la[7..|la| - 5] == NatToString(-a);
    assert lb[7..|lb| - 5] == NatToString(-b);
    NatToStringInjective(-a, -b);
  }

  /** Distinct counts get distinct labels. */
  lemma DaysTextInjective(a: int, b: int)
    requires DaysText(a) == DaysText(b)
    ensures a == b
  {
    DaysTextHead(a);
    DaysTextHead(b);
    if a > 1 && b > 1 {
      AheadInjective(a, b);
    } else if a < 0 && b < 0 {
      BackInjective(a, b);
    }
  }

  // ---------------------------------------------------------------- lines

  /** `parts.map(p => p.trim())` */
  function TrimAll(parts: seq<string>): (r: seq<string>)
    ensures |r| == |parts|
    ensures forall k :: 0 <= k < |r| ==> r[k] == Trim(parts[k])
  {
    seq(|parts|, k requires 0 <= k < |parts| => Trim(parts[k]))
  }

  /** `${solarDay}/${solarMonth}` */
  function ShowSolar(s: SolarDay): string {
    IntToString(s.solarDay) + "/" + IntToString(s.solarMonth)
  }

  /** The day text, the month text and the name of a line, or `None` where the source
      maps the line to `null`: fewer than two `:`-fields, or a date field that is not
      two `/`-pieces. */
  function LinePieces(line: string): Option<(string, string, string)> {
    var parts := TrimAll(Split(line, ':'));
    if |parts| < 2 then None
    else
      var dateParts := Split(parts[0], '/');
      if |dateParts| != 2 then None
      else Some((dateParts[0], dateParts[1], parts[1]))
  }

  /** The entry for lunar day `day` of month `month` named `name`. */
  function Entry(day: Option<int>, month: Option<int>, name: string, today: Date, convert: Converter): LunarEvent
    requires ValidDate(today)
  {
    var solar := convert(today.year, month, day);
    var daysLeft := DaysLeft(today, solar);
    LunarEvent(
      Show(day) + "/" + Show(month),
      Show(day) + "/" + Show(month),
      ShowSolar(solar),
      name,
      daysLeft,
      DaysText(daysLeft))
  }

  /** The entry for one line, or `None` for a line the source maps to `null`. */
  function ParseLine(line: string, today: Date, convert: Converter): Option<LunarEvent>
    requires ValidDate(today)
  {
    match LinePieces(line)
    case None => None
    case Some(p) => Some(Entry(ParseInt(p.0), ParseInt(p.1), p.2, today, convert))
  }

  lemma PiecesAccepted(line: string)
    ensures LinePieces(line).Some? <==> ':' in line && Count(line[..IndexOfChar(line, ':')], '/') == 1
  {
    var pieces := Split(line, ':');
    SplitFirst(line, ':');
    if ':' in line {
      var first := line[..IndexOfChar(line, ':')];
      assert pieces[0] == first;
      assert |pieces| >= 2;
      SplitCount(Trim(first), '/');
      CountTrim(first, '/');
    } else {
      assert |pieces| == 1;
    }
  }

  /** A line gives an entry exactly when it holds a `:` and the text before the first
      `:` holds exactly one `/`. */
  lemma LineAccepted(line: string, today: Date, convert: Converter)
    requires ValidDate(today)
    ensures ParseLine(line, today, convert).Some?
        <==> ':' in line && Count(line[..IndexOfChar(line, ':')], '/') == 1
  {
    PiecesAccepted(line);
  }

  /** Only the first two `:`-fields of a line matter. */
  lemma SameFirstFields(l1: string, l2: string)
    requires |Split(l1, ':')| >= 2 && |Split(l2, ':')| >= 2
    requires Split(l1, ':')[..2] == Split(l2, ':')[..2]
    ensures LinePieces(l1) == LinePieces(l2)
  {
    assert Split(l1, ':')[0] == Split(l1, ':')[..2][0];
    assert Split(l1, ':')[1] == Split(l1, ':')[..2][1];
  }

  lemma LongSplit(a: string, b: string, c: string)
    requires ':' !in a && ':' !in b
    ensures |Split(a + ":" + b + ":" + c, ':')| >= 2
    ensures Split(a + ":" + b + ":" + c, ':')[..2] == [a, b]
  {
    SplitTwoCons(a, b, c, ':');
    assert ([a, b] + Split(c, ':'))[..2] == [a, b];
  }

  lemma ShortSplit(a: string, b: string)
    requires ':' !in a && ':' !in b
    ensures Split(a + ":" + b, ':') == [a, b]
  {
    assert a + ":" + b == a + [':'] + b;
    SplitTwo(a, b, ':');
  }

  lemma ExtraPiecesDropped(a: string, b: string, c: string)
    requires ':' !in a && ':' !in b
    ensures LinePieces(a + ":" + b + ":" + c) == LinePieces(a + ":" + b)
  {
    LongSplit(a, b, c);
    ShortSplit(a, b);
    assert [a, b][..2] == [a, b];
    SameFirstFields(a + ":" + b + ":" + c, a + ":" + b);
  }

  /** Whatever follows a second `:` is dropped. */
  lemma ExtraFieldsDropped(a: string, b: string, c: string, today: Date, convert: Converter)
    requires ValidDate(today)
    requires ':' !in a && ':' !in b
    ensures ParseLine(a + ":" + b + ":" + c, today, convert) == ParseLine(a + ":" + b, today, convert)
  {
    ExtraPiecesDropped(a, b, c);
  }

  /** The pieces of a line follow from how it splits. */
  lemma PiecesFromSplits(line: string, dm: string, name: string, ds: string, ms: string)
    requires Split(line, ':') == [dm, name]
    requires Trim(dm) == dm
    requires Split(dm, '/') == [ds, ms]
    ensures LinePieces(line) == Some((ds, ms, Trim(name)))
  {
  }

  lemma PiecesOfFields(ds: string, ms: string, name: string)
    requires ':' !in ds && ':' !in ms && ':' !in name && '/' !in ds && '/' !in ms
    requires |ds| >= 1 && |ms| >= 1 && !IsSpace(ds[0]) && !IsSpace(ms[|ms| - 1])
    ensures LinePieces(ds + "/" + ms + ":" + name) == Some((ds, ms, Trim(name)))
  {
    var dm := ds + "/" + ms;
    var line := dm + ":" + name;
    assert Split(line, ':') == [dm, name] by {
      assert ':' !in dm;
      assert line == dm + [':'] + name;
      SplitTwo(dm, name, ':');
    }
    assert Trim(dm) == dm by {
      assert dm[0] == ds[0] && dm[|dm| - 1] == ms[|ms| - 1];
      TrimUnchanged(dm);
    }
    assert Split(dm, '/') == [ds, ms] by {
      assert dm == ds + ['/'] + ms;
      SplitTwo(ds, ms, '/');
    }
    PiecesFromSplits(line, dm, name, ds, ms);
  }

  /** A well-formed line `d/m:name` gives the entry for lunar day `d` of month `m`:
      both dates read `d/m`, the name is trimmed, and the converter is asked for day
      `d` of month `m` of today's year. */
  lemma LineRoundTrip(d: nat, m: nat, name: string, today: Date, convert: Converter)
    requires ValidDate(today)
    requires ':' !in name
    ensures var e := ParseLine(NatToString(d) + "/" + NatToString(m) + ":" + name, today, convert);
      var solar := convert(today.year, Some(m), Some(d));
      e.Some?
      && e.value.date == NatToString(d) + "/" + NatToString(m)
      && e.value.lunarDate == e.value.date
      && e.value.eventName == Trim(name)
      && e.value.solarDate == ShowSolar(solar)
      && e.value.daysLeft == DaysLeft(today, solar)
      && e.value.daysText == DaysText(e.value.daysLeft)
  {
    var ds, ms := NatToString(d), NatToString(m);
    assert ':' !in ds && ':' !in ms && '/' !in ds && '/' !in ms;
    PiecesOfFields(ds, ms, name);
    ParseIntNumeral(d);
    ParseIntNumeral(m);
  }

  // ---------------------------------------------------------------- the whole text

  /** The non-blank lines of the text. */
  function Lines(text: string): seq<string> {
    NonBlank(Split(text, '\n'))
  }

  /** The entries of the lines, in line order, with the `null`s filtered out. */
  function Entries(lines: seq<string>, today: Date, convert: Converter): (r: seq<LunarEvent>)
    requires ValidDate(today)
    ensures |r| <= |lines|
  {
    if lines == [] then []
    else
      var e := ParseLine(lines[0], today, convert);
      (if e.Some? then [e.value] else []) + Entries(lines[1..], today, convert)
  }

  function DaysLeftOf(e: LunarEvent): int {
    e.daysLeft
  }

  /** The result of `parseLunarEvents(text)` on the day `today`. The early return on a
      blank text agrees with the general path: every line of a blank text is blank. */
  function ParseLunarEvents(text: string, today: Date, convert: Converter): (r: seq<LunarEvent>)
    requires ValidDate(today)
    ensures IsBlank(text) ==> r == []
    ensures |r| <= |Lines(text)|
    ensures SortedBy(r, DaysLeftOf)
    ensures multiset(r) == multiset(Entries(Lines(text), today, convert))
  {
    var entries := Entries(Lines(text), today, convert);
    SortBySorted(entries, DaysLeftOf);
    BlankIffAllSpace(text);
    if IsBlank(text) then
      SplitBlank(text, '\n');
      NonBlankOfBlank(Split(text, '\n'));
      []
    else
      SortBy(entries, DaysLeftOf)
  }

  /** Entries with the same count keep the order of their lines. */
  lemma EqualDaysKeepLineOrder(text: string, today: Date, convert: Converter, k: int)
    requires ValidDate(today)
    ensures WithKey(ParseLunarEvents(text, today, convert), DaysLeftOf, k)
         == WithKey(Entries(Lines(text), today, convert), DaysLeftOf, k)
  {
    SortByStable(Entries(Lines(text), today, convert), DaysLeftOf, k);
    if IsBlank(text) {
      BlankIffAllSpace(text);
      SplitBlank(text, '\n');
      NonBlankOfBlank(Split(text, '\n'));
    }
  }

  /** The converter answers with a calendar month and a positive day for the day and the
      month a line parses to (a line without pieces asks it nothing). */
  predicate ConvertsLine(line: string, today: Date, convert: Converter) {
    var p := LinePieces(line);
    p.Some? ==> InRange(convert(today.year, ParseInt(p.value.1), ParseInt(p.value.0)))
  }

  lemma {:induction false} EntriesBound(lines: seq<string>, today: Date, convert: Converter)
    requires ValidDate(today)
    requires forall i :: 0 <= i < |lines| ==> ConvertsLine(lines[i], today, convert)
    ensures forall e :: e in Entries(lines, today, convert) ==> e.daysLeft >= -200
  {
    if lines != [] {
      assert ConvertsLine(lines[0], today, convert);
      assert forall i :: 0 <= i < |lines| - 1 ==> lines[1..][i] == lines[i + 1];
      EntriesBound(lines[1..], today, convert);
      var p := LinePieces(lines[0]);
      if p.Some? {
        DaysLeftBound(today, convert(today.year, ParseInt(p.value.1), ParseInt(p.value.0)));
      }
    }
  }

  /** With a converter that answers with a calendar month and a positive day for the
      lines of the text, every entry lies at most 200 days back. */
  lemma DaysLeftAtLeast(text: string, today: Date, convert: Converter)
    requires ValidDate(today)
    requires forall i :: 0 <= i < |Lines(text)| ==> ConvertsLine(Lines(text)[i], today, convert)
    ensures forall e :: e in ParseLunarEvents(text, today, convert) ==> e.daysLeft >= -200
  {
    var entries := Entries(Lines(text), today, convert);
    EntriesBound(Lines(text), today, convert);
    forall e | e in ParseLunarEvents(text, today, convert)
      ensures e.daysLeft >= -200
    {
      assert e in multiset(entries);
    }
  }
}
