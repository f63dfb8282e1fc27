/** `calculateDaysRemaining`: the distance label of a memory's `YYYY-MM-DD` event date
    as seen from today's midnight. Past dates are described in years, months and days
    obtained by borrow steps; today and future dates by a count of days. */
module DaysRemaining {
  import opened Text
  import opened Values
  import opened Dates

  /** `{ label, dateFormatted, isPast }`; `label` is `labelText` here (`label` is a Dafny keyword). */
  datatype DaysInfo = DaysInfo(labelText: string, dateFormatted: string, isPast: bool)

  /** One component of `eventDate.split('-').map(Number)` after destructuring: absent
      (`undefined`), `NaN`, or a number. */
  datatype Field = Missing | NaN | Num(n: int)

  /** `Number(s)` for a string: surrounding whitespace is ignored, the empty string is 0,
      an optionally signed run of decimal digits is its value, anything else is NaN. */
  function ToNumber(s: string): (f: Field)
    ensures f != Missing
  {
    var t := Trim(s);
    if t == "" then Num(0)
    else if |t| > 1 && (t[0] == '+' || t[0] == '-') && AllDigits(t[1..]) then
      var v: int := DigitsValue(t[1..]);
      Num(if t[0] == '-' then -v else v)
    else if AllDigits(t) then Num(DigitsValue(t))
    else NaN
  }

  /** A decimal numeral reads back as its value. */
  lemma ToNumberDigits(s: string)
    requires |s| >= 1 && AllDigits(s)
    ensures ToNumber(s) == Num(DigitsValue(s))
  {
    assert !IsSpace(s[0]) && !IsSpace(s[|s| - 1]);
    TrimUnchanged(s);
    assert s[0] != '+' && s[0] != '-';
  }

  /** The `i`-th destructured component. */
  function Piece(parts: seq<string>, i: nat): (f: Field)
    ensures i >= |parts| <==> f == Missing
  {
    if i < |parts| then ToNumber(parts[i]) else Missing
  }

  /** `String(f)` */
  function Show(f: Field): string {
    match f
    case Missing => "undefined"
    case NaN => "NaN"
    case Num(n) => IntToString(n)
  }

  /** `${String(day).padStart(2, '0')}/${String(month).padStart(2, '0')}/${year}` */
  function FormatDate(y: Field, m: Field, d: Field): string {
    PadStart2(Show(d)) + "/" + PadStart2(Show(m)) + "/" + Show(y)
  }

  /** `new Date(year, month - 1, day)`: a date when all three are numbers, otherwise an
      invalid date (`undefined - 1` and every operation on NaN give NaN). */
  function EventDate(y: Field, m: Field, d: Field): (r: Option<Date>)
    ensures r.Some? <==> y.Num? && m.Num? && d.Num?
    ensures r.Some? ==> ValidDate(r.value)
  {
    if y.Num? && m.Num? && d.Num? then Some(MakeDate(y.n, m.n - 1, d.n)) else None
  }

  /** The years, months and days the past branch ends with. */
  datatype Span = Span(years: int, months: int, days: int)

  /** The year step: the whole years from `start` to `today`, less one when the
      anniversary in today's year is still ahead, and that anniversary. */
  function YearStep(start: Date, today: Date): (r: (int, Date))
    requires ValidDate(start) && ValidDate(today)
    ensures ValidDate(r.1)
  {
    var years := today.year - start.year;
    var temp := MakeDate(start.year + years, start.month, start.day);
    if DayNumber(temp) > DayNumber(today) then
      (years - 1, MakeDate(start.year + years - 1, start.month, start.day))
    else (years, temp)
  }

  /** The month step: today's month less the anniversary's, borrowing a year when negative. */
  function MonthStep(years: int, temp: Date, today: Date): (r: (int, int))
    requires ValidDate(temp) && ValidDate(today)
    ensures 0 <= r.1 <= 11
  {
    var months := today.month - temp.month;
    if months < 0 then (years - 1, months + 12) else (years, months)
  }

  /** The day step: today's day less the day of the anniversary moved on by `months`,
      borrowing a month (and a year) and the length of the month before today's when
      negative. */
  function DayStep(start: Date, years: int, months: int, temp: Date, today: Date): (s: Span)
    requires ValidDate(start) && ValidDate(temp) && ValidDate(today)
    requires 0 <= months <= 11
    ensures 0 <= s.months <= 11
    ensures -2 <= s.days <= 30
  {
    var temp2 := MakeDate(temp.year, temp.month + months, start.day);
    var days := today.day - temp2.day;
    if days < 0 then
      DayZero(today.year, today.month);
      var m := months - 1;
      Span(if m < 0 then years - 1 else years, if m < 0 then m + 12 else m,
           days + MakeDate(today.year, today.month, 0).day)
    else
      Span(years, months, days)
  }

  /** The borrow steps of the past branch, from the event date `start` to `today`. The
      month count ends in 0..11; the day count in -2..30 (a borrow adds the length of the
      month before today's, which can fall short of the overshoot of a rolled-over day). */
  function PastSpan(start: Date, today: Date): (s: Span)
    requires ValidDate(start) && ValidDate(today)
    ensures 0 <= s.months <= 11
    ensures -2 <= s.days <= 30
  {
    var y := YearStep(start, today);
    var m := MonthStep(y.0, y.1, today);
    DayStep(start, m.0, m.1, y.1, today)
  }

  /** `${n} ${unit}` */
  function Unit(n: int, unit: string): string {
    IntToString(n) + " " + unit
  }

  /** The label pieces: the strictly positive components, years, then months, then days. */
  function PastParts(s: Span): (parts: seq<string>)
    ensures |parts| == (if s.years > 0 then 1 else 0) + (if s.months > 0 then 1 else 0)
                       + (if s.days > 0 then 1 else 0)
    ensures s.years > 0 ==> parts[0] == Unit(s.years, "năm")
    ensures s.months > 0 ==> parts[if s.years > 0 then 1 else 0] == Unit(s.months, "tháng")
    ensures s.days > 0 ==> parts[|parts| - 1] == Unit(s.days, "ngày")
  {
    (if s.years > 0 then [Unit(s.years, "năm")] else [])
    + (if s.months > 0 then [Unit(s.months, "tháng")] else [])
    + (if s.days > 0 then [Unit(s.days, "ngày")] else [])
  }

  /** The past-branch label: `Hôm nay` exactly when no component is positive. */
  function PastLabel(s: Span): (l: string)
    ensures l == "Hôm nay" <==> s.years <= 0 && s.months <= 0 && s.days <= 0
    ensures l != "Hôm nay" ==> StartsWith(l, "Đã qua ")
  {
    var parts := PastParts(s);
    if |parts| > 0 then
      var l := "Đã qua " + Join(parts, " ");
      assert l[0] != "Hôm nay"[0];
      l
    else "Hôm nay"
  }

  /** The label for an event `n` days from today (`n >= 0`). */
  function FutureLabel(n: int): (l: string)
    ensures n == 0 ==> l == "Hôm nay"
    ensures n == 1 ==> l == "Ngày mai"
    ensures n != 0 && n != 1 ==> l == "Cách " + IntToString(n) + " ngày"
  {
    if n == 0 then "Hôm nay" else if n == 1 then "Ngày mai" else "Cách " + IntToString(n) + " ngày"
  }

  /** The three components of `eventDate.split('-').map(Number)`. */
  function Fields(eventDate: string): (Field, Field, Field) {
    var parts := Split(eventDate, '-');
    (Piece(parts, 0), Piece(parts, 1), Piece(parts, 2))
  }

  /** The label and the past flag of an event on `ev` (None: an invalid date). An invalid
      date compares neither before nor after today and its distance is NaN days. */
  function Distance(ev: Option<Date>, today: Date): (string, bool)
    requires ev.Some? ==> ValidDate(ev.value)
    requires ValidDate(today)
  {
    match ev
    case None => ("Cách NaN ngày", false)
    case Some(e) =>
      if DayNumber(e) < DayNumber(today) then (PastLabel(PastSpan(e, today)), true)
      else (FutureLabel(DayNumber(e) - DayNumber(today)), false)
  }

  /** The result for `eventDate` seen from `today`. */
  function DaysRemaining(eventDate: string, today: Date): DaysInfo
    requires ValidDate(today)
  {
    var f := Fields(eventDate);
    var r := Distance(EventDate(f.0, f.1, f.2), today);
    DaysInfo(r.0, FormatDate(f.0, f.1, f.2), r.1)
  }

  /** The borrow steps of the past branch, on reassigned locals: the year and the month
      steps here, the day step in `DayBorrow`. */
  method BorrowSteps(startDate: Date, today: Date) returns (years: int, months: int, days: int)
    requires ValidDate(startDate) && ValidDate(today)
    ensures Span(years, months, days) == PastSpan(startDate, today)
  {
    var tempDate;
    years, tempDate := YearBorrow(startDate, today);
    ghost var y1 := years;
    months := today.month - tempDate.month;
    if months < 0 {
      years := years - 1;
      months := months + 12;
    }
    ghost var ms := MonthStep(y1, tempDate, today);
    assert years == ms.0 && months == ms.1;
    years, months, days := DayBorrow(startDate, years, months, tempDate, today);
  }

  /** The year step of the past branch, on reassigned locals. */
  method YearBorrow(startDate: Date, today: Date) returns (years: int, tempDate: Date)
    requires ValidDate(startDate) && ValidDate(today)
    ensures (years, tempDate) == YearStep(startDate, today)
  {
    ghost var ys := YearStep(startDate, today);
    years := today.year - startDate.year;
    tempDate := MakeDate(startDate.year + years, startDate.month, startDate.day);
    if DayNumber(tempDate) > DayNumber(today) {
      years := years - 1;
      tempDate := MakeDate(startDate.year + years, startDate.month, startDate.day);
    }
    assert years == ys.0 && tempDate == ys.1;
  }

  /** The day step of the past branch, continuing from the anniversary `tempDate`. */
  method DayBorrow(startDate: Date, years0: int, months0: int, tempDate0: Date, today: Date)
    returns (years: int, months: int, days: int)
    requires ValidDate(startDate) && ValidDate(tempDate0) && ValidDate(today)
    requires 0 <= months0 <= 11
    ensures Span(years, months, days) == DayStep(startDate, years0, months0, tempDate0, today)
  {
    ghost var s := DayStep(startDate, years0, months0, tempDate0, today);
    years, months := years0, months0;
    var tempDate := MakeDate(tempDate0.year, tempDate0.month + months, startDate.day);
    days := today.day - tempDate.day;
    if days < 0 {
      months := months - 1;
      if months < 0 {
        years := years - 1;
        months := months + 12;
      }
      var prevMonthDate := MakeDate(today.year, today.month, 0);
      days := days + prevMonthDate.day;
    }
    assert years == s.years && months == s.months && days == s.days;
  }

  /** The past-branch label, collecting the positive components into `parts`. */
  method LabelOf(years: int, months: int, days: int) returns (labelText: string)
    ensures labelText == PastLabel(Span(years, months, days))
  {
    var parts: seq<string> := [];
    if years > 0 {
      parts := parts + [Unit(years, "năm")];
    }
    if months > 0 {
      parts := parts + [Unit(months, "tháng")];
    }
    if days > 0 {
      parts := parts + [Unit(days, "ngày")];
    }
    assert parts == PastParts(Span(years, months, days));
    labelText := if |parts| > 0 then "Đã qua " + Join(parts, " ") else "Hôm nay";
  }

  /** `calculateDaysRemaining(eventDate)` with today's midnight passed in. */
  method CalculateDaysRemaining(eventDate: string, today: Date) returns (info: DaysInfo)
    requires ValidDate(today)
    ensures info == DaysRemaining(eventDate, today)
  {
    var fields := Fields(eventDate);
    var year, month, day := fields.0, fields.1, fields.2;
    var eventDateObj := EventDate(year, month, day);
    var dateFormatted := FormatDate(year, month, day);
    var labelText, isPast := Describe(eventDateObj, today);
    info := DaysInfo(labelText, dateFormatted, isPast);
  }

  /** The two branches of `calculateDaysRemaining` once the event date is built. */
  method Describe(eventDateObj: Option<Date>, today: Date) returns (labelText: string, isPast: bool)
    requires eventDateObj.Some? ==> ValidDate(eventDateObj.value)
    requires ValidDate(today)
    ensures (labelText, isPast) == Distance(eventDateObj, today)
  {
    if eventDateObj.Some? && DayNumber(eventDateObj.value) < DayNumber(today) {
      var years, months, days := BorrowSteps(eventDateObj.value, today);
      labelText := LabelOf(years, months, days);
      return labelText, true;
    }

    if eventDateObj.None? {
      return "Cách NaN ngày", false;
    }
    var diffDays := DayNumber(eventDateObj.value) - DayNumber(today);
    if diffDays == 0 {
      labelText := "Hôm nay";
    } else if diffDays == 1 {
      labelText := "Ngày mai";
    } else {
      labelText := "Cách " + IntToString(diffDays) + " ngày";
    }
    isPast := false;
  }

  // ---------------------------------------------------------------- properties

  /** The `YYYY-MM-DD` text of a year, a 1-based month and a day. */
  function IsoText(y: nat, m: nat, d: nat): string {
    NatToString(y) + "-" + PadStart2(NatToString(m)) + "-" + PadStart2(NatToString(d))
  }

  lemma NoDash(s: string)
    requires AllDigits(s)
    ensures '-' !in s
  {
  }

  /** A text that splits into three pieces at its dashes destructures into their numbers. */
  lemma FieldsOfThree(s: string, a: string, b: string, c: string)
    requires Split(s, '-') == [a, b, c]
    ensures Fields(s) == (ToNumber(a), ToNumber(b), ToNumber(c))
  {
  }

  /** Three numerals joined by dashes come apart at the dashes and read back as their values. */
  lemma FieldsOfNumerals(a: string, b: string, c: string)
    requires |a| >= 1 && |b| >= 1 && |c| >= 1
    requires AllDigits(a) && AllDigits(b) && AllDigits(c)
    ensures Fields(a + "-" + b + "-" + c)
         == (Num(DigitsValue(a)), Num(DigitsValue(b)), Num(DigitsValue(c)))
  {
    NoDash(a);
    NoDash(b);
    NoDash(c);
    SplitThree(a, b, c, '-');
    FieldsOfThree(a + "-" + b + "-" + c, a, b, c);
    ToNumberDigits(a);
    ToNumberDigits(b);
    ToNumberDigits(c);
  }

  lemma IsoTextFields(y: nat, m: nat, d: nat)
    ensures Fields(IsoText(y, m, d)) == (Num(y), Num(m), Num(d))
  {
    DigitsRoundTrip(y);
    PadStart2Digits(m);
    PadStart2Digits(d);
    FieldsOfNumerals(NatToString(y), PadStart2(NatToString(m)), PadStart2(NatToString(d)));
  }

  /** `dateFormatted` of a `YYYY-MM-DD` text is its day and month padded to two digits and
      its year, as `DD/MM/YYYY`, whatever today is. */
  lemma DateFormattedReadsInput(y: nat, m: nat, d: nat, today: Date)
    requires ValidDate(today)
    ensures DaysRemaining(IsoText(y, m, d), today).dateFormatted
         == PadStart2(NatToString(d)) + "/" + PadStart2(NatToString(m)) + "/" + NatToString(y)
  {
    IsoTextFields(y, m, d);
  }

  /** `isPast` holds exactly when the date is readable and comes before today in the calendar. */
  lemma IsPastIffBefore(ev: Option<Date>, today: Date)
    requires ev.Some? ==> ValidDate(ev.value)
    requires ValidDate(today)
    ensures Distance(ev, today).1 <==> ev.Some? && Before(ev.value, today)
  {
    if ev.Some? {
      DayNumberOrder(ev.value, today);
    }
  }

  /** A readable date that is not in the past is labelled by its distance in days, which is
      not negative and is zero only for today itself. */
  lemma FutureBranch(ev: Option<Date>, today: Date)
    requires ev.Some? ==> ValidDate(ev.value)
    requires ValidDate(today)
    ensures ev.Some? && !Distance(ev, today).1 ==>
      var n := DayNumber(ev.value) - DayNumber(today);
      n >= 0 && Distance(ev, today).0 == FutureLabel(n) && (n == 0 <==> ev.value == today)
  {
    if ev.Some? && DayNumber(ev.value) == DayNumber(today) {
      DayNumberInjective(ev.value, today);
    }
  }

  /** Today's own date, written `YYYY-MM-DD`, is `Hôm nay` and not past. */
  lemma TodayIsToday(today: Date)
    requires ValidDate(today) && today.year >= 100
    ensures var info := DaysRemaining(IsoText(today.year, today.month + 1, today.day), today);
      info.labelText == "Hôm nay" && !info.isPast
  {
    var iso := IsoText(today.year, today.month + 1, today.day);
    IsoTextFields(today.year, today.month + 1, today.day);
    MakeDateValid(today);
    var f := Fields(iso);
    assert EventDate(f.0, f.1, f.2) == Some(today);
    assert Distance(Some(today), today) == ("Hôm nay", false);
  }

  /** Distinct distances get distinct future labels. */
  lemma FutureLabelInjective(a: nat, b: nat)
    requires FutureLabel(a) == FutureLabel(b)
    ensures a == b
  {
    if a >= 2 && b >= 2 {
      var sa, sb := NatToString(a), NatToString(b);
      var la, lb := FutureLabel(a), FutureLabel(b);
      assert la[5..|la| - 5] == sa;
      assert lb[5..|lb| - 5] == sb;
      NatToStringInjective(a, b);
    }
  }

  /** The year step and the month step can both borrow a year: from 15 June 2020 to
      20 March 2024 the span is two years, nine months and five days. `2020-06-15` reads
      as these three numbers (`IsoTextFields`). */
  lemma DoubleBorrowSpan()
    ensures PastSpan(Date(2020, 5, 15), Date(2024, 2, 20)) == Span(2, 9, 5)
  {
    assert MakeDate(2024, 5, 15) == Date(2024, 5, 15);
    assert MakeDate(2023, 5, 15) == Date(2023, 5, 15);
    assert MakeDate(2023, 14, 15) == Date(2024, 2, 15);
    YearLength(2023);
  }

  lemma DoubleBorrow()
    ensures Distance(EventDate(Num(2020), Num(6), Num(15)), Date(2024, 2, 20))
         == (PastLabel(Span(2, 9, 5)), true)
  {
    assert MakeDate(2020, 5, 15) == Date(2020, 5, 15);
    DayNumberOrder(Date(2020, 5, 15), Date(2024, 2, 20));
    DoubleBorrowSpan();
  }
}
