/** The time value `new Date(eventDate).getTime()` that the memory lists sort by, for
    the date-only ISO form `YYYY-MM-DD` a date input produces. Such a string is read as
    UTC midnight, so its time value is a whole number of days and the model keeps the
    day number. Any other value makes an invalid date, whose time value is NaN. */
module EventTime {
  import opened Text
  import opened Values
  import opened Dates
  import opened Sorting

  /** The pieces of a `YYYY-MM-DD` string: four, two and two digits around two dashes. */
  predicate IsoShape(s: string) {
    |s| == 10 && s[4] == '-' && s[7] == '-'
    && AllDigits(s[..4]) && AllDigits(s[5..7]) && AllDigits(s[8..])
  }

  /** The calendar date a `YYYY-MM-DD` string names, when the month and day exist. */
  function IsoDateOf(s: string): (r: Option<Date>)
    ensures r.Some? ==> ValidDate(r.value) && 0 <= r.value.year <= 9999
    ensures r.Some? ==> IsoShape(s)
  {
    if !IsoShape(s) then None
    else
      var y := DigitsValue(s[..4]);
      var m := DigitsValue(s[5..7]);
      var d := DigitsValue(s[8..]);
      DigitsBound4(s[..4]);
      if 1 <= m <= 12 && 1 <= d <= DaysInMonth(y, m - 1) then Some(Date(y, m - 1, d)) else None
  }

  lemma DigitsBound4(s: string)
    requires |s| == 4 && AllDigits(s)
    ensures DigitsValue(s) <= 9999
  {
    assert s == [s[0], s[1], s[2], s[3]];
    FourDigits(s[0], s[1], s[2], s[3]);
  }

  /** `new Date(v).getTime()` in days for an event date; None is NaN. */
  function TimeOf(v: Value): (t: Option<int>)
    ensures t.Some? <==> v.VStr? && IsoDateOf(v.s).Some?
    ensures t.Some? ==> t.value == DayNumber(IsoDateOf(v.s).value)
  {
    if v.VStr? then
      match IsoDateOf(v.s)
      case Some(d) => Some(DayNumber(d))
      case None => None
    else None
  }

  /** The event time of a record's `eventDate`. */
  function EventTimeOf(r: Record): Option<int> {
    TimeOf(Get(r, "eventDate"))
  }

  // ---------------------------------------------------------------- the input's own format

  function Digit(n: int): char
    requires 0 <= n
  {
    DigitChar(n % 10)
  }

  /** The `YYYY-MM-DD` text a date input gives for a date of years 0..9999. */
  function IsoText(d: Date): (s: string)
    requires ValidDate(d) && 0 <= d.year <= 9999
    ensures |s| == 10
  {
    var m := d.month + 1;
    [Digit(d.year / 1000), Digit(d.year / 100), Digit(d.year / 10), Digit(d.year), '-',
     Digit(m / 10), Digit(m), '-', Digit(d.day / 10), Digit(d.day)]
  }

  lemma TwoDigits(a: char, b: char)
    requires IsDigit(a) && IsDigit(b)
    ensures AllDigits([a, b])
    ensures DigitsValue([a, b]) == (a as int - 48) * 10 + (b as int - 48)
  {
    assert [a, b][..1] == [a];
    assert [a][..0] == [];
    assert DigitsValue([a]) == a as int - 48;
  }

  lemma FourDigits(a: char, b: char, c: char, e: char)
    requires IsDigit(a) && IsDigit(b) && IsDigit(c) && IsDigit(e)
    ensures AllDigits([a, b, c, e])
    ensures DigitsValue([a, b, c, e])
      == (a as int - 48) * 1000 + (b as int - 48) * 100 + (c as int - 48) * 10 + (e as int - 48)
  {
    assert [a, b, c, e][..3] == [a, b, c];
    assert [a, b, c][..2] == [a, b];
    TwoDigits(a, b);
    assert DigitsValue([a, b, c]) == DigitsValue([a, b]) * 10 + (c as int - 48);
  }

  /** The digits of a number below 10000, most significant first, read back as the number. */
  lemma FourDigitValue(y: int)
    requires 0 <= y <= 9999
    ensures (Digit(y / 1000) as int - 48) * 1000 + (Digit(y / 100) as int - 48) * 100
      + (Digit(y / 10) as int - 48) * 10 + (Digit(y) as int - 48) == y
  {
    assert Digit(y / 1000) as int - 48 == y / 1000;
    assert Digit(y / 100) as int - 48 == (y / 100) % 10;
    assert Digit(y / 10) as int - 48 == (y / 10) % 10;
    assert Digit(y) as int - 48 == y % 10;
    assert y / 100 == (y / 1000) * 10 + (y / 100) % 10;
    assert y / 10 == (y / 100) * 10 + (y / 10) % 10;
    assert y == (y / 10) * 10 + y % 10;
  }

  lemma TwoDigitValue(n: int)
    requires 0 <= n <= 99
    ensures (Digit(n / 10) as int - 48) * 10 + (Digit(n) as int - 48) == n
  {
    assert Digit(n / 10) as int - 48 == n / 10;
    assert Digit(n) as int - 48 == n % 10;
  }

  /** The three numerals of the date input's text read back as year, month and day. */
  lemma IsoPieces(d: Date)
    requires ValidDate(d) && 0 <= d.year <= 9999
    ensures IsoShape(IsoText(d))
    ensures DigitsValue(IsoText(d)[..4]) == d.year
    ensures DigitsValue(IsoText(d)[5..7]) == d.month + 1
    ensures DigitsValue(IsoText(d)[8..]) == d.day
  {
    var s := IsoText(d);
    var y := d.year;
    var m := d.month + 1;
    assert s[..4] == [Digit(y / 1000), Digit(y / 100), Digit(y / 10), Digit(y)];
    assert s[5..7] == [Digit(m / 10), Digit(m)];
    assert s[8..] == [Digit(d.day / 10), Digit(d.day)];
    FourDigits(Digit(y / 1000), Digit(y / 100), Digit(y / 10), Digit(y));
    FourDigitValue(y);
    TwoDigits(Digit(m / 10), Digit(m));
    TwoDigitValue(m);
    TwoDigits(Digit(d.day / 10), Digit(d.day));
    TwoDigitValue(d.day);
  }

  /** Reading the date input's text back gives the date it shows. */
  lemma IsoRoundTrip(d: Date)
    requires ValidDate(d) && 0 <= d.year <= 9999
    ensures IsoDateOf(IsoText(d)) == Some(d)
    ensures TimeOf(VStr(IsoText(d))) == Some(DayNumber(d))
  {
    IsoPieces(d);
  }

  /** Distinct event-date strings that both parse name distinct days. */
  lemma TimeOfInjective(a: string, b: string)
    requires TimeOf(VStr(a)).Some? && TimeOf(VStr(b)).Some?
    requires TimeOf(VStr(a)) == TimeOf(VStr(b))
    ensures IsoDateOf(a) == IsoDateOf(b)
  {
    DayNumberInjective(IsoDateOf(a).value, IsoDateOf(b).value);
  }

  /** Comparing time values compares the calendar dates. */
  lemma TimeOrder(a: Value, b: Value)
    requires TimeOf(a).Some? && TimeOf(b).Some?
    ensures TimeOf(a).value < TimeOf(b).value <==> Before(IsoDateOf(a.s).value, IsoDateOf(b.s).value)
  {
    DayNumberOrder(IsoDateOf(a.s).value, IsoDateOf(b.s).value);
  }
  // ---------------------------------------------------------------- newest first

  /** The elements whose time value is a number, in order. */
  function Dated<T>(xs: seq<T>, time: T -> Option<int>): (r: seq<T>)
    ensures forall x :: x in r ==> time(x).Some?
  {
    if xs == [] then []
    else (if time(xs[0]).Some? then [xs[0]] else []) + Dated(xs[1..], time)
  }

  /** The elements whose time value is NaN, in order. */
  function Undated<T>(xs: seq<T>, time: T -> Option<int>): (r: seq<T>)
    ensures forall x :: x in r ==> time(x).None?
  {
    if xs == [] then []
    else (if time(xs[0]).None? then [xs[0]] else []) + Undated(xs[1..], time)
  }

  /** The ascending sort key that puts later times first. */
  function LaterFirst<T>(time: T -> Option<int>): T -> int {
    x => if time(x).Some? then -time(x).value else 0
  }

  /** `sort((a, b) => time(b) - time(a))`: a stable sort from the latest time to the
      earliest. Elements whose time is NaN make the comparator answer NaN, which the sort
      reads as "equal"; the model puts them after the dated ones, in their original order. */
  function NewestFirst<T>(xs: seq<T>, time: T -> Option<int>): (r: seq<T>)
    ensures |r| == |Dated(xs, time)| + |Undated(xs, time)|
  {
    SortBy(Dated(xs, time), LaterFirst(time)) + Undated(xs, time)
  }

  lemma {:induction false} SplitByTime<T>(xs: seq<T>, time: T -> Option<int>)
    ensures multiset(Dated(xs, time)) + multiset(Undated(xs, time)) == multiset(xs)
  {
    if xs != [] {
      SplitByTime(xs[1..], time);
      assert xs == [xs[0]] + xs[1..];
    }
  }

  /** The sort only reorders: the same elements, each as often. */
  lemma NewestFirstPermutes<T>(xs: seq<T>, time: T -> Option<int>)
    ensures multiset(NewestFirst(xs, time)) == multiset(xs)
  {
    SplitByTime(xs, time);
  }

  /** Each element with a time comes before every element without one and is no earlier
      than any dated element after it. */
  lemma NewestFirstOrdered<T>(xs: seq<T>, time: T -> Option<int>)
    ensures var r := NewestFirst(xs, time);
      forall i, j :: 0 <= i < j < |r| && time(r[j]).Some? ==>
        time(r[i]).Some? && time(r[i]).value >= time(r[j]).value
  {
    var d := Dated(xs, time);
    var sorted := SortBy(d, LaterFirst(time));
    var r := NewestFirst(xs, time);
    SortBySorted(d, LaterFirst(time));
    forall i | 0 <= i < |sorted|
      ensures time(sorted[i]).Some?
    {
      assert sorted[i] in multiset(sorted);
    }
    forall i, j | 0 <= i < j < |r| && time(r[j]).Some?
      ensures time(r[i]).Some? && time(r[i]).value >= time(r[j]).value
    {
      assert r[i] == sorted[i] && r[j] == sorted[j];
      assert LaterFirst(time)(sorted[i]) <= LaterFirst(time)(sorted[j]);
    }
  }

  /** The elements whose time is `t`, in order. */
  function AtTime<T>(xs: seq<T>, time: T -> Option<int>, t: int): seq<T> {
    if xs == [] then [] else (if time(xs[0]) == Some(t) then [xs[0]] else []) + AtTime(xs[1..], time, t)
  }

  lemma {:induction false} AtTimeAppend<T>(a: seq<T>, b: seq<T>, time: T -> Option<int>, t: int)
    ensures AtTime(a + b, time, t) == AtTime(a, time, t) + AtTime(b, time, t)
  {
    if a != [] {
      AtTimeAppend(a[1..], b, time, t);
      var h := if time(a[0]) == Some(t) then [a[0]] else [];
      assert (a + b)[0] == a[0];
      assert (a + b)[1..] == a[1..] + b;
      assert AtTime(a + b, time, t) == h + AtTime(a[1..] + b, time, t);
      assert h + (AtTime(a[1..], time, t) + AtTime(b, time, t))
        == (h + AtTime(a[1..], time, t)) + AtTime(b, time, t);
    } else {
      assert a + b == b;
    }
  }

  lemma {:induction false} AtTimeUndated<T>(xs: seq<T>, time: T -> Option<int>, t: int)
    ensures AtTime(Undated(xs, time), time, t) == []
  {
    if xs != [] {
      AtTimeUndated(xs[1..], time, t);
      var h := if time(xs[0]).None? then [xs[0]] else [];
      AtTimeAppend(h, Undated(xs[1..], time), time, t);
      assert h != [] ==> h[1..] == [];
    }
  }

  lemma {:induction false} AtTimeDated<T>(xs: seq<T>, time: T -> Option<int>, t: int)
    ensures AtTime(Dated(xs, time), time, t) == AtTime(xs, time, t)
  {
    if xs != [] {
      AtTimeDated(xs[1..], time, t);
      var h := if time(xs[0]).Some? then [xs[0]] else [];
      AtTimeAppend(h, Dated(xs[1..], time), time, t);
      assert h != [] ==> h[1..] == [];
    }
  }

  /** Among dated elements, picking the time-`t` ones is picking the key `-t` ones. */
  lemma {:induction false} AtTimeIsWithKey<T>(xs: seq<T>, time: T -> Option<int>, t: int)
    requires forall x :: x in xs ==> time(x).Some?
    ensures AtTime(xs, time, t) == WithKey(xs, LaterFirst(time), -t)
  {
    if xs != [] {
      var key := LaterFirst(time);
      assert xs[0] in xs;
      assert forall x :: x in xs[1..] ==> x in xs;
      AtTimeIsWithKey(xs[1..], time, t);
      assert (time(xs[0]) == Some(t)) == (key(xs[0]) == -t);
      var h := if time(xs[0]) == Some(t) then [xs[0]] else [];
      assert AtTime(xs, time, t) == h + AtTime(xs[1..], time, t);
      assert WithKey(xs, key, -t) == h + WithKey(xs[1..], key, -t);
    }
  }

  /** Sorting the dated elements keeps every element dated. */
  lemma SortedAllDated<T>(xs: seq<T>, time: T -> Option<int>)
    ensures forall x :: x in SortBy(Dated(xs, time), LaterFirst(time)) ==> time(x).Some?
  {
    var d := Dated(xs, time);
    var sorted := SortBy(d, LaterFirst(time));
    forall x | x in sorted
      ensures time(x).Some?
    {
      assert x in multiset(sorted);
      assert x in multiset(d);
    }
  }

  /** Stability: elements with the same time keep their original order. */
  lemma NewestFirstStable<T>(xs: seq<T>, time: T -> Option<int>, t: int)
    ensures AtTime(NewestFirst(xs, time), time, t) == AtTime(xs, time, t)
  {
    var d := Dated(xs, time);
    var key := LaterFirst(time);
    var sorted := SortBy(d, key);
    calc {
      AtTime(NewestFirst(xs, time), time, t);
      AtTime(sorted + Undated(xs, time), time, t);
      { AtTimeAppend(sorted, Undated(xs, time), time, t); AtTimeUndated(xs, time, t); }
      AtTime(sorted, time, t) + [];
      { assert AtTime(sorted, time, t) + [] == AtTime(sorted, time, t); }
      AtTime(sorted, time, t);
      { SortedAllDated(xs, time); AtTimeIsWithKey(sorted, time, t); }
      WithKey(sorted, key, -t);
      { SortByStable(d, key, -t); }
      WithKey(d, key, -t);
      { AtTimeIsWithKey(d, time, t); }
      AtTime(d, time, t);
      { AtTimeDated(xs, time, t); }
      AtTime(xs, time, t);
    }
  }
}
