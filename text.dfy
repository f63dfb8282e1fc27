/** String operations of JavaScript that the services rely on, stated on `seq<char>`:
    whitespace trimming, splitting on one character, joining, substring search,
    first-occurrence replacement, lower-casing and decimal number formatting. */
module Text {

  /** The characters `String.prototype.trim` removes: WhiteSpace and LineTerminator. */
  predicate IsSpace(c: char) {
    c == ' ' || c == '\t' || c == '\n' || c == '\r' || c == '\U{000B}' || c == '\U{000C}'
    || c == '\U{00A0}' || c == '\U{FEFF}' || c == '\U{1680}' || ('\U{2000}' <= c <= '\U{200A}')
    || c == '\U{2028}' || c == '\U{2029}' || c == '\U{202F}' || c == '\U{205F}' || c == '\U{3000}'
  }

  /** `s.trimStart()` */
  function TrimStart(s: string): (r: string)
    ensures |r| <= |s|
    ensures r == [] || !IsSpace(r[0])
    ensures forall i :: 0 <= i < |s| - |r| ==> IsSpace(s[i])
  {
    if s != [] && IsSpace(s[0]) then TrimStart(s[1..]) else s
  }

  /** `s.trimEnd()` */
  function TrimEnd(s: string): (r: string)
    ensures |r| <= |s|
    ensures r == [] || !IsSpace(r[|r| - 1])
    ensures forall i :: |r| <= i < |s| ==> IsSpace(s[i])
  {
    if s != [] && IsSpace(s[|s| - 1]) then TrimEnd(s[..|s| - 1]) else s
  }

  /** What `trimStart` leaves is a suffix of its input. */
  lemma {:induction false} TrimStartSuffix(s: string)
    ensures TrimStart(s) == s[|s| - |TrimStart(s)|..]
  {
    if s != [] && IsSpace(s[0]) {
      TrimStartSuffix(s[1..]);
      assert s[1..][|s| - 1 - |TrimStart(s[1..])|..] == s[|s| - |TrimStart(s)|..];
    }
  }

  /** What `trimEnd` leaves is a prefix of its input. */
  lemma {:induction false} TrimEndPrefix(s: string)
    ensures TrimEnd(s) == s[..|TrimEnd(s)|]
  {
    if s != [] && IsSpace(s[|s| - 1]) {
      TrimEndPrefix(s[..|s| - 1]);
      assert s[..|s| - 1][..|TrimEnd(s)|] == s[..|TrimEnd(s)|];
    }
  }

  /** `s.trim()` */
  function Trim(s: string): string {
    TrimEnd(TrimStart(s))
  }

  /** Trimming leaves a string without leading or trailing whitespace as it is. */
  lemma TrimUnchanged(s: string)
    requires s == [] || (!IsSpace(s[0]) && !IsSpace(s[|s| - 1]))
    ensures Trim(s) == s
  {
  }

  /** `!s.trim()`: the string holds nothing but whitespace. */
  predicate IsBlank(s: string) {
    Trim(s) == ""
  }

  lemma BlankIffAllSpace(s: string)
    ensures IsBlank(s) <==> forall i :: 0 <= i < |s| ==> IsSpace(s[i])
  {
    var t := TrimStart(s);
    var k := |s| - |t|;
    TrimStartSuffix(s);
    if t != [] {
      assert t[0] == s[k];
    }
  }

  /** Index of the first `c` in `s`, or -1. */
  function IndexOfChar(s: string, c: char): (i: int)
    ensures -1 <= i < |s|
    ensures i >= 0 ==> s[i] == c && c !in s[..i]
    ensures i < 0 <==> c !in s
  {
    if s == [] then -1
    else if s[0] == c then 0
    else var j := IndexOfChar(s[1..], c);
      assert s[1..][..if j < 0 then 0 else j] == s[1..1 + if j < 0 then 0 else j];
      if j < 0 then -1 else 1 + j
  }

  /** `s.split(sep)` for a one-character separator. */
  function Split(s: string, sep: char): (parts: seq<string>)
    ensures |parts| >= 1
    ensures forall k :: 0 <= k < |parts| ==> sep !in parts[k]
    decreases |s|
  {
    var i := IndexOfChar(s, sep);
    if i < 0 then [s]
    else
      var rest := Split(s[i + 1..], sep);
      PiecesFree(s[..i], rest, sep);
      [s[..i]] + rest
  }

  /** A piece free of the separator before pieces free of it: all are free of it. */
  lemma PiecesFree(head: string, rest: seq<string>, sep: char)
    requires sep !in head
    requires forall k :: 0 <= k < |rest| ==> sep !in rest[k]
    ensures forall k :: 0 <= k < 1 + |rest| ==> sep !in ([head] + rest)[k]
  {
    forall k | 0 <= k < 1 + |rest|
      ensures sep !in ([head] + rest)[k]
    {
      if k > 0 {
        assert ([head] + rest)[k] == rest[k - 1];
      }
    }
  }

  /** `parts.join(sep)` */
  function Join(parts: seq<string>, sep: string): string {
    if parts == [] then ""
    else if |parts| == 1 then parts[0]
    else parts[0] + sep + Join(parts[1..], sep)
  }

  /** Number of occurrences of `c` in `s`. */
  function Count(s: string, c: char): nat {
    if s == [] then 0 else (if s[0] == c then 1 else 0) + Count(s[1..], c)
  }

  lemma CountSplitAt(s: string, i: nat, c: char)
    requires i <= |s|
    ensures Count(s, c) == Count(s[..i], c) + Count(s[i..], c)
  {
    if i > 0 {
      CountSplitAt(s[1..], i - 1, c);
      assert s[1..][..i - 1] == s[..i][1..];
      assert s[1..][i - 1..] == s[i..];
    }
  }

  /** Trimming removes only whitespace, so a non-space character keeps its count. */
  lemma CountTrim(s: string, c: char)
    requires !IsSpace(c)
    ensures Count(Trim(s), c) == Count(s, c)
  {
    var t := TrimStart(s);
    var k := |s| - |t|;
    TrimStartSuffix(s);
    CountSplitAt(s, k, c);
    assert c !in s[..k] by {
      assert forall i :: 0 <= i < k ==> s[..k][i] == s[i];
    }
    CountAbsent(s[..k], c);
    var u := TrimEnd(t);
    TrimEndPrefix(t);
    CountSplitAt(t, |u|, c);
    assert c !in t[|u|..] by {
      assert forall i :: 0 <= i < |t| - |u| ==> t[|u|..][i] == t[|u| + i];
    }
    CountAbsent(t[|u|..], c);
  }

  lemma CountAbsent(s: string, c: char)
    requires c !in s
    ensures Count(s, c) == 0
  {
    if s != [] {
      CountAbsent(s[1..], c);
    }
  }

  /** Splitting yields one piece more than there are separators. */
  lemma {:induction false} SplitCount(s: string, sep: char)
    ensures |Split(s, sep)| == Count(s, sep) + 1
    decreases |s|
  {
    var i := IndexOfChar(s, sep);
    if i < 0 {
      CountAbsent(s, sep);
    } else {
      SplitCount(s[i + 1..], sep);
      CountSplitAt(s, i, sep);
      CountAbsent(s[..i], sep);
      assert s[i..] == [sep] + s[i + 1..];
      assert Count(s[i..], sep) == 1 + Count(s[i + 1..], sep);
    }
  }

  lemma JoinCons(a: string, rest: seq<string>, sep: string)
    requires |rest| >= 1
    ensures Join([a] + rest, sep) == a + sep + Join(rest, sep)
  {
    assert ([a] + rest)[1..] == rest;
  }

  /** Joining the pieces with the separator gives back the string. */
  lemma {:induction false} SplitJoin(s: string, sep: char)
    ensures Join(Split(s, sep), [sep]) == s
    decreases |s|
  {
    var i := IndexOfChar(s, sep);
    if i >= 0 {
      var rest := Split(s[i + 1..], sep);
      SplitJoin(s[i + 1..], sep);
      JoinCons(s[..i], rest, [sep]);
      assert s == s[..i] + [sep] + s[i + 1..];
    }
  }

  /** The first piece is the text before the first separator. */
  lemma SplitFirst(s: string, sep: char)
    ensures var i := IndexOfChar(s, sep);
      Split(s, sep)[0] == (if i < 0 then s else s[..i])
      && (i >= 0 ==> Split(s, sep)[1..] == Split(s[i + 1..], sep))
  {
  }

  /** A piece free of the separator, then the separator: the piece comes off first. */
  lemma SplitCons(a: string, sep: char, rest: string)
    requires sep !in a
    ensures Split(a + [sep] + rest, sep) == [a] + Split(rest, sep)
  {
    var s := a + [sep] + rest;
    var i := IndexOfChar(s, sep);
    assert s[|a|] == sep;
    assert s[..|a|] == a;
    assert i == |a|;
    assert s[i + 1..] == rest;
  }

  /** Two separator-free pieces joined by the separator split back into the two. */
  lemma SplitTwo(b: string, c: string, sep: char)
    requires sep !in b && sep !in c
    ensures Split(b + [sep] + c, sep) == [b, c]
  {
    SplitNone(c, sep);
    SplitCons(b, sep, c);
  }

  /** Regrouping the text of three pieces joined by a separator. */
  lemma JoinedRegroup(a: string, b: string, c: string, sep: char)
    ensures a + [sep] + b + [sep] + c == a + [sep] + (b + [sep] + c)
  {
  }

  lemma HeadTail<T>(xs: seq<T>)
    requires xs != []
    ensures [xs[0]] + xs[1..] == xs
    ensures |xs| == 1 ==> [xs[0]] == xs
  {
  }

  lemma ConsTwo<T>(x: T, y: T, xs: seq<T>)
    ensures [x] + ([y] + xs) == [x, y] + xs
  {
  }

  lemma ConsPair<T>(x: T, y: T, z: T)
    ensures [x] + [y, z] == [x, y, z]
  {
  }

  /** Two separator-free pieces come off the front, whatever follows them. */
  lemma SplitTwoCons(a: string, b: string, c: string, sep: char)
    requires sep !in a && sep !in b
    ensures Split(a + [sep] + b + [sep] + c, sep) == [a, b] + Split(c, sep)
  {
    JoinedRegroup(a, b, c, sep);
    SplitCons(a, sep, b + [sep] + c);
    SplitCons(b, sep, c);
    ConsTwo(a, b, Split(c, sep));
  }

  /** Three separator-free pieces joined by the separator split back into the three. */
  lemma SplitThree(a: string, b: string, c: string, sep: char)
    requires sep !in a && sep !in b && sep !in c
    ensures Split(a + [sep] + b + [sep] + c, sep) == [a, b, c]
  {
    JoinedRegroup(a, b, c, sep);
    SplitCons(a, sep, b + [sep] + c);
    SplitTwo(b, c, sep);
    ConsPair(a, b, c);
  }

  /** Every piece of an all-whitespace string is blank. */
  lemma {:induction false} SplitBlank(s: string, sep: char)
    requires forall i :: 0 <= i < |s| ==> IsSpace(s[i])
    ensures forall k :: 0 <= k < |Split(s, sep)| ==> IsBlank(Split(s, sep)[k])
    decreases |s|
  {
    var i := IndexOfChar(s, sep);
    BlankIffAllSpace(s);
    if i >= 0 {
      var rest := Split(s[i + 1..], sep);
      SplitBlank(s[i + 1..], sep);
      BlankIffAllSpace(s[..i]);
      assert Split(s, sep) == [s[..i]] + rest;
    }
  }

  /** A string free of the separator is one piece. */
  lemma SplitNone(a: string, sep: char)
    requires sep !in a
    ensures Split(a, sep) == [a]
  {
  }

  /** `lines.filter(line => line.trim())`: the lines that are not blank, in order. */
  function NonBlank(lines: seq<string>): (r: seq<string>)
    ensures |r| <= |lines|
    ensures forall l :: l in r ==> l in lines && !IsBlank(l)
  {
    if lines == [] then []
    else (if IsBlank(lines[0]) then [] else [lines[0]]) + NonBlank(lines[1..])
  }

  /** Only blank lines leave nothing. */
  lemma {:induction false} NonBlankOfBlank(lines: seq<string>)
    requires forall k :: 0 <= k < |lines| ==> IsBlank(lines[k])
    ensures NonBlank(lines) == []
  {
    if lines != [] {
      assert IsBlank(lines[0]);
      NonBlankOfBlank(lines[1..]);
    }
  }

  /** A line that is not blank survives the filter. */
  lemma {:induction false} NonBlankHas(lines: seq<string>, l: string)
    requires l in lines && !IsBlank(l)
    ensures l in NonBlank(lines)
  {
    if lines[0] != l {
      NonBlankHas(lines[1..], l);
    }
  }

  /** A string that is not all whitespace has a piece that is not blank, when the
      separator is itself whitespace. */
  lemma {:induction false} SplitNotBlank(s: string, sep: char, j: nat)
    requires IsSpace(sep) && j < |s| && !IsSpace(s[j])
    ensures exists k :: 0 <= k < |Split(s, sep)| && !IsBlank(Split(s, sep)[k])
    decreases |s|
  {
    var i := IndexOfChar(s, sep);
    var parts := Split(s, sep);
    if i < 0 {
      BlankIffAllSpace(s);
      assert !IsBlank(parts[0]);
    } else if j < i {
      BlankIffAllSpace(s[..i]);
      assert s[..i][j] == s[j];
      assert !IsBlank(parts[0]);
    } else {
      assert j != i;
      var rest := Split(s[i + 1..], sep);
      assert s[i + 1..][j - i - 1] == s[j];
      SplitNotBlank(s[i + 1..], sep, j - i - 1);
      var k :| 0 <= k < |rest| && !IsBlank(rest[k]);
      SplitFirst(s, sep);
      assert parts[1..][k] == parts[k + 1];
    }
  }

  /** The non-blank lines of a text that is not blank are not all gone. */
  lemma NonBlankLinesOfText(text: string)
    requires !IsBlank(text)
    ensures NonBlank(Split(text, '\n')) != []
  {
    BlankIffAllSpace(text);
    var j :| 0 <= j < |text| && !IsSpace(text[j]);
    SplitNotBlank(text, '\n', j);
    var parts := Split(text, '\n');
    var k :| 0 <= k < |parts| && !IsBlank(parts[k]);
    NonBlankHas(parts, parts[k]);
  }

  /** The longest prefix of `s` whose characters all satisfy `p`. */
  function LeadingRun(s: string, p: char -> bool): (r: string)
    ensures |r| <= |s| && r == s[..|r|]
    ensures forall i :: 0 <= i < |r| ==> p(r[i])
    ensures |r| < |s| ==> !p(s[|r|])
  {
    if s != [] && p(s[0]) then [s[0]] + LeadingRun(s[1..], p) else []
  }

  /** The run stops where a character fails `p`. */
  lemma {:induction false} LeadingRunConcat(s: string, rest: string, p: char -> bool)
    requires forall i :: 0 <= i < |s| ==> p(s[i])
    requires rest == [] || !p(rest[0])
    ensures LeadingRun(s + rest, p) == s
  {
    if s != [] {
      assert (s + rest)[1..] == s[1..] + rest;
      LeadingRunConcat(s[1..], rest, p);
    }
  }

  /** `parts.join('')`, built from the left. */
  function Concat(parts: seq<string>): string {
    if parts == [] then "" else Concat(parts[..|parts| - 1]) + parts[|parts| - 1]
  }

  /** Joining one more part appends it. */
  lemma ConcatStep(parts: seq<string>, k: nat)
    requires k < |parts|
    ensures Concat(parts[..k + 1]) == Concat(parts[..k]) + parts[k]
  {
    assert parts[..k + 1][..k] == parts[..k];
  }

  /** A character no part holds is not in the whole. */
  lemma {:induction false} ConcatFree(parts: seq<string>, c: char)
    requires forall j :: 0 <= j < |parts| ==> c !in parts[j]
    ensures c !in Concat(parts)
  {
    if parts != [] {
      var front := parts[..|parts| - 1];
      assert forall j :: 0 <= j < |front| ==> front[j] == parts[j];
      ConcatFree(front, c);
    }
  }

  lemma CountAppend(a: string, b: string, c: char)
    ensures Count(a + b, c) == Count(a, c) + Count(b, c)
  {
    CountSplitAt(a + b, |a|, c);
    assert (a + b)[..|a|] == a && (a + b)[|a|..] == b;
  }

  /** The occurrences of `c` in all the parts. */
  function CountAll(parts: seq<string>, c: char): nat {
    if parts == [] then 0 else CountAll(parts[..|parts| - 1], c) + Count(parts[|parts| - 1], c)
  }

  lemma {:induction false} ConcatCount(parts: seq<string>, c: char)
    ensures Count(Concat(parts), c) == CountAll(parts, c)
  {
    if parts != [] {
      ConcatCount(parts[..|parts| - 1], c);
      CountAppend(Concat(parts[..|parts| - 1]), parts[|parts| - 1], c);
    }
  }

  // ---------------------------------------------------------------- substrings

  /** `t` occurs in `s` starting at index `j`. */
  predicate OccursAt(s: string, t: string, j: int) {
    0 <= j && j + |t| <= |s| && s[j..j + |t|] == t
  }

  /** `s.indexOf(t, k)`: the first occurrence of `t` at or after `k`, or -1. */
  function IndexOfFrom(s: string, t: string, k: nat): (i: int)
    ensures i == -1 || k <= i <= |s| - |t|
    decreases |s| + 1 - k
  {
    if k + |t| > |s| then -1
    else if s[k..k + |t|] == t then k
    else IndexOfFrom(s, t, k + 1)
  }

  /** The search finds the first occurrence at or after `k`, and -1 means there is none. */
  lemma {:induction false} IndexOfFromSpec(s: string, t: string, k: nat)
    ensures var i := IndexOfFrom(s, t, k);
      (i == -1 || OccursAt(s, t, i))
      && forall j :: k <= j < (if i < 0 then |s| + 1 else i) ==> !OccursAt(s, t, j)
    decreases |s| + 1 - k
  {
    if k + |t| <= |s| && s[k..k + |t|] != t {
      IndexOfFromSpec(s, t, k + 1);
    }
  }

  /** `s.indexOf(t)` */
  function IndexOf(s: string, t: string): (i: int)
    ensures i == -1 || 0 <= i <= |s| - |t|
  {
    IndexOfFrom(s, t, 0)
  }

  /** `indexOf` gives the first occurrence, -1 when there is none. */
  lemma IndexOfSpec(s: string, t: string)
    ensures IndexOf(s, t) == -1 || OccursAt(s, t, IndexOf(s, t))
    ensures forall j :: 0 <= j < (if IndexOf(s, t) < 0 then |s| + 1 else IndexOf(s, t)) ==>
      !OccursAt(s, t, j)
  {
    IndexOfFromSpec(s, t, 0);
  }

  /** Searching for a one-character string finds the character's first index. */
  lemma {:induction false} IndexOfFromChar(s: string, c: char, k: nat)
    requires k <= |s|
    ensures IndexOfFrom(s, [c], k)
      == if IndexOfChar(s[k..], c) < 0 then -1 else k + IndexOfChar(s[k..], c)
    decreases |s| - k
  {
    if k < |s| {
      assert s[k..k + 1] == [s[k]];
      if s[k] != c {
        IndexOfFromChar(s, c, k + 1);
        assert s[k..][1..] == s[k + 1..];
      }
    }
  }

  lemma IndexOfOneChar(s: string, c: char)
    ensures IndexOf(s, [c]) == IndexOfChar(s, c)
  {
    IndexOfFromChar(s, c, 0);
    assert s[0..] == s;
  }

  /** `s.includes(t)` */
  predicate Contains(s: string, t: string) {
    IndexOf(s, t) >= 0
  }

  /** `s.replace(t, r)` with a plain-string pattern: only the first occurrence is replaced. */
  function ReplaceFirst(s: string, t: string, r: string): string {
    var i := IndexOf(s, t);
    if i < 0 then s else s[..i] + r + s[i + |t|..]
  }

  /** `s.replaceAll(c, '')` for a one-character pattern. */
  function RemoveAll(s: string, c: char): (r: string)
    ensures c !in r
    ensures |r| <= |s|
  {
    if s == [] then "" else (if s[0] == c then "" else [s[0]]) + RemoveAll(s[1..], c)
  }

  lemma RemoveAllKeepsOthers(s: string, c: char)
    ensures forall x :: x != c ==> (x in RemoveAll(s, c) <==> x in s)
  {
    if s != [] {
      RemoveAllKeepsOthers(s[1..], c);
      assert s == [s[0]] + s[1..];
    }
  }

  /** `s.startsWith(p)` */
  predicate StartsWith(s: string, p: string) {
    |p| <= |s| && s[..|p|] == p
  }

  // ---------------------------------------------------------------- lower case

  /** The lower-case mapping of `toLowerCase` for ASCII, Latin-1 and the Vietnamese letters;
      every other character is left as it is. */
  function LowerChar(c: char): char {
    if 'A' <= c <= 'Z' then (c as int + 32) as char
    else if ('\U{00C0}' <= c <= '\U{00DE}') && c != '\U{00D7}' then (c as int + 32) as char
    else if c == '\U{0102}' || c == '\U{0110}' || c == '\U{0128}' || c == '\U{0168}' || c == '\U{01A0}' then (c as int + 1) as char
    else if c == '\U{01AF}' then '\U{01B0}'
    else if '\U{1EA0}' <= c <= '\U{1EF8}' && (c as int) % 2 == 0 then (c as int + 1) as char
    else c
  }

  /** `s.toLowerCase()`, character by character. */
  function Lower(s: string): (r: string)
    ensures |r| == |s|
    ensures forall i :: 0 <= i < |s| ==> r[i] == LowerChar(s[i])
  {
    if s == [] then "" else [LowerChar(s[0])] + Lower(s[1..])
  }

  // ---------------------------------------------------------------- numbers

  predicate IsDigit(c: char) {
    '0' <= c <= '9'
  }

  predicate AllDigits(s: string) {
    forall i :: 0 <= i < |s| ==> IsDigit(s[i])
  }

  function DigitChar(d: nat): (c: char)
    requires d < 10
    ensures IsDigit(c)
  {
    (48 + d) as char
  }

  /** The decimal digits of `n`, without leading zeros: `String(n)`. */
  function NatToString(n: nat): (s: string)
    ensures |s| >= 1 && AllDigits(s)
    ensures |s| > 1 ==> s[0] != '0'
    ensures n < 10 <==> |s| == 1
  {
    if n < 10 then [DigitChar(n)] else NatToString(n / 10) + [DigitChar(n % 10)]
  }

  /** The value of a string of decimal digits. */
  function DigitsValue(s: string): nat
    requires AllDigits(s)
  {
    if s == [] then 0 else DigitsValue(s[..|s| - 1]) * 10 + (s[|s| - 1] as int - 48)
  }

  /** Reading back the decimal digits of `n` gives `n`. */
  lemma {:induction false} DigitsRoundTrip(n: nat)
    ensures DigitsValue(NatToString(n)) == n
  {
    if n >= 10 {
      DigitsRoundTrip(n / 10);
      var s := NatToString(n);
      assert s[..|s| - 1] == NatToString(n / 10);
    }
  }

  /** Distinct numbers have distinct decimal forms. */
  lemma NatToStringInjective(m: nat, n: nat)
    requires NatToString(m) == NatToString(n)
    ensures m == n
  {
    DigitsRoundTrip(m);
    DigitsRoundTrip(n);
  }

  /** `String(i)` for an integer. */
  function IntToString(i: int): (s: string)
    ensures |s| >= 1
  {
    if i < 0 then "-" + NatToString(-i) else NatToString(i)
  }

  /** `s.padStart(2, '0')` */
  function PadStart2(s: string): (r: string)
    ensures |r| == if |s| >= 2 then |s| else 2
    ensures r[|r| - |s|..] == s
    ensures forall i :: 0 <= i < |r| - |s| ==> r[i] == '0'
  {
    if |s| >= 2 then s else if |s| == 1 then "0" + s else "00"
  }

  /** Padding a numeral keeps it a numeral of the same value. */
  lemma PadStart2Digits(n: nat)
    ensures |PadStart2(NatToString(n))| >= 2
    ensures AllDigits(PadStart2(NatToString(n)))
    ensures DigitsValue(PadStart2(NatToString(n))) == n
  {
    if n < 100 {
      PadStart2RoundTrip(n);
    } else {
      DigitsRoundTrip(n);
    }
  }

  /** A number below 100 pads to exactly two digits that read back as the number. */
  lemma PadStart2RoundTrip(n: nat)
    requires n < 100
    ensures |PadStart2(NatToString(n))| == 2
    ensures AllDigits(PadStart2(NatToString(n)))
    ensures DigitsValue(PadStart2(NatToString(n))) == n
  {
    var s := NatToString(n);
    DigitsRoundTrip(n);
    if n < 10 {
      var p := PadStart2(s);
      assert p == ['0', s[0]];
      assert p[..1] == ['0'];
      assert DigitsValue(p[..1]) == 0 by {
        assert p[..1][..0] == [];
      }
      assert s[..0] == [];
    } else {
      assert n / 10 < 10;
    }
  }
}
