/** `JSON.stringify` and `JSON.parse` on the values the cache stores. Numbers are
    integers; the text `stringify` writes has no whitespace, and the parser reads that
    form: no whitespace between tokens, integer numbers only. */
module Json {
  import opened Text
  import opened Values

  // ---------------------------------------------------------------- stringify

  function HexDigit(n: nat): (c: char)
    requires n < 16
  {
    if n < 10 then (48 + n) as char else (87 + n) as char
  }

  /** How `stringify` writes one character of a string. */
  function EscapeChar(c: char): (e: string)
    ensures |e| >= 1
  {
    if c == '"' then "\\\""
    else if c == '\\' then "\\\\"
    else if c == '\U{0008}' then "\\b"
    else if c == '\U{000C}' then "\\f"
    else if c == '\n' then "\\n"
    else if c == '\r' then "\\r"
    else if c == '\t' then "\\t"
    else if c < ' ' then "\\u00" + [HexDigit(c as int / 16), HexDigit(c as int % 16)]
    else [c]
  }

  function Escape(s: string): string {
    if s == [] then "" else EscapeChar(s[0]) + Escape(s[1..])
  }

  function Quote(s: string): string {
    "\"" + Escape(s) + "\""
  }

  /** The members `stringify` writes: those whose value is not undefined. */
  function Defined(entries: seq<(string, Value)>): (r: seq<(string, Value)>)
    ensures forall i :: 0 <= i < |r| ==> !r[i].1.VUndefined?
    ensures forall x :: x in r ==> x in entries
  {
    if entries == [] then []
    else (if entries[0].1.VUndefined? then [] else [entries[0]]) + Defined(entries[1..])
  }

  /** The text of a value nested in an array or an object; an undefined array element
      is written as `null`. */
  function Ser(v: Value): (s: string)
    ensures |s| >= 1
    decreases v, 1
  {
    match v
    case VUndefined => "null"
    case VNull => "null"
    case VBool(b) => if b then "true" else "false"
    case VNum(n) => IntToString(n)
    case VStr(s) => Quote(s)
    case VArr(items) => "[" + SerItems(items) + "]"
    case VObj(entries) =>
      var members := Defined(entries);
      assert forall i :: 0 <= i < |members| ==> members[i].1 < v by {
        forall i | 0 <= i < |members|
          ensures members[i].1 < v
        {
          assert members[i] in entries;
        }
      }
      "{" + SerMembers(members, v) + "}"
  }

  function SerItems(items: seq<Value>): string
    decreases items, 0
  {
    if items == [] then ""
    else if |items| == 1 then Ser(items[0])
    else Ser(items[0]) + "," + SerItems(items[1..])
  }

  /** The members of `parent`'s entries (`parent` only bounds the recursion). */
  function SerMembers(entries: seq<(string, Value)>, parent: Value): string
    requires forall i :: 0 <= i < |entries| ==> entries[i].1 < parent
    decreases parent, 0, |entries|
  {
    if entries == [] then ""
    else
      var member := Quote(entries[0].0) + ":" + Ser(entries[0].1);
      if |entries| == 1 then member else member + "," + SerMembers(entries[1..], parent)
  }

  /** `JSON.stringify(v)`: undefined at the top level gives undefined (None). */
  function Stringify(v: Value): Option<string> {
    if v.VUndefined? then None else Some(Ser(v))
  }
  // ---------------------------------------------------------------- parse

  function HexValue(c: char): (r: Option<nat>)
    ensures r.Some? ==> r.value < 16
  {
    if '0' <= c <= '9' then Some(c as int - 48)
    else if 'a' <= c <= 'f' then Some(c as int - 87)
    else if 'A' <= c <= 'F' then Some(c as int - 55)
    else None
  }

  /** The character an escape after a backslash stands for, and how many characters the
      escape takes. A `\u` escape naming half of a surrogate pair is not accepted. */
  function Unescape(s: string): (r: Option<(char, nat)>)
    ensures r.Some? ==> 1 <= r.value.1 <= |s|
  {
    if s == [] then None
    else if s[0] == '"' then Some(('"', 1))
    else if s[0] == '\\' then Some(('\\', 1))
    else if s[0] == '/' then Some(('/', 1))
    else if s[0] == 'b' then Some(('\U{0008}', 1))
    else if s[0] == 'f' then Some(('\U{000C}', 1))
    else if s[0] == 'n' then Some(('\n', 1))
    else if s[0] == 'r' then Some(('\r', 1))
    else if s[0] == 't' then Some(('\t', 1))
    else if s[0] == 'u' && |s| >= 5 then
      match (HexValue(s[1]), HexValue(s[2]), HexValue(s[3]), HexValue(s[4]))
      case (Some(a), Some(b), Some(c), Some(d)) =>
        var n := ((a * 16 + b) * 16 + c) * 16 + d;
        if 0xD800 <= n <= 0xDFFF then None else Some((n as char, 5))
      case _ => None
    else None
  }

  /** One character of a string literal, escaped or not, and how many characters of
      the text it takes. An unescaped control character is not accepted. */
  function CharAt(s: string): (r: Option<(char, nat)>)
    requires s != []
    ensures r.Some? ==> 1 <= r.value.1 <= |s|
  {
    if s[0] == '\\' then
      match Unescape(s[1..])
      case None => None
      case Some((c, n)) => Some((c, n + 1))
    else if s[0] < ' ' then None
    else Some((s[0], 1))
  }

  /** The characters of a string literal up to its closing quote, and what follows it. */
  function ParseChars(s: string): (r: Option<(string, string)>)
    ensures r.Some? ==> |r.value.1| < |s|
  {
    if s == [] then None
    else if s[0] == '"' then Some(("", s[1..]))
    else
      match CharAt(s)
      case None => None
      case Some((c, n)) =>
        match ParseChars(s[n..])
        case None => None
        case Some((t, rest)) => Some(([c] + t, rest))
  }

  /** An integer: an optional minus sign and digits without a leading zero. A fraction or
      an exponent is not accepted. */
  function ParseNumber(s: string): (r: Option<(Value, string)>)
    ensures r.Some? ==> |r.value.1| < |s|
  {
    var negative := s != [] && s[0] == '-';
    var t := if negative then s[1..] else s;
    var d := LeadingRun(t, IsDigit);
    var rest := t[|d|..];
    if d == [] || (|d| > 1 && d[0] == '0') then None
    else if rest != [] && (rest[0] == '.' || rest[0] == 'e' || rest[0] == 'E') then None
    else
      var n: int := DigitsValue(d);
      Some((VNum(if negative then -n else n), rest))
  }

  function ParseLiteral(s: string, word: string, v: Value): (r: Option<(Value, string)>)
    requires |word| >= 1
    ensures r.Some? ==> |r.value.1| < |s|
  {
    if StartsWith(s, word) then Some((v, s[|word|..])) else None
  }

  /** One value at the start of `s`, and what follows it. */
  function ParseValue(s: string): (r: Option<(Value, string)>)
    ensures r.Some? ==> |r.value.1| < |s|
    decreases |s|, 0
  {
    if s == [] then None
    else if s[0] == 'n' then ParseLiteral(s, "null", VNull)
    else if s[0] == 't' then ParseLiteral(s, "true", VBool(true))
    else if s[0] == 'f' then ParseLiteral(s, "false", VBool(false))
    else if s[0] == '"' then
      match ParseChars(s[1..])
      case None => None
      case Some((t, rest)) => Some((VStr(t), rest))
    else if s[0] == '[' then ParseArray(s[1..])
    else if s[0] == '{' then ParseObject(s[1..])
    else ParseNumber(s)
  }

  /** An array after its opening bracket. */
  function ParseArray(t: string): (r: Option<(Value, string)>)
    ensures r.Some? ==> |r.value.1| < |t|
    decreases |t|, 2
  {
    if t != [] && t[0] == ']' then Some((VArr([]), t[1..]))
    else
      match ParseItems(t)
      case None => None
      case Some((items, rest)) => Some((VArr(items), rest))
  }

  /** An object after its opening brace. */
  function ParseObject(t: string): (r: Option<(Value, string)>)
    ensures r.Some? ==> |r.value.1| < |t|
    decreases |t|, 3
  {
    if t != [] && t[0] == '}' then Some((VObj([]), t[1..]))
    else
      match ParseMembers(t)
      case None => None
      case Some((entries, rest)) => Some((VObj(entries), rest))
  }

  /** Array elements up to and including the closing bracket. */
  function ParseItems(s: string): (r: Option<(seq<Value>, string)>)
    ensures r.Some? ==> |r.value.1| < |s|
    decreases |s|, 1
  {
    match ParseValue(s)
    case None => None
    case Some((v, rest)) =>
      if rest != [] && rest[0] == ']' then Some(([v], rest[1..]))
      else if rest != [] && rest[0] == ',' then
        match ParseItems(rest[1..])
        case None => None
        case Some((vs, rest2)) => Some(([v] + vs, rest2))
      else None
  }

  /** One member: a string key, a colon and a value. */
  function ParseMember(s: string): (r: Option<((string, Value), string)>)
    ensures r.Some? ==> |r.value.1| < |s|
    decreases |s|, 1
  {
    if s == [] || s[0] != '"' then None
    else
      match ParseChars(s[1..])
      case None => None
      case Some((key, afterKey)) =>
        if afterKey == [] || afterKey[0] != ':' then None
        else
          match ParseValue(afterKey[1..])
          case None => None
          case Some((v, rest)) => Some(((key, v), rest))
  }

  /** Object members up to and including the closing brace. */
  function ParseMembers(s: string): (r: Option<(seq<(string, Value)>, string)>)
    ensures r.Some? ==> |r.value.1| < |s|
    decreases |s|, 2
  {
    match ParseMember(s)
    case None => None
    case Some((member, rest)) =>
      if rest != [] && rest[0] == '}' then Some(([member], rest[1..]))
      else if rest != [] && rest[0] == ',' then
        match ParseMembers(rest[1..])
        case None => None
        case Some((es, rest2)) => Some(([member] + es, rest2))
      else None
  }

  const ParseError := Error("Unexpected token in JSON")

  /** `JSON.parse(s)`: one value and nothing after it. */
  function Parse(s: string): Result<Value> {
    match ParseValue(s)
    case Some((v, rest)) => if rest == [] then Ok(v) else Err(ParseError)
    case None => Err(ParseError)
  }
  // ---------------------------------------------------------------- round trip

  /** A value `stringify` writes faithfully: nothing in it is undefined (numbers are
      integers by construction). */
  predicate Representable(v: Value)
    decreases v
  {
    match v
    case VUndefined => false
    case VArr(items) => forall i :: 0 <= i < |items| ==> Representable(items[i])
    case VObj(entries) => forall i :: 0 <= i < |entries| ==> Representable(entries[i].1)
    case _ => true
  }

  /** What may follow a value inside the text `stringify` writes. */
  predicate Follows(rest: string) {
    rest == [] || rest[0] == ',' || rest[0] == ']' || rest[0] == '}'
  }

  lemma HexRoundTrip(n: nat)
    requires n < 16
    ensures HexValue(HexDigit(n)) == Some(n)
  {
  }

  /** An escape reads back as the character it was written for. */
  lemma UnescapeChar(c: char, rest: string)
    requires EscapeChar(c) != [c]
    ensures EscapeChar(c)[0] == '\\'
    ensures Unescape(EscapeChar(c)[1..] + rest) == Some((c, |EscapeChar(c)| - 1))
  {
    if c < ' ' && c != '\U{0008}' && c != '\U{000C}' && c != '\n' && c != '\r' && c != '\t' {
      var hi := c as int / 16;
      var lo := c as int % 16;
      var e := EscapeChar(c)[1..] + rest;
      assert e[..5] == ['u', '0', '0', HexDigit(hi), HexDigit(lo)];
      HexRoundTrip(hi);
      HexRoundTrip(lo);
      assert ((0 * 16 + 0) * 16 + hi) * 16 + lo == c as int;
    }
  }

  /** A written character reads back as itself, and takes exactly its escape. */
  lemma CharReadBack(c: char, tail: string)
    ensures CharAt(EscapeChar(c) + tail) == Some((c, |EscapeChar(c)|))
    ensures (EscapeChar(c) + tail)[0] != '"'
  {
    var e := EscapeChar(c);
    if e == [c] {
      assert (e + tail)[0] == c;
    } else {
      UnescapeChar(c, tail);
      assert (e + tail)[1..] == e[1..] + tail;
    }
  }

  /** The characters of an escaped string, then the closing quote, read back as the string. */
  lemma {:induction false} CharsRoundTrip(t: string, rest: string)
    ensures ParseChars(Escape(t) + "\"" + rest) == Some((t, rest))
  {
    var s := Escape(t) + "\"" + rest;
    if t == [] {
      assert s == "\"" + rest;
    } else {
      var e := EscapeChar(t[0]);
      var tail := Escape(t[1..]) + "\"" + rest;
      assert s == e + tail;
      CharReadBack(t[0], tail);
      assert s[|e|..] == tail;
      CharsRoundTrip(t[1..], rest);
      assert [t[0]] + t[1..] == t;
    }
  }

  lemma QuoteRoundTrip(t: string, rest: string)
    ensures ParseValue(Quote(t) + rest) == Some((VStr(t), rest))
  {
    var s := Quote(t) + rest;
    assert s[1..] == Escape(t) + "\"" + rest;
    CharsRoundTrip(t, rest);
  }

  /** Digits without a leading zero, then what may follow a value: the digits are the
      number read. */
  lemma DigitsReadBack(t: string, m: nat, rest: string)
    requires Follows(rest) && t == NatToString(m) + rest
    ensures LeadingRun(t, IsDigit) == NatToString(m)
    ensures t[|NatToString(m)|..] == rest
    ensures DigitsValue(NatToString(m)) == m
  {
    var d := NatToString(m);
    LeadingRunConcat(d, rest, IsDigit);
    DigitsRoundTrip(m);
  }

  lemma UnsignedReadBack(m: nat, rest: string)
    requires Follows(rest)
    ensures ParseNumber(NatToString(m) + rest) == Some((VNum(m), rest))
  {
    var s := NatToString(m) + rest;
    assert s[0] == NatToString(m)[0] && IsDigit(s[0]);
    DigitsReadBack(s, m, rest);
  }

  lemma SignedReadBack(m: nat, rest: string)
    requires Follows(rest)
    ensures ParseNumber("-" + NatToString(m) + rest) == Some((VNum(-(m as int)), rest))
  {
    UnsignedReadBack(m, rest);
    assert (NatToString(m) + rest)[0] == NatToString(m)[0];
    MinusReadBack(NatToString(m) + rest);
    assert "-" + NatToString(m) + rest == "-" + (NatToString(m) + rest);
  }

  /** A minus sign before the text of a number reads back as its negation. */
  lemma MinusReadBack(t: string)
    requires t != [] && IsDigit(t[0]) && ParseNumber(t).Some?
    ensures var r := ParseNumber(t).value;
      r.0.VNum? && ParseNumber("-" + t) == Some((VNum(-r.0.n), r.1))
  {
    var s := "-" + t;
    assert s[0] == '-' && s[1..] == t;
  }

  /** A number's text goes to the number parser. */
  lemma NumberDispatch(s: string)
    requires s != [] && (s[0] == '-' || IsDigit(s[0]))
    ensures ParseValue(s) == ParseNumber(s)
  {
    var c := s[0];
    assert c != 'n' && c != 't' && c != 'f' && c != '"' && c != '[' && c != '{';
  }

  lemma NegativeRoundTrip(m: nat, rest: string)
    requires Follows(rest)
    ensures ParseValue("-" + NatToString(m) + rest) == Some((VNum(-(m as int)), rest))
  {
    SignedReadBack(m, rest);
    NumberDispatch("-" + NatToString(m) + rest);
  }

  lemma UnsignedRoundTrip(m: nat, rest: string)
    requires Follows(rest)
    ensures ParseValue(NatToString(m) + rest) == Some((VNum(m), rest))
  {
    var s := NatToString(m) + rest;
    assert s[0] == NatToString(m)[0];
    UnsignedReadBack(m, rest);
    NumberDispatch(s);
  }

  lemma NumberRoundTrip(n: int, rest: string)
    requires Follows(rest)
    ensures ParseValue(IntToString(n) + rest) == Some((VNum(n), rest))
  {
    if n < 0 {
      NegativeRoundTrip(-n, rest);
    } else {
      UnsignedRoundTrip(n, rest);
    }
  }

  lemma LiteralRoundTrip(word: string, v: Value, rest: string)
    requires |word| >= 1
    ensures ParseLiteral(word + rest, word, v) == Some((v, rest))
  {
    assert (word + rest)[..|word|] == word;
    assert (word + rest)[|word|..] == rest;
  }

  /** What `stringify` writes starts with a character that opens a value. */
  lemma SerFirst(v: Value)
    ensures Ser(v)[0] != ']' && Ser(v)[0] != '}' && Ser(v)[0] != ',' && Ser(v)[0] != ':'
  {
    if v.VNum? && v.n < 0 {
      assert Ser(v)[0] == '-';
    } else if v.VNum? {
      assert Ser(v)[0] == NatToString(v.n)[0];
    }
  }

  lemma DefinedAll(entries: seq<(string, Value)>)
    requires forall i :: 0 <= i < |entries| ==> !entries[i].1.VUndefined?
    ensures Defined(entries) == entries
  {
    if entries != [] {
      DefinedAll(entries[1..]);
    }
  }

  /** An array's text reads back once its elements do. */
  lemma ArrayStep(items: seq<Value>, rest: string)
    requires items == [] || ParseItems(SerItems(items) + "]" + rest) == Some((items, rest))
    ensures ParseValue(Ser(VArr(items)) + rest) == Some((VArr(items), rest))
  {
    var s := Ser(VArr(items)) + rest;
    var t := SerItems(items) + "]" + rest;
    assert s == "[" + t && s[0] == '[' && s[1..] == t;
    if items == [] {
      assert t == "]" + rest;
    } else {
      ItemsFirst(items);
    }
  }

  /** The text of an object none of whose members is undefined. */
  lemma ObjectText(entries: seq<(string, Value)>)
    requires forall i :: 0 <= i < |entries| ==> entries[i].1 < VObj(entries)
    requires Defined(entries) == entries
    ensures Ser(VObj(entries)) == "{" + SerMembers(entries, VObj(entries)) + "}"
  {
  }

  /** An object after its opening brace reads back once its members do. */
  lemma ObjectParse(t: string, entries: seq<(string, Value)>, rest: string)
    requires if entries == [] then t == "}" + rest
             else t != [] && t[0] == '"' && ParseMembers(t) == Some((entries, rest))
    ensures ParseObject(t) == Some((VObj(entries), rest))
  {
  }

  /** Text between two delimiters, then more text: what follows the opening one. */
  lemma Enclosed(u: string, m: string, close: char, rest: string)
    requires |u| >= 1 && u == [u[0]] + m + [close]
    ensures (u + rest)[0] == u[0] && (u + rest)[1..] == m + [close] + rest
  {
    assert u + rest == [u[0]] + (m + [close] + rest);
  }

  /** An object's text reads back once its members do. */
  lemma ObjectStep(entries: seq<(string, Value)>, rest: string)
    requires forall i :: 0 <= i < |entries| ==> entries[i].1 < VObj(entries)
    requires Defined(entries) == entries
    requires entries == [] || ParseMembers(SerMembers(entries, VObj(entries)) + "}" + rest) == Some((entries, rest))
    ensures ParseValue(Ser(VObj(entries)) + rest) == Some((VObj(entries), rest))
  {
    var m := SerMembers(entries, VObj(entries));
    ObjectText(entries);
    Enclosed(Ser(VObj(entries)), m, '}', rest);
    if entries != [] {
      MembersFirst(entries, VObj(entries));
    }
    ObjectParse(m + "}" + rest, entries, rest);
    ValueDispatch(Ser(VObj(entries)) + rest);
  }

  /** A value is read by what its first character opens. */
  lemma ValueDispatch(s: string)
    requires s != []
    ensures s[0] == '[' ==> ParseValue(s) == ParseArray(s[1..])
    ensures s[0] == '{' ==> ParseValue(s) == ParseObject(s[1..])
  {
  }

  lemma MembersFirst(entries: seq<(string, Value)>, parent: Value)
    requires entries != []
    requires forall i :: 0 <= i < |entries| ==> entries[i].1 < parent
    ensures SerMembers(entries, parent)[0] == '"'
  {
    assert SerMembers(entries, parent)[0] == Quote(entries[0].0)[0];
  }

  /** Reading back what `stringify` wrote for a value gives the value, whatever follows. */
  lemma {:induction false} ValueRoundTrip(v: Value, rest: string)
    requires Representable(v) && Follows(rest)
    ensures ParseValue(Ser(v) + rest) == Some((v, rest))
    decreases v, 1
  {
    match v
    case VNull => LiteralRoundTrip("null", VNull, rest);
    case VBool(b) =>
      if b { LiteralRoundTrip("true", v, rest); } else { LiteralRoundTrip("false", v, rest); }
    case VNum(n) => NumberRoundTrip(n, rest);
    case VStr(t) => QuoteRoundTrip(t, rest);
    case VArr(items) =>
      if items != [] {
        ItemsRoundTrip(items, rest);
      }
      ArrayStep(items, rest);
    case VObj(entries) =>
      DefinedAll(entries);
      assert forall i :: 0 <= i < |entries| ==> entries[i].1 < v by {
        forall i | 0 <= i < |entries|
          ensures entries[i].1 < v
        {
          assert entries[i] in entries;
        }
      }
      if entries != [] {
        MembersRoundTrip(entries, v, rest);
      }
      ObjectStep(entries, rest);
  }

  lemma ItemsFirst(items: seq<Value>)
    requires items != []
    ensures SerItems(items)[0] != ']'
  {
    SerFirst(items[0]);
    assert SerItems(items)[0] == Ser(items[0])[0];
  }

  /** The elements after one element: the closing bracket ends them. */
  lemma ItemsLast(s: string, x: Value, rest: string)
    requires ParseValue(s) == Some((x, "]" + rest))
    ensures ParseItems(s) == Some(([x], rest))
  {
    assert ("]" + rest)[1..] == rest;
  }

  /** The elements after one element: a comma and more elements. */
  lemma ItemsNext(s: string, x: Value, tail: string, xs: seq<Value>, rest: string)
    requires ParseValue(s) == Some((x, "," + tail))
    requires ParseItems(tail) == Some((xs, rest))
    ensures ParseItems(s) == Some(([x] + xs, rest))
  {
    assert ("," + tail)[1..] == tail;
  }

  /** The first element's text, then the others'. */
  lemma ItemsText(items: seq<Value>)
    requires items != []
    ensures SerItems(items) == Ser(items[0]) + (if |items| == 1 then "" else "," + SerItems(items[1..]))
  {
  }

  lemma {:induction false} ItemsRoundTrip(items: seq<Value>, rest: string)
    requires items != []
    requires forall i :: 0 <= i < |items| ==> Representable(items[i])
    requires Follows(rest)
    ensures ParseItems(SerItems(items) + "]" + rest) == Some((items, rest))
    decreases items, 0
  {
    var x := items[0];
    var more := if |items| == 1 then "" else "," + SerItems(items[1..]);
    var after := more + "]" + rest;
    var s := SerItems(items) + "]" + rest;
    assert ParseValue(s) == Some((x, after)) by {
      ItemsText(items);
      Regroup(Ser(x), more, "]", rest);
      ValueRoundTrip(x, after);
    }
    HeadTail(items);
    if |items| == 1 {
      assert after == "]" + rest;
      ItemsLast(s, x, rest);
    } else {
      var tail := SerItems(items[1..]) + "]" + rest;
      Regroup(",", SerItems(items[1..]), "]", rest);
      ItemsRoundTrip(items[1..], rest);
      ItemsNext(s, x, tail, items[1..], rest);
    }
  }

  /** A quoted key, then what follows it: the opening quote comes off first. */
  lemma QuotedText(e: string, more: string, value: string, after: string)
    ensures var s := "\"" + e + "\"" + more + value + after;
      s[0] == '"' && s[1..] == e + "\"" + (more + value + after)
  {
    assert "\"" + e + "\"" + more + value + after == "\"" + (e + "\"" + (more + value + after));
  }

  /** The text after a key: the colon comes off first. */
  lemma ColonText(value: string, after: string)
    ensures var s := ":" + value + after; s[0] == ':' && s[1..] == value + after
  {
    assert ":" + value + after == ":" + (value + after);
  }

  /** A member reads back as its key and value. */
  lemma MemberRoundTrip(key: string, x: Value, after: string)
    requires ParseValue(Ser(x) + after) == Some((x, after))
    ensures ParseMember(Quote(key) + ":" + Ser(x) + after) == Some(((key, x), after))
  {
    var afterKey := ":" + Ser(x) + after;
    QuotedText(Escape(key), ":", Ser(x), after);
    CharsRoundTrip(key, afterKey);
    ColonText(Ser(x), after);
  }

  /** The first member's text, then the others'. */
  lemma MembersText(entries: seq<(string, Value)>, parent: Value)
    requires entries != []
    requires forall i :: 0 <= i < |entries| ==> entries[i].1 < parent
    ensures SerMembers(entries, parent)
         == Quote(entries[0].0) + ":" + Ser(entries[0].1)
            + (if |entries| == 1 then "" else "," + SerMembers(entries[1..], parent))
  {
  }

  lemma Regroup(head: string, more: string, close: string, rest: string)
    ensures head + more + close + rest == head + (more + close + rest)
  {
  }

  /** The members list after one member: the closing brace ends it. */
  lemma MembersLast(s: string, member: (string, Value), rest: string)
    requires ParseMember(s) == Some((member, "}" + rest))
    ensures ParseMembers(s) == Some(([member], rest))
  {
    assert ("}" + rest)[1..] == rest;
  }

  /** The members list after one member: a comma and more members. */
  lemma MembersNext(s: string, member: (string, Value), tail: string, es: seq<(string, Value)>, rest: string)
    requires ParseMember(s) == Some((member, "," + tail))
    requires ParseMembers(tail) == Some((es, rest))
    ensures ParseMembers(s) == Some(([member] + es, rest))
  {
    assert ("," + tail)[1..] == tail;
  }

  /** The first member of an object's text reads back, and the parser goes on after it. */
  lemma FirstMemberRoundTrip(entries: seq<(string, Value)>, parent: Value, rest: string)
    requires entries != []
    requires forall i :: 0 <= i < |entries| ==> entries[i].1 < parent && Representable(entries[i].1)
    requires Follows(rest)
    ensures ParseMember(SerMembers(entries, parent) + "}" + rest)
         == Some((entries[0], if |entries| == 1 then "}" + rest
                              else "," + (SerMembers(entries[1..], parent) + "}" + rest)))
    decreases parent, 0, |entries|, 0
  {
    var key := entries[0].0;
    var x := entries[0].1;
    var head := Quote(key) + ":" + Ser(x);
    var more := if |entries| == 1 then "" else "," + SerMembers(entries[1..], parent);
    var after := more + "}" + rest;
    MembersText(entries, parent);
    Regroup(head, more, "}", rest);
    if |entries| == 1 {
      assert after == "}" + rest;
    } else {
      Regroup(",", SerMembers(entries[1..], parent), "}", rest);
    }
    ValueRoundTrip(x, after);
    MemberRoundTrip(key, x, after);
  }

  lemma {:induction false} MembersRoundTrip(entries: seq<(string, Value)>, parent: Value, rest: string)
    requires entries != []
    requires forall i :: 0 <= i < |entries| ==> entries[i].1 < parent && Representable(entries[i].1)
    requires Follows(rest)
    ensures ParseMembers(SerMembers(entries, parent) + "}" + rest) == Some((entries, rest))
    decreases parent, 0, |entries|, 1
  {
    var s := SerMembers(entries, parent) + "}" + rest;
    FirstMemberRoundTrip(entries, parent, rest);
    HeadTail(entries);
    if |entries| == 1 {
      MembersLast(s, entries[0], rest);
    } else {
      MembersRoundTrip(entries[1..], parent, rest);
      MembersNext(s, entries[0], SerMembers(entries[1..], parent) + "}" + rest, entries[1..], rest);
    }
  }

  /** `JSON.parse(JSON.stringify(v))` is `v` for every representable value. */
  lemma ParseStringify(v: Value)
    requires Representable(v)
    ensures Stringify(v).Some?
    ensures Parse(Stringify(v).value) == Ok(v)
  {
    ValueRoundTrip(v, "");
    assert Ser(v) + "" == Ser(v);
  }
}
