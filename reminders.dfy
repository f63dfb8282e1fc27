/** `ReminderService`: reads the reminders out of the chat bot's reply messages, formats
    a date-time input and names a repeat type. */
module Reminders {
  import opened Text
  import opened Values

  /** One reminder as `parseReminders` builds it. `createdAt` is the clock's
      `toLocaleString('vi-VN')`, taken as a parameter. */
  datatype Reminder = Reminder(
    id: nat,
    person: string,
    content: string,
    time: string,
    repeatType: string,
    rawText: string,
    createdAt: string)

  /** The text of the single message that means there is nothing to list. */
  const NoReminders: string := "Bạn chưa có nhắc nhở nào"

  const PersonLabel: string := "Người nhận:"
  const ContentLabel: string := "Nội dung:"
  const TimeLabel: string := "Vào lúc:"
  const RepeatLabel: string := "Lặp lại:"

  // ---------------------------------------------------------------- one message

  /** The repeat types the application knows, by their keys. */
  datatype Repeat = No | Day | Week | Month | Weekday | Weekend

  /** The key a repeat type is stored and sent under. */
  function Key(r: Repeat): string {
    match r
    case No => "no"
    case Day => "day"
    case Week => "week"
    case Month => "month"
    case Weekday => "weekday"
    case Weekend => "weekend"
  }

  /** The four fields the scan of a message's lines fills in. */
  datatype Fields = Fields(person: string, content: string, time: string, repeat: Repeat)

  /** The fields before any line is read. */
  const NoFields: Fields := Fields("", "", "", No)

  /** Which field a line sets: the first label it contains, in the order person,
      content, time, repeat. */
  datatype LineKind = PersonLine | ContentLine | TimeLine | RepeatLine | OtherLine

  function KindOf(line: string): LineKind {
    if Contains(line, PersonLabel) then PersonLine
    else if Contains(line, ContentLabel) then ContentLine
    else if Contains(line, TimeLabel) then TimeLine
    else if Contains(line, RepeatLabel) then RepeatLine
    else OtherLine
  }

  function LabelOf(kind: LineKind): string
    requires kind != OtherLine
  {
    match kind
    case PersonLine => PersonLabel
    case ContentLine => ContentLabel
    case TimeLine => TimeLabel
    case RepeatLine => RepeatLabel
  }

  /** `line.replace(label, '').trim()` */
  function FieldText(line: string, tag: string): string {
    Trim(ReplaceFirst(line, tag, ""))
  }

  /** The repeat type a repeat text names: daily, weekly and monthly are checked in that
      order, anything else is `no`. */
  function RepeatTypeOf(repeatText: string): (r: Repeat)
    ensures r != Weekday && r != Weekend
  {
    if Contains(repeatText, "hàng ngày") then Day
    else if Contains(repeatText, "hàng tuần") then Week
    else if Contains(repeatText, "hàng tháng") then Month
    else No
  }

  /** The effect of one line on the fields. */
  function Step(f: Fields, line: string): Fields {
    match KindOf(line)
    case PersonLine => f.(person := FieldText(line, PersonLabel))
    case ContentLine => f.(content := FieldText(line, ContentLabel))
    case TimeLine => f.(time := FieldText(line, TimeLabel))
    case RepeatLine => f.(repeat := RepeatTypeOf(FieldText(line, RepeatLabel)))
    case OtherLine => f
  }

  /** A `forEach` over `lines` that only updates local state: the state after the first
      `k` lines, starting from `init`. */
  function Fold<S>(step: (S, string) -> S, init: S, lines: seq<string>, k: nat): S
    requires k <= |lines|
  {
    if k == 0 then init else step(Fold(step, init, lines, k - 1), lines[k - 1])
  }

  /** A property the start state has and every step keeps holds after any prefix. */
  lemma {:induction false} FoldKeeps<S>(step: (S, string) -> S, init: S, inv: S -> bool,
                                       lines: seq<string>, k: nat)
    requires k <= |lines| && inv(init)
    requires forall s, line :: inv(s) ==> inv(step(s, line))
    ensures inv(Fold(step, init, lines, k))
  {
    if k > 0 {
      FoldKeeps(step, init, inv, lines, k - 1);
    }
  }

  /** A part of the state that each line either overwrites with a value of its own or
      leaves alone holds the value of the last line that writes it. */
  lemma {:induction false} LastWriteWins<S, V>(step: (S, string) -> S, init: S, part: S -> V,
                                              writes: string -> bool, written: string -> V,
                                              lines: seq<string>, k: nat, j: nat)
    requires forall s, line :: part(step(s, line)) == if writes(line) then written(line) else part(s)
    requires j < k <= |lines| && writes(lines[j])
    requires forall i :: j < i < k ==> !writes(lines[i])
    ensures part(Fold(step, init, lines, k)) == written(lines[j])
  {
    if j < k - 1 {
      LastWriteWins(step, init, part, writes, written, lines, k - 1, j);
    }
  }

  /** A part of the state no line writes keeps its initial value. */
  lemma {:induction false} NoWriteKeeps<S, V>(step: (S, string) -> S, init: S, part: S -> V,
                                            writes: string -> bool, written: string -> V,
                                            lines: seq<string>, k: nat)
    requires forall s, line :: part(step(s, line)) == if writes(line) then written(line) else part(s)
    requires k <= |lines| && forall i :: 0 <= i < k ==> !writes(lines[i])
    ensures part(Fold(step, init, lines, k)) == part(init)
  {
    if k > 0 {
      NoWriteKeeps(step, init, part, writes, written, lines, k - 1);
    }
  }

  /** The fields after reading the first `k` lines in order. */
  function FieldsUpTo(lines: seq<string>, k: nat): Fields
    requires k <= |lines|
  {
    Fold(Step, NoFields, lines, k)
  }

  /** The fields after reading all the lines. */
  function FieldsOf(lines: seq<string>): Fields {
    FieldsUpTo(lines, |lines|)
  }

  /** The `forEach` over a message's lines: each line matching a label overwrites that
      label's local. */
  method ScanLines(lines: seq<string>)
    returns (person: string, content: string, time: string, repeatType: Repeat)
    ensures Fields(person, content, time, repeatType) == FieldsOf(lines)
  {
    person, content, time, repeatType := "", "", "", No;
    var k := 0;
    while k < |lines|
      invariant 0 <= k <= |lines|
      invariant Fields(person, content, time, repeatType) == FieldsUpTo(lines, k)
    {
      person, content, time, repeatType := ReadLine(lines, k, person, content, time, repeatType);
      k := k + 1;
    }
  }

  /** The callback of that `forEach`, for one line. */
  method ReadLine(lines: seq<string>, k: nat,
                  person0: string, content0: string, time0: string, repeat0: Repeat)
    returns (person: string, content: string, time: string, repeatType: Repeat)
    requires k < |lines| && Fields(person0, content0, time0, repeat0) == FieldsUpTo(lines, k)
    ensures Fields(person, content, time, repeatType) == FieldsUpTo(lines, k + 1)
  {
    var line := lines[k];
    assert FieldsUpTo(lines, k + 1) == Step(FieldsUpTo(lines, k), line);
    person, content, time, repeatType := person0, content0, time0, repeat0;
    if Contains(line, PersonLabel) {
      person := Trim(ReplaceFirst(line, PersonLabel, ""));
    } else if Contains(line, ContentLabel) {
      content := Trim(ReplaceFirst(line, ContentLabel, ""));
    } else if Contains(line, TimeLabel) {
      time := Trim(ReplaceFirst(line, TimeLabel, ""));
    } else if Contains(line, RepeatLabel) {
      var repeatText := Trim(ReplaceFirst(line, RepeatLabel, ""));
      if Contains(repeatText, "hàng ngày") {
        repeatType := Day;
      } else if Contains(repeatText, "hàng tuần") {
        repeatType := Week;
      } else if Contains(repeatText, "hàng tháng") {
        repeatType := Month;
      } else {
        repeatType := No;
      }
    }
  }

  /** The field a kind of line sets, read back as a string. */
  function Slot(f: Fields, kind: LineKind): string
    requires kind != OtherLine
  {
    match kind
    case PersonLine => f.person
    case ContentLine => f.content
    case TimeLine => f.time
    case RepeatLine => Key(f.repeat)
  }

  /** The value a line of the given kind stores in its field. */
  function Extracted(line: string, kind: LineKind): string
    requires kind != OtherLine
  {
    if kind == RepeatLine then Key(RepeatTypeOf(FieldText(line, RepeatLabel)))
    else FieldText(line, LabelOf(kind))
  }

  /** A line sets its own field and leaves the other three alone. */
  lemma StepSlot(f: Fields, line: string, kind: LineKind)
    requires kind != OtherLine
    ensures Slot(Step(f, line), kind) == if KindOf(line) == kind then Extracted(line, kind) else Slot(f, kind)
  {
  }

  lemma StepSlots(kind: LineKind)
    requires kind != OtherLine
    ensures forall f, line ::
      Slot(Step(f, line), kind) == if KindOf(line) == kind then Extracted(line, kind) else Slot(f, kind)
  {
    forall f, line
      ensures Slot(Step(f, line), kind)
        == if KindOf(line) == kind then Extracted(line, kind) else Slot(f, kind)
    {
      StepSlot(f, line, kind);
    }
  }

  /** A field no line is of keeps its initial value. */
  lemma UnsetSlot(lines: seq<string>, k: nat, kind: LineKind)
    requires kind != OtherLine && k <= |lines|
    requires forall j :: 0 <= j < k ==> KindOf(lines[j]) != kind
    ensures Slot(FieldsUpTo(lines, k), kind) == Slot(NoFields, kind)
  {
    StepSlots(kind);
    NoWriteKeeps(Step, NoFields, f => Slot(f, kind), line => KindOf(line) == kind,
      line => Extracted(line, kind), lines, k);
  }

  /** Each field holds the value of the last line of its kind. */
  lemma LastLineWins(lines: seq<string>, k: nat, kind: LineKind, j: nat)
    requires kind != OtherLine && j < k <= |lines|
    requires KindOf(lines[j]) == kind
    requires forall i :: j < i < k ==> KindOf(lines[i]) != kind
    ensures Slot(FieldsUpTo(lines, k), kind) == Extracted(lines[j], kind)
  {
    StepSlots(kind);
    LastWriteWins(Step, NoFields, f => Slot(f, kind), line => KindOf(line) == kind,
      line => Extracted(line, kind), lines, k, j);
  }

  /** The repeat type is one of the four the scan assigns, never `weekday` or `weekend`. */
  lemma RepeatTypeKnown(lines: seq<string>, k: nat)
    requires k <= |lines|
    ensures FieldsUpTo(lines, k).repeat != Weekday && FieldsUpTo(lines, k).repeat != Weekend
  {
    var known := (f: Fields) => f.repeat != Weekday && f.repeat != Weekend;
    assert forall f, line :: known(f) ==> known(Step(f, line));
    FoldKeeps(Step, NoFields, known, lines, k);
  }

  // ---------------------------------------------------------------- messages

  /** `v.includes(needle)`: a string's substring test, an array's membership test;
      null and undefined throw on the property read, other values have no such method. */
  function Includes(v: Value, needle: string): Result<bool> {
    match v
    case VStr(s) => Ok(Contains(s, needle))
    case VArr(items) => Ok(VStr(needle) in items)
    case VUndefined => Err(TypeErrorRead("includes"))
    case VNull => Err(TypeErrorRead("includes"))
    case _ => Err(TypeErrorNotFunction("includes"))
  }

  /** The `map` callback for message `index`: `message.text || ''`, split into its
      non-blank lines and scanned. */
  function ParseMessage(message: Value, index: nat, now: string): (r: Result<Reminder>)
    ensures r.Ok? ==> r.value.id == index
  {
    match Prop(message, "text")
    case Err(e) => Err(e)
    case Ok(t) =>
      var text := if Truthy(t) then t else VStr("");
      if !text.VStr? then Err(TypeErrorNotFunction("text.split"))
      else
        var f := FieldsOf(NonBlank(Split(text.s, '\n')));
        Ok(Reminder(index, f.person, f.content, f.time, Key(f.repeat), text.s, now))
  }

  /** `messages.map(...)`: one reminder per message, in order; the first message that
      throws ends the whole call. */
  function MapMessages(messages: seq<Value>, now: string): Result<seq<Reminder>> {
    Collect(seq(|messages|, i requires 0 <= i < |messages| => ParseMessage(messages[i], i, now)))
  }

  /** `parseReminders(data)`, the clock's reading passed in as `now`. */
  function ParseReminders(data: Value, now: string): (r: Result<seq<Reminder>>)
    ensures (data.VUndefined? || data.VNull?) ==> r.Err?
  {
    match Prop(data, "messages")
    case Err(e) => Err(e)
    case Ok(messages) =>
      if !Truthy(messages) || !messages.VArr? then Ok([])
      else
        var items := messages.items;
        if |items| == 1 then
          match Prop(items[0], "text")
          case Err(e) => Err(e)
          case Ok(t) =>
            match Includes(t, NoReminders)
            case Err(e) => Err(e)
            case Ok(none) => if none then Ok([]) else MapMessages(items, now)
        else MapMessages(items, now)
  }

  /** An object whose `messages` is missing or is not an array has no reminders. */
  lemma NoMessagesNoReminders(data: Value, now: string)
    requires data.VObj? && !Get(EntriesToRecord(data.entries), "messages").VArr?
    ensures ParseReminders(data, now) == Ok([])
  {
  }

  /** A lone message saying there are no reminders gives none. */
  lemma NothingToRemind(data: Value, message: Value, text: string, now: string)
    requires Prop(data, "messages") == Ok(VArr([message]))
    requires Prop(message, "text") == Ok(VStr(text)) && Contains(text, NoReminders)
    ensures ParseReminders(data, now) == Ok([])
  {
  }

  /** Otherwise each message gives one reminder, in order, numbered by its position,
      carrying its text and the fields its lines set. */
  lemma OneReminderPerMessage(data: Value, now: string)
    requires data.VObj?
    requires ParseReminders(data, now).Ok? && ParseReminders(data, now).value != []
    ensures var messages := Get(EntriesToRecord(data.entries), "messages");
      var rs := ParseReminders(data, now).value;
      messages.VArr? && |rs| == |messages.items|
      && forall i :: 0 <= i < |rs| ==>
           rs[i].id == i && rs[i] == ParseMessage(messages.items[i], i, now).value
  {
  }

  // ---------------------------------------------------------------- formatDateTime

  /** `datetimeInput.replace('T', ' ')`: the first `T`, and only it, becomes a space. */
  function FormatDateTime(input: string): (r: string)
    ensures 'T' !in input ==> r == input
    ensures 'T' in input ==> r == input[IndexOfChar(input, 'T') := ' ']
  {
    IndexOfOneChar(input, 'T');
    var i := IndexOfChar(input, 'T');
    assert i >= 0 ==> input[..i] + " " + input[i + 1..] == input[i := ' '];
    ReplaceFirst(input, "T", " ")
  }

  /** The date-time picker's `YYYY-MM-DDTHH:mm` becomes `YYYY-MM-DD HH:mm`. */
  lemma FormatPickerValue(date: string, time: string)
    requires 'T' !in date
    ensures FormatDateTime(date + "T" + time) == date + " " + time
  {
    var s := date + "T" + time;
    assert s[|date|] == 'T';
    var i := IndexOfChar(s, 'T');
    assert i == |date| by {
      assert s[..|date|] == date;
    }
    assert s[i := ' '] == date + " " + time;
  }

  // ---------------------------------------------------------------- getRepeatLabel

  /** The `labels` object of `getRepeatLabel`. */
  const RepeatLabels: map<string, string> := map[
    "no" := "Không lặp",
    "day" := "Mỗi ngày",
    "week" := "Mỗi tuần",
    "month" := "Mỗi tháng",
    "weekday" := "Ngày trong tuần",
    "weekend" := "Cuối tuần"]

  /** The members every plain object inherits from `Object.prototype`: `labels[k]` for
      one of these names is a function (the prototype object itself for `__proto__`). */
  const InheritedKeys: set<string> := {
    "constructor", "hasOwnProperty", "isPrototypeOf", "propertyIsEnumerable", "toLocaleString",
    "toString", "valueOf", "__proto__", "__defineGetter__", "__defineSetter__",
    "__lookupGetter__", "__lookupSetter__"}

  /** What `getRepeatLabel` returns: a label, or the inherited member of that name, which
      is truthy and so survives the `||`. */
  datatype RepeatLabelValue = Label(text: string) | Inherited(name: string)

  /** `labels[repeatType] || 'Không lặp'` */
  function GetRepeatLabel(repeatType: string): (r: RepeatLabelValue)
    ensures repeatType in RepeatLabels ==> r == Label(RepeatLabels[repeatType])
    ensures repeatType !in RepeatLabels && repeatType in InheritedKeys ==> r == Inherited(repeatType)
    ensures repeatType !in RepeatLabels && repeatType !in InheritedKeys ==> r == Label("Không lặp")
  {
    if repeatType in RepeatLabels && RepeatLabels[repeatType] != "" then Label(RepeatLabels[repeatType])
    else if repeatType in InheritedKeys then Inherited(repeatType)
    else Label("Không lặp")
  }

  /** Different known repeat types have different labels. */
  lemma RepeatLabelsDistinct(a: string, b: string)
    requires a in RepeatLabels && b in RepeatLabels && a != b
    ensures GetRepeatLabel(a) != GetRepeatLabel(b)
  {
  }

  /** A parsed reminder's label is never the weekday or the weekend one. */
  lemma ParsedLabel(lines: seq<string>)
    ensures GetRepeatLabel(Key(FieldsOf(lines).repeat)) != Label(RepeatLabels["weekday"])
    ensures GetRepeatLabel(Key(FieldsOf(lines).repeat)) != Label(RepeatLabels["weekend"])
  {
    RepeatTypeKnown(lines, |lines|);
    var k := Key(FieldsOf(lines).repeat);
    RepeatLabelsDistinct(k, "weekday");
    RepeatLabelsDistinct(k, "weekend");
  }
}
