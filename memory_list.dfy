/** What the two memory composables share: pages of ten, the `daysInfo` object attached to
    a displayed memory, the add/edit form and its validation. */
module MemoryList {
  import opened Text
  import opened Values
  import opened Dates
  import opened DaysRemaining

  // ---------------------------------------------------------------- pages

  const PageSize := 10

  /** `list.slice(page * pageSize, page * pageSize + pageSize)` */
  function Page<T>(xs: seq<T>, page: nat): (r: seq<T>)
    ensures |r| <= PageSize
    ensures r == [] <==> page * PageSize >= |xs|
    ensures forall i :: 0 <= i < |r| ==> page * PageSize + i < |xs| && r[i] == xs[page * PageSize + i]
  {
    var start := page * PageSize;
    var end := start + PageSize;
    if start >= |xs| then []
    else if end <= |xs| then xs[start..end]
    else xs[start..]
  }

  /** `hasMore()`: the next page would start inside the list. */
  predicate HasMore(page: nat, length: nat) {
    (page + 1) * PageSize < length
  }

  /** The page `loadMore` moves to: the next one if it starts inside the list. */
  function NextPage(page: nat, length: nat): (r: nat)
    ensures r == page || r == page + 1
  {
    if (page + 1) * PageSize >= length then page else page + 1
  }

  /** `loadMore` advances exactly when `hasMore()` holds, and then onto a page that has
      something to show. */
  lemma LoadMoreIffHasMore<T>(xs: seq<T>, page: nat)
    ensures NextPage(page, |xs|) == page + 1 <==> HasMore(page, |xs|)
    ensures HasMore(page, |xs|) <==> Page(xs, page + 1) != []
  {
  }

  /** Every element of the list is shown on exactly one page: element `i` at position
      `i % 10` of page `i / 10`. */
  lemma EveryItemOnOnePage<T>(xs: seq<T>, i: nat, page: nat)
    requires i < |xs|
    ensures page * PageSize <= i < page * PageSize + |Page(xs, page)| <==> page == i / PageSize
    ensures |Page(xs, i / PageSize)| > i % PageSize && Page(xs, i / PageSize)[i % PageSize] == xs[i]
  {
    var p := i / PageSize;
    assert p * PageSize <= i < p * PageSize + PageSize;
    if page < p {
      assert page * PageSize + PageSize <= p * PageSize;
    } else if page > p {
      assert page * PageSize >= p * PageSize + PageSize;
    }
  }

  /** Once `hasMore()` fails, the pages up to the current one hold the whole list. */
  lemma NoMoreMeansAllShown(page: nat, length: nat)
    requires !HasMore(page, length)
    ensures forall i :: 0 <= i < length ==> i / PageSize <= page
  {
    forall i | 0 <= i < length
      ensures i / PageSize <= page
    {
      assert i < (page + 1) * PageSize;
    }
  }

  // ---------------------------------------------------------------- daysInfo

  /** `memoriesService.calculateDaysRemaining` as the composables see it: the service's
      result for an event date, with today's midnight fixed. */
  function CalculateAt(today: Date): (f: string -> DaysInfo)
    requires ValidDate(today)
    ensures forall s :: f(s) == DaysRemaining.DaysRemaining(s, today)
  {
    s => DaysRemaining.DaysRemaining(s, today)
  }

  /** `calculateDaysRemaining(eventDate)` on whatever value a record holds: the method begins
      with `eventDate.split('-')`, which throws unless the value is a string. */
  function InfoOf(eventDate: Value, calculate: string -> DaysInfo): (r: Result<DaysInfo>)
    ensures r.Ok? <==> eventDate.VStr?
    ensures r.Ok? ==> r.value == calculate(eventDate.s)
  {
    match eventDate
    case VStr(s) => Ok(calculate(s))
    case VUndefined => Err(TypeErrorRead("split"))
    case VNull => Err(TypeErrorRead("split"))
    case _ => Err(TypeErrorNotFunction("eventDate.split"))
  }

  /** The object `{ label, dateFormatted, isPast }` stored as a record's `daysInfo`. */
  function InfoValue(info: DaysInfo): Value {
    VObj([("label", VStr(info.labelText)), ("dateFormatted", VStr(info.dateFormatted)), ("isPast", VBool(info.isPast))])
  }

  // ---------------------------------------------------------------- the form

  /** The reactive `formData` of the add/edit modal. */
  class FormData {
    var title: Value
    var text: Value
    var eventDate: Value
    var imageBase64: Value

    constructor()
      ensures Blank()
    {
      title, text, eventDate, imageBase64 := VStr(""), VStr(""), VStr(""), VStr("");
    }

    /** All four fields hold the empty string. */
    predicate Blank()
      reads this
    {
      title == VStr("") && text == VStr("") && eventDate == VStr("") && imageBase64 == VStr("")
    }

    /** `{ title, text, eventDate, imageBase64 }` as `saveMemory` sends it. */
    function Payload(): (r: Record)
      reads this
      ensures r.Keys == {"title", "text", "eventDate", "imageBase64"}
      ensures r["title"] == title && r["text"] == text && r["eventDate"] == eventDate && r["imageBase64"] == imageBase64
    {
      map["title" := title, "text" := text, "eventDate" := eventDate, "imageBase64" := imageBase64]
    }
  }

  const TitleRequired := "Tiêu đề không được để trống"
  const DateRequired := "Vui lòng chọn ngày sự kiện"

  /** The checks at the top of `saveMemory`: `formData.title.trim()` throws unless the title
      is a string; a blank title, then a falsy event date, give the message shown instead of
      saving; None lets the save go ahead. */
  function Validate(title: Value, eventDate: Value): (r: Result<Option<string>>)
    ensures r.Err? <==> !title.VStr?
    ensures r == Ok(None) <==> title.VStr? && !IsBlank(title.s) && Truthy(eventDate)
    ensures r == Ok(Some(TitleRequired)) <==> title.VStr? && IsBlank(title.s)
    ensures r == Ok(Some(DateRequired)) <==> title.VStr? && !IsBlank(title.s) && !Truthy(eventDate)
  {
    match title
    case VStr(s) =>
      if IsBlank(s) then Ok(Some(TitleRequired))
      else if !Truthy(eventDate) then Ok(Some(DateRequired))
      else Ok(None)
    case VUndefined => Err(TypeErrorRead("trim"))
    case VNull => Err(TypeErrorRead("trim"))
    case _ => Err(TypeErrorNotFunction("formData.title.trim"))
  }

  /** `error.message || fallback` */
  function MessageOr(e: Error, fallback: string): (m: string)
    ensures m != "" || fallback == ""
  {
    if e.message != "" then e.message else fallback
  }
}
