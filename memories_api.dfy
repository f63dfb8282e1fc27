/** `useMemoriesApi`: the memories panel backed by the Apps Script server. It keeps the
    basic list the server sends, a cache of the full records loaded one by one, the set
    of ids whose record is being fetched, and the page of ten on show. Each async method
    runs to completion: the server's replies, `Date.now()`, the ISO time stamp and the
    day calculation (with today fixed) are parameters. */
module MemoriesApi {
  import opened Text
  import opened Values
  import opened DaysRemaining
  import opened Api
  import opened MemoryStore
  import opened MemoryList

  // ---------------------------------------------------------------- the page on show

  /** `{ ...basic, daysInfo, text: '', imageBase64: '', isLoading }`: the skeleton shown for
      a memory whose full record is not cached. */
  function Skeleton(basic: Value, info: DaysInfo, loading: bool): (r: Record)
    ensures r.Keys == SpreadOf(basic).Keys + {"daysInfo", "text", "imageBase64", "isLoading"}
    ensures r["daysInfo"] == InfoValue(info) && r["text"] == VStr("") && r["imageBase64"] == VStr("")
    ensures r["isLoading"] == VBool(loading)
    ensures forall k :: k in SpreadOf(basic) && k !in {"daysInfo", "text", "imageBase64", "isLoading"} ==>
      r[k] == SpreadOf(basic)[k]
  {
    SpreadOf(basic) + map["daysInfo" := InfoValue(info), "text" := VStr(""), "imageBase64" := VStr(""),
                          "isLoading" := VBool(loading)]
  }

  /** The callback `filterAndPaginate` maps over the page: the cached record for the
      memory's id, otherwise its skeleton. Reading `basic.id` throws on null and undefined;
      the skeleton's day calculation throws unless the event date is a string. */
  function DisplayItem(basic: Value, detail: map<string, Record>, loading: set<Value>,
                       calculate: string -> DaysInfo): (r: Result<Record>)
    ensures r.Ok? <==> (!basic.VNull? && !basic.VUndefined?
      && (PropertyKey(Prop(basic, "id").value) in detail || Prop(basic, "eventDate").value.VStr?))
    ensures r.Ok? && PropertyKey(Prop(basic, "id").value) in detail ==>
      r.value == detail[PropertyKey(Prop(basic, "id").value)]
    ensures r.Ok? && PropertyKey(Prop(basic, "id").value) !in detail ==>
      r.value == Skeleton(basic, calculate(Prop(basic, "eventDate").value.s), Prop(basic, "id").value in loading)
  {
    match Prop(basic, "id")
    case Err(e) => Err(e)
    case Ok(id) =>
      var key := PropertyKey(id);
      if key in detail then Ok(detail[key])
      else
        match Prop(basic, "eventDate")
        case Err(e) => Err(e)
        case Ok(eventDate) =>
          match InfoOf(eventDate, calculate)
          case Err(e) => Err(e)
          case Ok(info) => Ok(Skeleton(basic, info, id in loading))
  }

  /** `xs.map(f)` with a callback that may throw: every result, or the error of the first
      call that throws. */
  function MapAll<A, B>(xs: seq<A>, f: A -> Result<B>): Result<seq<B>>
  {
    if xs == [] then Ok([])
    else
      match f(xs[0])
      case Err(e) => Err(e)
      case Ok(first) =>
        match MapAll(xs[1..], f)
        case Err(e) => Err(e)
        case Ok(rest) => Ok([first] + rest)
  }

  /** The map succeeds exactly when no call throws, and then holds every result in order. */
  lemma {:induction false} MapAllSpec<A, B>(xs: seq<A>, f: A -> Result<B>)
    ensures MapAll(xs, f).Ok? <==> forall i :: 0 <= i < |xs| ==> f(xs[i]).Ok?
    ensures MapAll(xs, f).Ok? ==>
      |MapAll(xs, f).value| == |xs| && forall i :: 0 <= i < |xs| ==> MapAll(xs, f).value[i] == f(xs[i]).value
  {
    if xs != [] {
      MapAllSpec(xs[1..], f);
      assert forall i :: 1 <= i < |xs| ==> xs[1..][i - 1] == xs[i];
      if MapAll(xs, f).Ok? {
        var r := MapAll(xs, f).value;
        var rest := MapAll(xs[1..], f).value;
        assert r == [f(xs[0]).value] + rest;
        forall i | 0 <= i < |xs|
          ensures r[i] == f(xs[i]).value
        {
          if i > 0 {
            assert r[i] == rest[i - 1];
          }
        }
      } else if f(xs[0]).Ok? {
        var i :| 0 <= i < |xs[1..]| && f(xs[1..][i]).Err?;
        assert f(xs[i + 1]).Err?;
      }
    }
  }

  /** `filterAndPaginate`'s list: the current page of the basic list, mapped item by item. */
  function Display(basic: seq<Value>, page: nat, detail: map<string, Record>, loading: set<Value>,
                   calculate: string -> DaysInfo): Result<seq<Record>>
  {
    MapAll(Page(basic, page), b => DisplayItem(b, detail, loading, calculate))
  }

  /** The page shows when no memory on it throws, and then item `i` of the page on show
      is the display of item `i` of the page, the memory at position `page * 10 + i` of the
      basic list (see `DisplayItem`: its cached record, or its skeleton). */
  lemma DisplayedPage(basic: seq<Value>, page: nat, detail: map<string, Record>, loading: set<Value>,
                      calculate: string -> DaysInfo)
    ensures Display(basic, page, detail, loading, calculate).Ok? <==>
      forall i :: 0 <= i < |Page(basic, page)| ==> DisplayItem(Page(basic, page)[i], detail, loading, calculate).Ok?
    ensures Display(basic, page, detail, loading, calculate).Ok? ==>
      var r := Display(basic, page, detail, loading, calculate).value;
      |r| == |Page(basic, page)| <= PageSize
      && forall i :: 0 <= i < |r| ==> r[i] == DisplayItem(Page(basic, page)[i], detail, loading, calculate).value
  {
    MapAllSpec(Page(basic, page), b => DisplayItem(b, detail, loading, calculate));
  }

  // ---------------------------------------------------------------- the local search

  /** `m.title.toLowerCase().includes(query)` */
  function TitleMatch(m: Value, lowerQuery: string): (r: Result<bool>)
    ensures r.Ok? <==> !m.VNull? && !m.VUndefined? && Prop(m, "title").value.VStr?
  {
    match Prop(m, "title")
    case Err(e) => Err(e)
    case Ok(title) =>
      if title.VStr? then Ok(Contains(Lower(title.s), lowerQuery)) else Err(LowerCaseError(title))
  }

  /** `list.filter(m => m.title.toLowerCase().includes(query))`: the callback runs in list
      order, and the first one that throws ends the filter with its error. */
  function FilterByTitle(xs: seq<Value>, lowerQuery: string): (r: Result<seq<Value>>)
  {
    if xs == [] then Ok([])
    else
      match TitleMatch(xs[0], lowerQuery)
      case Err(e) => Err(e)
      case Ok(keep) =>
        match FilterByTitle(xs[1..], lowerQuery)
        case Err(e) => Err(e)
        case Ok(rest) => Ok((if keep then [xs[0]] else []) + rest)
  }

  /** The filter succeeds exactly when every memory has a string title; it then keeps, in
      their order, exactly the memories whose lower-cased title contains the query. */
  lemma {:induction false} FilterByTitleSpec(xs: seq<Value>, lowerQuery: string)
    ensures FilterByTitle(xs, lowerQuery).Ok? <==> forall m :: m in xs ==> TitleMatch(m, lowerQuery).Ok?
    ensures FilterByTitle(xs, lowerQuery).Ok? ==>
      var r := FilterByTitle(xs, lowerQuery).value;
      Subsequence(r, xs)
      && forall m :: m in r <==> m in xs && TitleMatch(m, lowerQuery) == Ok(true)
  {
    if xs != [] {
      var m := xs[0];
      assert m in xs;
      assert forall x :: x in xs <==> x == m || x in xs[1..];
      FilterByTitleSpec(xs[1..], lowerQuery);
      if FilterByTitle(xs, lowerQuery).Ok? {
        var rest := FilterByTitle(xs[1..], lowerQuery).value;
        if TitleMatch(m, lowerQuery) == Ok(true) {
          assert FilterByTitle(xs, lowerQuery).value == [m] + rest;
          assert ([m] + rest)[1..] == rest;
        } else {
          assert FilterByTitle(xs, lowerQuery).value == rest;
          SubsequenceSkip(rest, xs);
        }
      }
    }
  }

  /** Dropping the head of the longer list keeps a subsequence a subsequence. */
  lemma SubsequenceSkip<T>(a: seq<T>, b: seq<T>)
    requires b != [] && Subsequence(a, b[1..])
    ensures Subsequence(a, b)
  {
  }

  // ---------------------------------------------------------------- deleting

  /** `list.find(m => m.id === id)`: the first memory with that id; reading `m.id` throws on
      a null or undefined entry met before it. */
  function FindById(xs: seq<Value>, id: Value): (r: Result<Option<Value>>)
    ensures r.Ok? && r.value.Some? ==> r.value.value in xs && Prop(r.value.value, "id") == Ok(id)
    ensures r == Ok(None) ==> forall m :: m in xs ==> Prop(m, "id") != Ok(id)
  {
    if xs == [] then Ok(None)
    else
      match Prop(xs[0], "id")
      case Err(e) => Err(e)
      case Ok(v) =>
        if v == id then Ok(Some(xs[0]))
        else
          var rest := FindById(xs[1..], id);
          assert forall m :: m in xs[1..] ==> m in xs;
          assert forall m :: m in xs ==> m == xs[0] || m in xs[1..];
          rest
  }

  /** `memoriesDetail[id] || memoriesBasic.find(m => m.id === id) || {}`, as the fields
      `deleteMemory` spreads. */
  function DeleteData(detail: map<string, Record>, basic: seq<Value>, id: Value): (r: Result<Record>)
    ensures PropertyKey(id) in detail ==> r == Ok(detail[PropertyKey(id)])
    ensures PropertyKey(id) !in detail && FindById(basic, id) == Ok(None) ==> r == Ok(map[])
  {
    var key := PropertyKey(id);
    if key in detail then Ok(detail[key])
    else
      match FindById(basic, id)
      case Err(e) => Err(e)
      case Ok(found) => Ok(if found.Some? && Truthy(found.value) then SpreadOf(found.value) else map[])
  }

  /** A memory that is neither cached nor in the basic list has no title to send, so
      deleting it fails before any request. */
  lemma DeleteUnknownSendsNothing(api: ApiService, detail: map<string, Record>, basic: seq<Value>, id: Value,
                                  iso: string, reply: Reply)
    requires PropertyKey(id) !in detail
    requires forall m :: m in basic ==> !m.VNull? && !m.VUndefined? && Prop(m, "id") != Ok(id)
    ensures DeleteData(detail, basic, id) == Ok(map[])
    ensures api.DeleteMemory(id, map[], iso, reply) == Outcome([], Err(Error(RequiredMessage)))
  {
    FindByIdMissing(basic, id);
    DeleteNeedsExistingData(api, id, map[], iso, reply);
  }

  /** The search of a list without null entries and without the id finds nothing. */
  lemma {:induction false} FindByIdMissing(xs: seq<Value>, id: Value)
    requires forall m :: m in xs ==> !m.VNull? && !m.VUndefined? && Prop(m, "id") != Ok(id)
    ensures FindById(xs, id) == Ok(None)
  {
    if xs != [] {
      assert xs[0] in xs;
      assert forall m :: m in xs[1..] ==> m in xs;
      FindByIdMissing(xs[1..], id);
    }
  }

  // ---------------------------------------------------------------- the composable

  const ListFailed := "Lỗi khi tải danh sách kỷ niệm"
  const SearchFailed := "Lỗi khi tìm kiếm"
  const LoadMoreFailed := "Lỗi khi tải thêm kỷ niệm"
  const SaveFailed := "Lỗi khi lưu kỷ niệm"
  const DeleteFailed := "Lỗi khi xóa kỷ niệm"
  const UpdateDone := "✅ Cập nhật thành công!"
  const AddDone := "✅ Thêm thành công!"
  const DeleteDone := "✅ Xóa thành công!"
  const ApiIdRequired := "apiId là bắt buộc để sử dụng useMemoriesApi"

  /** `useMemoriesApi(apiId)`: a missing id throws; otherwise a fresh panel over a client
      for that deployment. */
  method UseMemoriesApi(apiId: string) returns (r: Result<MemoriesApi>)
    ensures r.Err? <==> apiId == ""
    ensures r.Err? ==> r.error == Error(ApiIdRequired)
    ensures r.Ok? ==> fresh(r.value) && r.value.api.apiId == apiId && r.value.Initial()
  {
    if apiId == "" {
      return Err(Error(ApiIdRequired));
    }
    var panel := new MemoriesApi(apiId);
    return Ok(panel);
  }

  class MemoriesApi {
    const api: ApiService
    const formData: FormData

    var memoriesBasic: seq<Value>
    var memoriesDetail: map<string, Record>
    var loadingMemoryIds: set<Value>
    var filteredMemories: seq<Record>
    var searchQuery: string
    var isLoading: bool
    var isLoadingMore: bool
    var errorMessage: string
    var successMessage: string
    var currentPage: nat
    var showAddModal: bool
    var editingMemory: Value

    /** The state right after `useMemoriesApi` returns. */
    predicate Initial()
      reads this, formData
    {
      memoriesBasic == [] && memoriesDetail == map[] && loadingMemoryIds == {} && filteredMemories == []
      && searchQuery == "" && !isLoading && !isLoadingMore && errorMessage == "" && successMessage == ""
      && currentPage == 0 && !showAddModal && editingMemory == VNull && formData.Blank()
    }

    constructor(apiId: string)
      ensures api.apiId == apiId && fresh(api) && fresh(formData) && Initial()
    {
      api := new ApiService(apiId);
      formData := new FormData();
      memoriesBasic, memoriesDetail, loadingMemoryIds, filteredMemories := [], map[], {}, [];
      searchQuery, isLoading, isLoadingMore, errorMessage, successMessage := "", false, false, "", "";
      currentPage, showAddModal, editingMemory := 0, false, VNull;
    }

    /** `hasMore()` */
    predicate HasMorePages()
      reads this
    {
      HasMore(currentPage, |memoriesBasic|)
    }

    /** `isMemoryLoading(id)` */
    predicate IsMemoryLoading(id: Value)
      reads this
    {
      id in loadingMemoryIds
    }

    /** `getMemoryDetail(id)`: the cached record, None for null. */
    function GetMemoryDetail(id: Value): (r: Option<Record>)
      reads this
      ensures r.Some? <==> PropertyKey(id) in memoriesDetail
      ensures r.Some? ==> r.value == memoriesDetail[PropertyKey(id)]
    {
      if PropertyKey(id) in memoriesDetail then Some(memoriesDetail[PropertyKey(id)]) else None
    }

    /** `filterAndPaginate`: shows the current page; when an item throws, the page on show
        stays as it was and the error is passed on. */
    method FilterAndPaginate(calculate: string -> DaysInfo) returns (thrown: Option<Error>)
      modifies this`filteredMemories
      ensures var d := Display(memoriesBasic, currentPage, memoriesDetail, loadingMemoryIds, calculate);
        (d.Ok? ==> thrown == None && filteredMemories == d.value)
        && (d.Err? ==> thrown == Some(d.error) && filteredMemories == old(filteredMemories))
    {
      var displayMemories := Display(memoriesBasic, currentPage, memoriesDetail, loadingMemoryIds, calculate);
      if displayMemories.Err? {
        return Some(displayMemories.error);
      }
      filteredMemories := displayMemories.value;
      return None;
    }

    /** What `loadMemoriesList` does with a list the server sent: it replaces the basic list,
        forgets every cached record and every fetch in flight, and shows page 0. */
    method Install(list: seq<Value>, calculate: string -> DaysInfo)
      modifies this`memoriesBasic, this`memoriesDetail, this`loadingMemoryIds, this`currentPage,
        this`filteredMemories, this`errorMessage
      ensures memoriesBasic == list && memoriesDetail == map[] && loadingMemoryIds == {} && currentPage == 0
      ensures var d := Display(list, 0, map[], {}, calculate);
        (d.Ok? ==> filteredMemories == d.value && errorMessage == old(errorMessage))
        && (d.Err? ==> filteredMemories == old(filteredMemories) && errorMessage == MessageOr(d.error, ListFailed))
    {
      memoriesBasic := list;
      memoriesDetail := map[];
      loadingMemoryIds := {};
      currentPage := 0;
      var thrown := FilterAndPaginate(calculate);
      if thrown.Some? {
        errorMessage := MessageOr(thrown.value, ListFailed);
      }
    }

    /** `loadMemoriesList`: asks the server for the list; when that fails, the list state is
        left as it was and the error's message is shown. */
    method LoadMemoriesList(listReply: Reply, calculate: string -> DaysInfo) returns (sent: seq<Request>)
      modifies this`memoriesBasic, this`memoriesDetail, this`loadingMemoryIds, this`currentPage,
        this`filteredMemories, this`errorMessage, this`isLoading
      ensures sent == api.GetMemoriesList(listReply).sent && !isLoading
      ensures var o := api.GetMemoriesList(listReply).result;
        o.Err? ==>
          memoriesBasic == old(memoriesBasic) && memoriesDetail == old(memoriesDetail)
          && loadingMemoryIds == old(loadingMemoryIds) && currentPage == old(currentPage)
          && filteredMemories == old(filteredMemories) && errorMessage == MessageOr(o.error, ListFailed)
      ensures var o := api.GetMemoriesList(listReply).result;
        o.Ok? ==>
          memoriesBasic == o.value && memoriesDetail == map[] && loadingMemoryIds == {} && currentPage == 0
          && var d := Display(o.value, 0, map[], {}, calculate);
          (d.Ok? ==> filteredMemories == d.value && errorMessage == "")
          && (d.Err? ==> filteredMemories == old(filteredMemories) && errorMessage == MessageOr(d.error, ListFailed))
    {
      isLoading := true;
      errorMessage := "";
      var o := api.GetMemoriesList(listReply);
      sent := o.sent;
      if o.result.Err? {
        errorMessage := MessageOr(o.result.error, ListFailed);
      } else {
        Install(o.result.value, calculate);
      }
      isLoading := false;
    }

    /** Caches a fetched `record` under its id and refreshes the page; the record comes
        back unless an item of the page throws. */
    method Cache(memoryId: Value, record: Record, calculate: string -> DaysInfo) returns (detail: Option<Record>)
      modifies this`memoriesDetail, this`filteredMemories
      ensures memoriesDetail == old(memoriesDetail)[PropertyKey(memoryId) := record]
      ensures var d := Display(memoriesBasic, currentPage, memoriesDetail, loadingMemoryIds, calculate);
        (d.Ok? ==> detail == Some(record) && filteredMemories == d.value)
        && (d.Err? ==> detail == None && filteredMemories == old(filteredMemories))
    {
      memoriesDetail := memoriesDetail[PropertyKey(memoryId) := record];
      var thrown := FilterAndPaginate(calculate);
      detail := if thrown.None? then Some(record) else None;
    }

    /** `lazyLoadMemory(memoryId)` when neither the cache nor the in-flight set has the id:
        fetches the record, sets its `daysInfo`, caches it and refreshes the page. The id is
        in the in-flight set while the page is refreshed and leaves it at the end. */
    method Fetch(memoryId: Value, reply: Reply, calculate: string -> DaysInfo)
        returns (detail: Option<Record>, sent: seq<Request>)
      requires memoryId !in loadingMemoryIds
      modifies this`memoriesDetail, this`loadingMemoryIds, this`filteredMemories
      ensures sent == api.LoadMemory(memoryId, reply).sent && loadingMemoryIds == old(loadingMemoryIds)
      ensures var l := api.LoadMemory(memoryId, reply).result;
        l.Err? || !Get(l.value, "eventDate").VStr? ==>
          detail == None && memoriesDetail == old(memoriesDetail) && filteredMemories == old(filteredMemories)
      ensures var l := api.LoadMemory(memoryId, reply).result;
        l.Ok? && Get(l.value, "eventDate").VStr? ==>
          var record := l.value["daysInfo" := InfoValue(calculate(Get(l.value, "eventDate").s))];
          memoriesDetail == old(memoriesDetail)[PropertyKey(memoryId) := record]
          && var d := Display(memoriesBasic, currentPage, memoriesDetail, old(loadingMemoryIds) + {memoryId}, calculate);
          (d.Ok? ==> detail == Some(record) && filteredMemories == d.value)
          && (d.Err? ==> detail == None && filteredMemories == old(filteredMemories))
    {
      loadingMemoryIds := loadingMemoryIds + {memoryId};
      var o := api.LoadMemory(memoryId, reply);
      sent := o.sent;
      detail := None;
      if o.result.Ok? {
        var dateInfo := InfoOf(Get(o.result.value, "eventDate"), calculate);
        if dateInfo.Ok? {
          detail := Cache(memoryId, o.result.value["daysInfo" := InfoValue(dateInfo.value)], calculate);
        }
      }
      loadingMemoryIds := loadingMemoryIds - {memoryId};
    }

    /** `lazyLoadMemory(memoryId)`: a cached record comes back at once and a fetch already
        in flight is not repeated; neither touches any state or the server. */
    method LazyLoadMemory(memoryId: Value, reply: Reply, calculate: string -> DaysInfo)
        returns (detail: Option<Record>, sent: seq<Request>)
      modifies this`memoriesDetail, this`loadingMemoryIds, this`filteredMemories
      ensures PropertyKey(memoryId) in old(memoriesDetail) ==>
        detail == Some(old(memoriesDetail)[PropertyKey(memoryId)]) && sent == []
        && memoriesDetail == old(memoriesDetail) && loadingMemoryIds == old(loadingMemoryIds)
        && filteredMemories == old(filteredMemories)
      ensures PropertyKey(memoryId) !in old(memoriesDetail) && memoryId in old(loadingMemoryIds) ==>
        detail == None && sent == []
        && memoriesDetail == old(memoriesDetail) && loadingMemoryIds == old(loadingMemoryIds)
        && filteredMemories == old(filteredMemories)
      ensures PropertyKey(memoryId) !in old(memoriesDetail) && memoryId !in old(loadingMemoryIds) ==>
        sent == api.LoadMemory(memoryId, reply).sent && memoryId !in loadingMemoryIds
        && loadingMemoryIds == old(loadingMemoryIds)
        && var l := api.LoadMemory(memoryId, reply).result;
        (l.Err? || !Get(l.value, "eventDate").VStr? ==>
          detail == None && memoriesDetail == old(memoriesDetail) && filteredMemories == old(filteredMemories))
        && (l.Ok? && Get(l.value, "eventDate").VStr? ==>
          var record := l.value["daysInfo" := InfoValue(calculate(Get(l.value, "eventDate").s))];
          memoriesDetail == old(memoriesDetail)[PropertyKey(memoryId) := record]
          && var d := Display(memoriesBasic, currentPage, memoriesDetail, old(loadingMemoryIds) + {memoryId}, calculate);
          (d.Ok? ==> detail == Some(record) && filteredMemories == d.value)
          && (d.Err? ==> detail == None && filteredMemories == old(filteredMemories)))
    {
      var key := PropertyKey(memoryId);
      if key in memoriesDetail {
        return Some(memoriesDetail[key]), [];
      }
      if memoryId in loadingMemoryIds {
        return None, [];
      }
      detail, sent := Fetch(memoryId, reply, calculate);
    }

    /** `loadMore`: moves to the next page when it starts inside the basic list, and
        otherwise does nothing. */
    method LoadMore(calculate: string -> DaysInfo)
      modifies this`currentPage, this`filteredMemories, this`isLoadingMore, this`errorMessage
      ensures currentPage == NextPage(old(currentPage), |memoriesBasic|)
      ensures !old(HasMorePages()) ==>
        filteredMemories == old(filteredMemories) && errorMessage == old(errorMessage)
        && isLoadingMore == old(isLoadingMore)
      ensures old(HasMorePages()) ==>
        !isLoadingMore
        && var d := Display(memoriesBasic, currentPage, memoriesDetail, loadingMemoryIds, calculate);
        (d.Ok? ==> filteredMemories == d.value && errorMessage == old(errorMessage))
        && (d.Err? ==> filteredMemories == old(filteredMemories) && errorMessage == LoadMoreFailed)
    {
      var nextPage := currentPage + 1;
      var start := nextPage * PageSize;
      if start >= |memoriesBasic| {
        return;
      }
      isLoadingMore := true;
      currentPage := nextPage;
      var thrown := FilterAndPaginate(calculate);
      if thrown.Some? {
        errorMessage := LoadMoreFailed;
      }
      isLoadingMore := false;
    }

    /** Shows page 0 of `list` as the new basic list; the cache and the in-flight set are
        kept, and an item that throws shows `failure`. */
    method ShowFirstPage(list: seq<Value>, failure: string, calculate: string -> DaysInfo)
      modifies this`memoriesBasic, this`currentPage, this`filteredMemories, this`errorMessage
      ensures memoriesBasic == list && currentPage == 0
      ensures var d := Display(list, 0, memoriesDetail, loadingMemoryIds, calculate);
        (d.Ok? ==> filteredMemories == d.value && errorMessage == old(errorMessage))
        && (d.Err? ==> filteredMemories == old(filteredMemories) && errorMessage == failure)
    {
      memoriesBasic := list;
      currentPage := 0;
      var thrown := FilterAndPaginate(calculate);
      if thrown.Some? {
        errorMessage := failure;
      }
    }

    /** The local part of `searchMemories`: narrows the basic list to the memories whose
        title matches and shows its page 0; the cache and the in-flight set are kept. */
    method Narrow(calculate: string -> DaysInfo)
      modifies this`memoriesBasic, this`currentPage, this`filteredMemories, this`errorMessage
      ensures var f := FilterByTitle(old(memoriesBasic), Lower(searchQuery));
        (f.Err? ==>
          memoriesBasic == old(memoriesBasic) && currentPage == old(currentPage)
          && filteredMemories == old(filteredMemories) && errorMessage == SearchFailed)
        && (f.Ok? ==>
          memoriesBasic == f.value && currentPage == 0
          && var d := Display(f.value, 0, memoriesDetail, loadingMemoryIds, calculate);
          (d.Ok? ==> filteredMemories == d.value && errorMessage == old(errorMessage))
          && (d.Err? ==> filteredMemories == old(filteredMemories) && errorMessage == SearchFailed))
    {
      var filtered := FilterByTitle(memoriesBasic, Lower(searchQuery));
      if filtered.Err? {
        errorMessage := SearchFailed;
        return;
      }
      ShowFirstPage(filtered.value, SearchFailed, calculate);
    }

    /** The blank-query branch of `searchMemories`: the list comes again from the server. */
    method Refetch(listReply: Reply, calculate: string -> DaysInfo) returns (sent: seq<Request>)
      modifies this`memoriesBasic, this`memoriesDetail, this`loadingMemoryIds, this`currentPage,
        this`filteredMemories, this`errorMessage, this`isLoading
      ensures sent == api.GetMemoriesList(listReply).sent && !isLoading
      ensures api.GetMemoriesList(listReply).result.Ok? ==>
        memoriesBasic == api.GetMemoriesList(listReply).result.value && memoriesDetail == map[]
        && loadingMemoryIds == {} && currentPage == 0
    {
      sent := LoadMemoriesList(listReply, calculate);
    }

    /** The other branch of `searchMemories`: the list already loaded is narrowed while the
        panel shows it is busy. */
    method NarrowLoaded(calculate: string -> DaysInfo) returns (sent: seq<Request>)
      modifies this`memoriesBasic, this`currentPage, this`filteredMemories, this`errorMessage, this`isLoading
      ensures sent == [] && !isLoading
      ensures var f := FilterByTitle(old(memoriesBasic), Lower(searchQuery));
        (f.Err? ==>
          memoriesBasic == old(memoriesBasic) && currentPage == old(currentPage)
          && filteredMemories == old(filteredMemories) && errorMessage == SearchFailed)
        && (f.Ok? ==>
          memoriesBasic == f.value && currentPage == 0
          && var d := Display(f.value, 0, memoriesDetail, loadingMemoryIds, calculate);
          (d.Ok? ==> filteredMemories == d.value && errorMessage == "")
          && (d.Err? ==> filteredMemories == old(filteredMemories) && errorMessage == SearchFailed))
    {
      isLoading := true;
      errorMessage := "";
      sent := [];
      Narrow(calculate);
      isLoading := false;
    }

    /** `searchMemories`: a blank query reloads the list from the server; any other query
        narrows the list already loaded. */
    method SearchMemories(listReply: Reply, calculate: string -> DaysInfo) returns (sent: seq<Request>)
      modifies this`memoriesBasic, this`memoriesDetail, this`loadingMemoryIds, this`currentPage,
        this`filteredMemories, this`errorMessage, this`isLoading
      ensures !isLoading
      ensures IsBlank(searchQuery) ==> sent == api.GetMemoriesList(listReply).sent
      ensures IsBlank(searchQuery) && api.GetMemoriesList(listReply).result.Ok? ==>
        memoriesBasic == api.GetMemoriesList(listReply).result.value && memoriesDetail == map[]
        && loadingMemoryIds == {} && currentPage == 0
      ensures !IsBlank(searchQuery) ==>
        sent == [] && memoriesDetail == old(memoriesDetail) && loadingMemoryIds == old(loadingMemoryIds)
        && var f := FilterByTitle(old(memoriesBasic), Lower(searchQuery));
        (f.Err? ==>
          memoriesBasic == old(memoriesBasic) && currentPage == old(currentPage)
          && filteredMemories == old(filteredMemories) && errorMessage == SearchFailed)
        && (f.Ok? ==>
          memoriesBasic == f.value && currentPage == 0
          && var d := Display(f.value, 0, memoriesDetail, loadingMemoryIds, calculate);
          (d.Ok? ==> filteredMemories == d.value && errorMessage == "")
          && (d.Err? ==> filteredMemories == old(filteredMemories) && errorMessage == SearchFailed))
    {
      if IsBlank(searchQuery) {
        sent := Refetch(listReply, calculate);
      } else {
        sent := NarrowLoaded(calculate);
      }
    }

    /** The request a save makes: an update of the memory being edited, which loads the
        stored record first, or a new memory. */
    function SaveRequest(payload: Record, now: int, iso: string, loadReply: Reply, saveReply: Reply): Outcome<Record>
      reads this
    {
      if Truthy(editingMemory) then api.UpdateMemory(editingMemory, payload, None, iso, loadReply, saveReply)
      else api.CreateMemory(payload, now, iso, saveReply)
    }

    /** What `saveMemory` does once the server accepted the save: an update caches the
        returned record under the memory's id, a creation empties the cache; then the list
        is reloaded. */
    method AfterSave(saved: Record, listReply: Reply, calculate: string -> DaysInfo) returns (sent: seq<Request>)
      modifies this`memoriesBasic, this`memoriesDetail, this`loadingMemoryIds, this`currentPage,
        this`filteredMemories, this`errorMessage, this`successMessage, this`isLoading
      ensures sent == api.GetMemoriesList(listReply).sent && !isLoading
      ensures successMessage == if Truthy(editingMemory) then UpdateDone else AddDone
      ensures var l := api.GetMemoriesList(listReply).result;
        (l.Ok? ==> memoriesBasic == l.value && memoriesDetail == map[] && loadingMemoryIds == {} && currentPage == 0)
        && (l.Err? ==>
              memoriesBasic == old(memoriesBasic) && errorMessage == MessageOr(l.error, ListFailed)
              && memoriesDetail == if Truthy(editingMemory) then old(memoriesDetail)[PropertyKey(editingMemory) := saved]
                                   else map[])
    {
      if Truthy(editingMemory) {
        memoriesDetail := memoriesDetail[PropertyKey(editingMemory) := saved];
        successMessage := UpdateDone;
      } else {
        successMessage := AddDone;
        memoriesDetail := map[];
      }
      sent := LoadMemoriesList(listReply, calculate);
    }

    /** What `saveMemory` does around its request, given the server's answer to it. */
    method Settle(o: Outcome<Record>, listReply: Reply, calculate: string -> DaysInfo) returns (sent: seq<Request>)
      modifies this`memoriesBasic, this`memoriesDetail, this`loadingMemoryIds, this`currentPage,
        this`filteredMemories, this`errorMessage, this`successMessage, this`isLoading
      ensures !isLoading
      ensures o.result.Err? ==>
          sent == o.sent && errorMessage == MessageOr(o.result.error, SaveFailed) && successMessage == ""
          && memoriesBasic == old(memoriesBasic) && memoriesDetail == old(memoriesDetail)
          && loadingMemoryIds == old(loadingMemoryIds) && currentPage == old(currentPage)
          && filteredMemories == old(filteredMemories)
      ensures var l := api.GetMemoriesList(listReply).result;
        o.result.Ok? ==>
          sent == o.sent + api.GetMemoriesList(listReply).sent
          && successMessage == (if Truthy(editingMemory) then UpdateDone else AddDone)
          && (l.Ok? ==> memoriesBasic == l.value && memoriesDetail == map[] && loadingMemoryIds == {} && currentPage == 0)
          && (l.Err? ==>
                memoriesBasic == old(memoriesBasic) && errorMessage == MessageOr(l.error, ListFailed)
                && memoriesDetail == if Truthy(editingMemory) then old(memoriesDetail)[PropertyKey(editingMemory) := o.result.value]
                                     else map[])
    {
      isLoading := true;
      errorMessage := "";
      successMessage := "";
      if o.result.Err? {
        sent := o.sent;
        errorMessage := MessageOr(o.result.error, SaveFailed);
        isLoading := false;
      } else {
        var reloaded := AfterSave(o.result.value, listReply, calculate);
        sent := o.sent + reloaded;
      }
    }

    /** The part of `saveMemory` after validation: the request, then `AfterSave` when the
        server accepted it. */
    method Commit(now: int, iso: string, loadReply: Reply, saveReply: Reply, listReply: Reply,
                  calculate: string -> DaysInfo) returns (sent: seq<Request>)
      modifies this`memoriesBasic, this`memoriesDetail, this`loadingMemoryIds, this`currentPage,
        this`filteredMemories, this`errorMessage, this`successMessage, this`isLoading
      ensures !isLoading
      ensures var o := SaveRequest(formData.Payload(), now, iso, loadReply, saveReply);
        o.result.Err? ==>
          sent == o.sent && errorMessage == MessageOr(o.result.error, SaveFailed) && successMessage == ""
          && memoriesBasic == old(memoriesBasic) && memoriesDetail == old(memoriesDetail)
          && loadingMemoryIds == old(loadingMemoryIds) && currentPage == old(currentPage)
          && filteredMemories == old(filteredMemories)
      ensures var o := SaveRequest(formData.Payload(), now, iso, loadReply, saveReply);
        var l := api.GetMemoriesList(listReply).result;
        o.result.Ok? ==>
          sent == o.sent + api.GetMemoriesList(listReply).sent
          && successMessage == (if Truthy(editingMemory) then UpdateDone else AddDone)
          && (l.Ok? ==> memoriesBasic == l.value && memoriesDetail == map[] && loadingMemoryIds == {} && currentPage == 0)
          && (l.Err? ==>
                memoriesBasic == old(memoriesBasic) && errorMessage == MessageOr(l.error, ListFailed)
                && memoriesDetail == if Truthy(editingMemory) then old(memoriesDetail)[PropertyKey(editingMemory) := o.result.value]
                                     else map[])
    {
      var o := SaveRequest(formData.Payload(), now, iso, loadReply, saveReply);
      sent := Settle(o, listReply, calculate);
    }

    /** `saveMemory`: a blank title or a missing event date is refused with a message before
        any request; a title that is not a string makes the call throw. */
    method SaveMemory(now: int, iso: string, loadReply: Reply, saveReply: Reply, listReply: Reply,
                      calculate: string -> DaysInfo) returns (thrown: Option<Error>, sent: seq<Request>)
      modifies this`memoriesBasic, this`memoriesDetail, this`loadingMemoryIds, this`currentPage,
        this`filteredMemories, this`errorMessage, this`successMessage, this`isLoading
      ensures var v := Validate(formData.title, formData.eventDate);
        (thrown.Some? <==> v.Err?)
        && (v.Err? ==> thrown == Some(v.error) && errorMessage == old(errorMessage))
        && (v.Ok? && v.value.Some? ==> errorMessage == v.value.value)
      ensures Validate(formData.title, formData.eventDate) != Ok(None) ==>
        sent == [] && isLoading == old(isLoading) && successMessage == old(successMessage)
        && memoriesBasic == old(memoriesBasic) && memoriesDetail == old(memoriesDetail)
        && loadingMemoryIds == old(loadingMemoryIds) && currentPage == old(currentPage)
        && filteredMemories == old(filteredMemories)
      ensures Validate(formData.title, formData.eventDate) == Ok(None) ==>
        var o := SaveRequest(formData.Payload(), now, iso, loadReply, saveReply);
        !isLoading && |sent| >= |o.sent| && sent[..|o.sent|] == o.sent
        && (o.result.Err? ==> sent == o.sent && errorMessage == MessageOr(o.result.error, SaveFailed)
                              && memoriesBasic == old(memoriesBasic) && memoriesDetail == old(memoriesDetail))
        && (o.result.Ok? ==> successMessage == (if Truthy(editingMemory) then UpdateDone else AddDone))
    {
      var v := Validate(formData.title, formData.eventDate);
      if v.Err? {
        return Some(v.error), [];
      }
      if v.value.Some? {
        errorMessage := v.value.value;
        return None, [];
      }
      sent := Commit(now, iso, loadReply, saveReply, listReply, calculate);
      thrown := None;
    }

    /** The reload after the server accepted a delete. */
    method Deleted(listReply: Reply, calculate: string -> DaysInfo) returns (sent: seq<Request>)
      modifies this`memoriesBasic, this`memoriesDetail, this`loadingMemoryIds, this`currentPage,
        this`filteredMemories, this`errorMessage, this`successMessage, this`isLoading
      ensures sent == api.GetMemoriesList(listReply).sent && successMessage == DeleteDone && !isLoading
    {
      successMessage := DeleteDone;
      sent := LoadMemoriesList(listReply, calculate);
    }

    /** The soft delete of `deleteMemory(id)` with the fields `data` it sends, then the
        reload when the server accepted it. */
    method Discard(id: Value, data: Record, iso: string, reply: Reply, listReply: Reply,
                   calculate: string -> DaysInfo) returns (sent: seq<Request>)
      modifies this`memoriesBasic, this`memoriesDetail, this`loadingMemoryIds, this`currentPage,
        this`filteredMemories, this`errorMessage, this`successMessage, this`isLoading
      ensures !isLoading
      ensures var o := api.DeleteMemory(id, data, iso, reply);
        |sent| >= |o.sent| && sent[..|o.sent|] == o.sent
        && (o.result.Err? ==>
              sent == o.sent && errorMessage == MessageOr(o.result.error, DeleteFailed)
              && successMessage == old(successMessage)
              && memoriesBasic == old(memoriesBasic) && memoriesDetail == old(memoriesDetail)
              && loadingMemoryIds == old(loadingMemoryIds) && currentPage == old(currentPage)
              && filteredMemories == old(filteredMemories))
        && (o.result.Ok? ==>
              sent == o.sent + api.GetMemoriesList(listReply).sent && successMessage == DeleteDone)
    {
      isLoading := true;
      errorMessage := "";
      var o := api.DeleteMemory(id, data, iso, reply);
      if o.result.Err? {
        errorMessage := MessageOr(o.result.error, DeleteFailed);
        isLoading := false;
        return o.sent;
      }
      var reloaded := Deleted(listReply, calculate);
      sent := o.sent + reloaded;
    }

    /** `deleteMemory(id)` once the user answered the confirmation: a soft delete of the
        fields the panel holds for the memory, then a reload of the list. */
    method DeleteMemory(id: Value, confirmed: bool, iso: string, reply: Reply, listReply: Reply,
                        calculate: string -> DaysInfo) returns (sent: seq<Request>)
      modifies this`memoriesBasic, this`memoriesDetail, this`loadingMemoryIds, this`currentPage,
        this`filteredMemories, this`errorMessage, this`successMessage, this`isLoading
      ensures !confirmed ==>
        sent == [] && isLoading == old(isLoading) && errorMessage == old(errorMessage)
        && successMessage == old(successMessage) && memoriesBasic == old(memoriesBasic)
        && memoriesDetail == old(memoriesDetail) && filteredMemories == old(filteredMemories)
        && loadingMemoryIds == old(loadingMemoryIds) && currentPage == old(currentPage)
      ensures confirmed ==> !isLoading
      ensures var data := DeleteData(old(memoriesDetail), old(memoriesBasic), id);
        confirmed && data.Err? ==>
          sent == [] && errorMessage == MessageOr(data.error, DeleteFailed) && successMessage == old(successMessage)
          && memoriesBasic == old(memoriesBasic) && memoriesDetail == old(memoriesDetail)
          && loadingMemoryIds == old(loadingMemoryIds) && currentPage == old(currentPage)
          && filteredMemories == old(filteredMemories)
      ensures var data := DeleteData(old(memoriesDetail), old(memoriesBasic), id);
        confirmed && data.Ok? ==>
          var o := api.DeleteMemory(id, data.value, iso, reply);
          |sent| >= |o.sent| && sent[..|o.sent|] == o.sent
          && (o.result.Err? ==>
                sent == o.sent && errorMessage == MessageOr(o.result.error, DeleteFailed)
                && successMessage == old(successMessage)
                && memoriesBasic == old(memoriesBasic) && memoriesDetail == old(memoriesDetail)
                && loadingMemoryIds == old(loadingMemoryIds) && currentPage == old(currentPage)
                && filteredMemories == old(filteredMemories))
          && (o.result.Ok? ==>
                sent == o.sent + api.GetMemoriesList(listReply).sent && successMessage == DeleteDone)
    {
      if !confirmed {
        return [];
      }
      var data := DeleteData(memoriesDetail, memoriesBasic, id);
      if data.Err? {
        isLoading := true;
        errorMessage := MessageOr(data.error, DeleteFailed);
        isLoading := false;
        return [];
      }
      sent := Discard(id, data.value, iso, reply, listReply, calculate);
    }
  }
}
