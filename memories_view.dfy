/** `useMemories`: the memories panel backed by the browser-side store. It keeps the whole
    list, shows one page of ten at a time, and writes each shown memory's `daysInfo` into
    the memory object itself. Today's date, `Date.now()` and the ISO time stamp are
    parameters; the store is the `MemoriesService` the composable imports. */
module MemoriesView {
  import opened Text
  import opened Values
  import opened Dates
  import opened DaysRemaining
  import opened MemoryStore
  import opened MemoryList

  // ---------------------------------------------------------------- the page's daysInfo

  /** Where the page's slice starts and ends in a list of `n` memories. */
  function PageStart(n: nat, page: nat): (lo: nat)
    ensures lo <= n
  {
    if page * PageSize < n then page * PageSize else n
  }

  function PageEnd(n: nat, page: nat): (hi: nat)
    ensures PageStart(n, page) <= hi <= n
  {
    if page * PageSize + PageSize < n then page * PageSize + PageSize else n
  }

  /** `memory.daysInfo = calculateDaysRemaining(memory.eventDate)` when that does not throw. */
  function WithInfo(m: Record, calculate: string -> DaysInfo): Record
  {
    match InfoOf(Get(m, "eventDate"), calculate)
    case Ok(info) => m["daysInfo" := InfoValue(info)]
    case Err(_) => m
  }

  /** `calculateDaysRemaining(memory.eventDate)` throws: the event date is not a string. */
  predicate InfoFails(m: Record) {
    !Get(m, "eventDate").VStr?
  }

  /** The first position in `lo..hi` whose memory makes `calculateDaysRemaining` throw, or `hi`. */
  function FirstBad(xs: seq<Record>, lo: nat, hi: nat): (j: nat)
    requires lo <= hi <= |xs|
    ensures lo <= j <= hi
    ensures j < hi ==> InfoFails(xs[j])
    ensures forall k :: lo <= k < j ==> !InfoFails(xs[k])
    decreases hi - lo
  {
    if lo == hi then hi
    else if InfoFails(xs[lo]) then lo
    else FirstBad(xs, lo + 1, hi)
  }

  /** `FirstBad` is the one position with no failure before it and a failure (or the end)
      at it. */
  lemma {:induction false} FirstBadIs(xs: seq<Record>, lo: nat, hi: nat, j: nat)
    requires lo <= j <= hi <= |xs|
    ensures FirstBad(xs, lo, hi) == j <==>
      (forall k :: lo <= k < j ==> !InfoFails(xs[k])) && (j == hi || InfoFails(xs[j]))
    decreases hi - lo
  {
    if lo < hi && !InfoFails(xs[lo]) {
      if j == lo {
        assert FirstBad(xs, lo, hi) != j by {
          assert FirstBad(xs, lo + 1, hi) >= lo + 1;
        }
      } else {
        FirstBadIs(xs, lo + 1, hi, j);
      }
    }
  }

  /** The list with `daysInfo` set on the memories at positions `lo..hi`. */
  function AnnotateRange(xs: seq<Record>, lo: nat, hi: nat, calculate: string -> DaysInfo): (r: seq<Record>)
    ensures |r| == |xs|
    ensures forall k :: 0 <= k < |xs| ==> r[k] == if lo <= k < hi then WithInfo(xs[k], calculate) else xs[k]
  {
    seq(|xs|, k requires 0 <= k < |xs| => if lo <= k < hi then WithInfo(xs[k], calculate) else xs[k])
  }

  /** Annotating one more position is updating that position in place. */
  lemma AnnotateOneMore(xs: seq<Record>, lo: nat, i: nat, calculate: string -> DaysInfo)
    requires lo <= i < |xs|
    ensures AnnotateRange(xs, lo, i + 1, calculate) == AnnotateRange(xs, lo, i, calculate)[i := WithInfo(xs[i], calculate)]
  {
  }

  /** The list after `filterAndPaginate` ran over page `page`: the forEach sets `daysInfo`
      on the page's memories up to the first one that throws. */
  function Annotated(xs: seq<Record>, page: nat, calculate: string -> DaysInfo): seq<Record>
  {
    var lo := PageStart(|xs|, page);
    var hi := PageEnd(|xs|, page);
    AnnotateRange(xs, lo, FirstBad(xs, lo, hi), calculate)
  }

  /** The error `filterAndPaginate` throws on page `page`, if any. */
  function PageError(xs: seq<Record>, page: nat, calculate: string -> DaysInfo): Option<Error>
  {
    var lo := PageStart(|xs|, page);
    var hi := PageEnd(|xs|, page);
    var j := FirstBad(xs, lo, hi);
    if j == hi then None else Some(InfoOf(Get(xs[j], "eventDate"), calculate).error)
  }

  /** The page's memories all have a string event date exactly when no position of the
      page's slice makes `calculateDaysRemaining` throw. */
  lemma PageHasDates(xs: seq<Record>, page: nat)
    ensures (forall m :: m in Page(xs, page) ==> Get(m, "eventDate").VStr?) <==>
      forall k :: PageStart(|xs|, page) <= k < PageEnd(|xs|, page) ==> !InfoFails(xs[k])
  {
    var lo := PageStart(|xs|, page);
    var hi := PageEnd(|xs|, page);
    var pg := Page(xs, page);
    assert |pg| == hi - lo;
    if forall m :: m in pg ==> Get(m, "eventDate").VStr? {
      forall k | lo <= k < hi
        ensures !InfoFails(xs[k])
      {
        assert pg[k - lo] == xs[k];
        assert pg[k - lo] in pg;
      }
    }
    if forall k :: lo <= k < hi ==> !InfoFails(xs[k]) {
      forall m | m in pg
        ensures Get(m, "eventDate").VStr?
      {
        var i :| 0 <= i < |pg| && pg[i] == m;
        assert xs[lo + i] == m;
      }
    }
  }

  /** `filterAndPaginate` throws exactly when some memory on the page has an event date
      that is not a string. */
  lemma PageErrorIff(xs: seq<Record>, page: nat, calculate: string -> DaysInfo)
    ensures PageError(xs, page, calculate).None? <==>
      forall m :: m in Page(xs, page) ==> Get(m, "eventDate").VStr?
  {
    FirstBadIs(xs, PageStart(|xs|, page), PageEnd(|xs|, page), PageEnd(|xs|, page));
    PageHasDates(xs, page);
  }

  /** When the page does not throw, the shown page is the stored page with each memory's
      `daysInfo` set from its own event date and nothing else changed; memories off the
      page are untouched. */
  lemma AnnotatedPage(xs: seq<Record>, page: nat, calculate: string -> DaysInfo)
    requires PageError(xs, page, calculate).None?
    ensures var r := Annotated(xs, page, calculate);
      |r| == |xs| && |Page(r, page)| == |Page(xs, page)|
      && (forall i :: 0 <= i < |Page(xs, page)| ==>
            var m := Page(xs, page)[i];
            Get(m, "eventDate").VStr?
            && Page(r, page)[i] == m["daysInfo" := InfoValue(calculate(Get(m, "eventDate").s))])
      && (forall k :: 0 <= k < |xs| && !(PageStart(|xs|, page) <= k < PageEnd(|xs|, page)) ==> r[k] == xs[k])
  {
    PageErrorIff(xs, page, calculate);
    var lo := PageStart(|xs|, page);
    var hi := PageEnd(|xs|, page);
    assert FirstBad(xs, lo, hi) == hi;
    forall i | 0 <= i < |Page(xs, page)|
      ensures Get(Page(xs, page)[i], "eventDate").VStr?
    {
      assert Page(xs, page)[i] in Page(xs, page);
    }
  }

  // ---------------------------------------------------------------- the composable

  const LoadFailed := "Lỗi khi tải kỷ niệm"
  const SearchFailed := "Lỗi khi tìm kiếm kỷ niệm"
  const LoadMoreFailed := "Lỗi khi tải thêm kỷ niệm"
  const SaveFailed := "Lỗi khi lưu kỷ niệm"
  const DeleteFailed := "Lỗi khi xóa kỷ niệm"
  const UploadFailed := "Lỗi khi upload ảnh"
  const UpdateDone := "Cập nhật kỷ niệm thành công!"
  const AddDone := "Thêm kỷ niệm thành công!"
  const DeleteDone := "Xóa kỷ niệm thành công!"

  /** Whether the store accepts a save: the memory being edited must be one of its keys
      (only a number can be), and a new memory's id must be free. */
  predicate SaveWorks(editing: Value, records: map<int, Record>, now: int) {
    if Truthy(editing) then editing.VNum? && editing.n in records else now !in records
  }

  /** The store's records after a save it accepts. */
  function Saved(editing: Value, records: map<int, Record>, payload: Record, now: int, iso: string): (r: map<int, Record>)
    requires SaveWorks(editing, records, now)
    ensures Truthy(editing) ==> r.Keys == records.Keys
    ensures !Truthy(editing) ==> r.Keys == records.Keys + {now}
  {
    if Truthy(editing) then records[editing.n := MemoryStore.Updated(records[editing.n], payload, iso)]
    else records[now := NewMemory(payload, now, iso)]
  }

  /** The error IndexedDB raises for a value that is not a valid key. */
  const DataError := Error("The parameter is not a valid key.")

  class MemoriesView {
    const service: MemoriesService
    const formData: FormData

    var memories: seq<Record>
    var filteredMemories: seq<Record>
    var searchQuery: string
    var isLoading: bool
    var isLoadingMore: bool
    var errorMessage: string
    var successMessage: string
    var currentPage: nat
    var showAddModal: bool
    var editingMemory: Value

    ghost predicate Valid()
      reads this, service
    {
      service.Valid()
    }

    /** `useMemories()` over the imported store. */
    constructor(service: MemoriesService)
      ensures this.service == service && fresh(formData) && formData.Blank()
      ensures memories == [] && filteredMemories == [] && searchQuery == "" && currentPage == 0
      ensures !isLoading && !isLoadingMore && errorMessage == "" && successMessage == ""
      ensures !showAddModal && editingMemory == VNull
    {
      this.service := service;
      formData := new FormData();
      memories, filteredMemories, searchQuery := [], [], "";
      isLoading, isLoadingMore, errorMessage, successMessage := false, false, "", "";
      currentPage, showAddModal, editingMemory := 0, false, VNull;
    }

    /** `hasMore()` */
    predicate HasMorePages()
      reads this
    {
      HasMore(currentPage, |memories|)
    }

    /** `filterAndPaginate`: shows the current page and sets `daysInfo` in place on the
        memories in it, stopping at the first one whose event date throws. */
    method FilterAndPaginate(calculate: string -> DaysInfo) returns (thrown: Option<Error>)
      modifies this`memories, this`filteredMemories
      ensures memories == Annotated(old(memories), currentPage, calculate)
      ensures thrown == PageError(old(memories), currentPage, calculate)
      ensures thrown.None? ==> filteredMemories == Page(memories, currentPage)
      ensures thrown.Some? ==> filteredMemories == old(filteredMemories)
    {
      var lo := PageStart(|memories|, currentPage);
      var hi := PageEnd(|memories|, currentPage);
      ghost var before := memories;
      var i := lo;
      while i < hi
        invariant lo <= i <= hi
        invariant memories == AnnotateRange(before, lo, i, calculate)
        invariant filteredMemories == old(filteredMemories)
        invariant forall k :: lo <= k < i ==> !InfoFails(before[k])
      {
        var memory := memories[i];
        var dateInfo := InfoOf(Get(memory, "eventDate"), calculate);
        if dateInfo.Err? {
          FirstBadIs(before, lo, hi, i);
          return Some(dateInfo.error);
        }
        memory := memory["daysInfo" := InfoValue(dateInfo.value)];
        assert memory == WithInfo(before[i], calculate);
        AnnotateOneMore(before, lo, i, calculate);
        memories := memories[i := memory];
        i := i + 1;
      }
      FirstBadIs(before, lo, hi, hi);
      filteredMemories := memories[lo..hi];
      thrown := None;
    }

    /** What `loadMemories` and `searchMemories` do with the list they obtained: it becomes
        the list, shown from page 0; the message is set when annotating the page throws. */
    method Show(list: seq<Record>, failure: string, calculate: string -> DaysInfo)
      modifies this`memories, this`filteredMemories, this`currentPage, this`errorMessage
      requires errorMessage == ""
      ensures currentPage == 0 && memories == Annotated(list, 0, calculate)
      ensures var thrown := PageError(list, 0, calculate);
        (thrown.None? ==> filteredMemories == Page(memories, 0) && errorMessage == "")
        && (thrown.Some? ==> filteredMemories == old(filteredMemories) && errorMessage == failure)
    {
      memories := list;
      currentPage := 0;
      var thrown := FilterAndPaginate(calculate);
      if thrown.Some? {
        errorMessage := failure;
      }
    }

    /** `loadMemories`: the store's list, newest event first, from page 0. */
    method LoadMemories(calculate: string -> DaysInfo)
      modifies this`memories, this`filteredMemories, this`currentPage, this`isLoading, this`errorMessage
      ensures currentPage == 0 && !isLoading
      ensures memories == Annotated(service.GetAllMemories(), 0, calculate)
      ensures var thrown := PageError(service.GetAllMemories(), 0, calculate);
        (thrown.None? ==> filteredMemories == Page(memories, 0) && errorMessage == "")
        && (thrown.Some? ==> filteredMemories == old(filteredMemories) && errorMessage == LoadFailed)
    {
      isLoading := true;
      errorMessage := "";
      var allMemories := service.GetAllMemories();
      Show(allMemories, LoadFailed, calculate);
      isLoading := false;
    }

    /** `searchMemories`: the store's search result, from page 0; a search that throws
        leaves the list as it was. */
    method SearchMemories(calculate: string -> DaysInfo)
      modifies this`memories, this`filteredMemories, this`currentPage, this`isLoading, this`errorMessage
      ensures !isLoading
      ensures var results := old(service.SearchMemories(searchQuery));
        if results.Err? then
          memories == old(memories) && filteredMemories == old(filteredMemories)
          && currentPage == old(currentPage) && errorMessage == SearchFailed
        else
          var thrown := PageError(results.value, 0, calculate);
          currentPage == 0 && memories == Annotated(results.value, 0, calculate)
          && (thrown.None? ==> filteredMemories == Page(memories, 0) && errorMessage == "")
          && (thrown.Some? ==> filteredMemories == old(filteredMemories) && errorMessage == SearchFailed)
    {
      var results := service.SearchMemories(searchQuery);
      isLoading := true;
      errorMessage := "";
      ShowResults(results, calculate);
      isLoading := false;
    }

    /** What `searchMemories` does with the store's answer: a search that threw only sets
        the message, a result is shown from page 0. */
    method ShowResults(results: Result<seq<Record>>, calculate: string -> DaysInfo)
      modifies this`memories, this`filteredMemories, this`currentPage, this`errorMessage
      requires errorMessage == ""
      ensures if results.Err? then
          memories == old(memories) && filteredMemories == old(filteredMemories)
          && currentPage == old(currentPage) && errorMessage == SearchFailed
        else
          var thrown := PageError(results.value, 0, calculate);
          currentPage == 0 && memories == Annotated(results.value, 0, calculate)
          && (thrown.None? ==> filteredMemories == Page(memories, 0) && errorMessage == "")
          && (thrown.Some? ==> filteredMemories == old(filteredMemories) && errorMessage == SearchFailed)
    {
      if results.Err? {
        errorMessage := SearchFailed;
      } else {
        Show(results.value, SearchFailed, calculate);
      }
    }

    /** `loadMore`: moves to the next page when it starts inside the list, and otherwise
        does nothing. */
    method LoadMore(calculate: string -> DaysInfo)
      modifies this`memories, this`filteredMemories, this`currentPage, this`isLoadingMore, this`errorMessage
      ensures currentPage == NextPage(old(currentPage), |old(memories)|)
      ensures !old(HasMorePages()) ==>
        memories == old(memories) && filteredMemories == old(filteredMemories)
        && errorMessage == old(errorMessage) && isLoadingMore == old(isLoadingMore)
      ensures old(HasMorePages()) ==>
        var thrown := PageError(old(memories), currentPage, calculate);
        !isLoadingMore && memories == Annotated(old(memories), currentPage, calculate)
        && (thrown.None? ==> filteredMemories == Page(memories, currentPage) && errorMessage == old(errorMessage))
        && (thrown.Some? ==> filteredMemories == old(filteredMemories) && errorMessage == LoadMoreFailed)
    {
      var nextPage := currentPage + 1;
      var start := nextPage * PageSize;
      if start >= |memories| {
        return;
      }
      isLoadingMore := true;
      currentPage := nextPage;
      var thrown := FilterAndPaginate(calculate);
      if thrown.Some? {
        errorMessage := LoadMoreFailed;
      }
      isLoadingMore := false;
    }

    /** `openAddModal` */
    method OpenAddModal()
      modifies this`editingMemory, this`showAddModal, formData
      ensures editingMemory == VNull && formData.Blank() && showAddModal
    {
      editingMemory := VNull;
      formData.title := VStr("");
      formData.text := VStr("");
      formData.eventDate := VStr("");
      formData.imageBase64 := VStr("");
      showAddModal := true;
    }

    /** `openEditModal(memory)`: the form shows the memory, with no image as `''`. */
    method OpenEditModal(memory: Record)
      modifies this`editingMemory, this`showAddModal, formData
      ensures editingMemory == Get(memory, "id") && showAddModal
      ensures formData.title == Get(memory, "title") && formData.text == Get(memory, "text")
      ensures formData.eventDate == Get(memory, "eventDate")
      ensures formData.imageBase64 == if Truthy(Get(memory, "imageBase64")) then Get(memory, "imageBase64") else VStr("")
    {
      editingMemory := Get(memory, "id");
      formData.title := Get(memory, "title");
      formData.text := Get(memory, "text");
      formData.eventDate := Get(memory, "eventDate");
      formData.imageBase64 := if Truthy(Get(memory, "imageBase64")) then Get(memory, "imageBase64") else VStr("");
      showAddModal := true;
    }

    /** `closeModal` */
    method CloseModal()
      modifies this`showAddModal, this`editingMemory, this`successMessage, this`errorMessage, formData
      ensures !showAddModal && editingMemory == VNull && formData.Blank()
      ensures successMessage == "" && errorMessage == ""
    {
      showAddModal := false;
      editingMemory := VNull;
      formData.title := VStr("");
      formData.text := VStr("");
      formData.eventDate := VStr("");
      formData.imageBase64 := VStr("");
      successMessage := "";
      errorMessage := "";
    }

    /** `handleImageUpload(file)` with what `fileToBase64` produced for the file. */
    method HandleImageUpload(read: Result<string>)
      modifies this`errorMessage, formData`imageBase64
      ensures read.Ok? ==> formData.imageBase64 == VStr(read.value) && errorMessage == old(errorMessage)
      ensures read.Err? ==> formData.imageBase64 == old(formData.imageBase64) && errorMessage == UploadFailed
    {
      if read.Ok? {
        formData.imageBase64 := VStr(read.value);
      } else {
        errorMessage := UploadFailed;
      }
    }

    /** `removeImage` */
    method RemoveImage()
      modifies formData`imageBase64
      ensures formData.imageBase64 == VStr("")
    {
      formData.imageBase64 := VStr("");
    }

    /** The store call behind a save: an update of the memory being edited (only a number
        can be one of the store's keys) or a new memory. */
    method Store(payload: Record, now: int, iso: string) returns (failed: Option<Error>)
      requires Valid()
      modifies service
      ensures Valid()
      ensures failed.None? <==> SaveWorks(editingMemory, old(service.records), now)
      ensures service.records == if failed.None? then Saved(editingMemory, old(service.records), payload, now, iso)
                                 else old(service.records)
    {
      if Truthy(editingMemory) {
        if !editingMemory.VNum? {
          return Some(if editingMemory.VStr? then Error("Memory with id " + editingMemory.s + " not found") else DataError);
        }
        var r := service.UpdateMemory(editingMemory.n, payload, iso);
        failed := if r.Err? then Some(r.error) else None;
      } else {
        var r := service.CreateMemory(payload, now, iso);
        failed := if r.Err? then Some(r.error) else None;
      }
    }

    /** The start of a change: loading, with both messages cleared. */
    method Begin()
      modifies this`isLoading, this`errorMessage, this`successMessage
      ensures isLoading && errorMessage == "" && successMessage == ""
    {
      isLoading := true;
      errorMessage := "";
      successMessage := "";
    }

    /** A failed change: its message, after which loading is over. */
    method Fail(message: string)
      modifies this`errorMessage, this`isLoading
      ensures errorMessage == message && !isLoading
    {
      errorMessage := message;
      isLoading := false;
    }

    /** The part of `saveMemory` after validation: the store call, then the reload, with
        the outcome shown as a message. */
    method Commit(calculate: string -> DaysInfo, now: int, iso: string)
      requires Valid()
      modifies this`memories, this`filteredMemories, this`currentPage, this`isLoading, this`errorMessage,
        this`successMessage, service
      ensures Valid() && !isLoading
      ensures var works := SaveWorks(editingMemory, old(service.records), now);
        service.records == (if works then Saved(editingMemory, old(service.records), formData.Payload(), now, iso)
                            else old(service.records))
        && (!works ==>
              errorMessage == SaveFailed && memories == old(memories) && successMessage == ""
              && filteredMemories == old(filteredMemories) && currentPage == old(currentPage))
        && (works ==>
              successMessage == (if Truthy(editingMemory) then UpdateDone else AddDone)
              && currentPage == 0 && memories == Annotated(service.GetAllMemories(), 0, calculate))
    {
      Begin();
      var failed := Store(formData.Payload(), now, iso);
      if failed.Some? {
        Fail(SaveFailed);
      } else {
        Reload(if Truthy(editingMemory) then UpdateDone else AddDone, calculate);
      }
    }

    /** A successful change: its message, then the reload, after which loading is over. */
    method Reload(message: string, calculate: string -> DaysInfo)
      modifies this`memories, this`filteredMemories, this`currentPage, this`isLoading, this`errorMessage,
        this`successMessage
      ensures successMessage == message && currentPage == 0 && !isLoading
      ensures memories == Annotated(service.GetAllMemories(), 0, calculate)
    {
      successMessage := message;
      LoadMemories(calculate);
      isLoading := false;
    }

    /** `saveMemory`: refuses a blank title or a missing event date without touching the
        store, otherwise updates or creates the memory and reloads the list. A title that
        is not a string makes the call throw before anything happens. */
    method SaveMemory(calculate: string -> DaysInfo, now: int, iso: string) returns (thrown: Option<Error>)
      requires Valid()
      modifies this`memories, this`filteredMemories, this`currentPage, this`isLoading, this`errorMessage,
        this`successMessage, service
      ensures Valid()
      ensures var v := Validate(formData.title, formData.eventDate);
        (v.Err? <==> thrown.Some?)
        && (v.Err? ==> thrown == Some(v.error) && errorMessage == old(errorMessage))
        && (v.Ok? && v.value.Some? ==> errorMessage == v.value.value)
        && (v != Ok(None) ==>
              service.records == old(service.records) && memories == old(memories) && isLoading == old(isLoading)
              && filteredMemories == old(filteredMemories) && successMessage == old(successMessage)
              && currentPage == old(currentPage))
      ensures Validate(formData.title, formData.eventDate) == Ok(None) ==>
        var works := SaveWorks(editingMemory, old(service.records), now);
        !isLoading
        && service.records == (if works then Saved(editingMemory, old(service.records), formData.Payload(), now, iso)
                               else old(service.records))
        && (!works ==>
              errorMessage == SaveFailed && memories == old(memories)
              && filteredMemories == old(filteredMemories) && currentPage == old(currentPage))
        && (works ==>
              successMessage == (if Truthy(editingMemory) then UpdateDone else AddDone)
              && currentPage == 0 && memories == Annotated(service.GetAllMemories(), 0, calculate))
    {
      var v := Validate(formData.title, formData.eventDate);
      if v.Err? {
        return Some(v.error);
      }
      if v.value.Some? {
        errorMessage := v.value.value;
        return None;
      }
      Commit(calculate, now, iso);
      return None;
    }

    /** `deleteMemory(id)` for a valid key, once confirmed: the store call, then the reload.
        A string or array is a valid key that matches none of the store's numeric keys. */
    method Remove(id: Value, calculate: string -> DaysInfo)
      requires Valid() && (id.VNum? || id.VStr? || id.VArr?)
      modifies this`memories, this`filteredMemories, this`currentPage, this`isLoading, this`errorMessage,
        this`successMessage, service
      ensures Valid() && !isLoading
      ensures service.records == if id.VNum? then old(service.records) - {id.n} else old(service.records)
      ensures successMessage == DeleteDone && currentPage == 0
      ensures memories == Annotated(service.GetAllMemories(), 0, calculate)
    {
      isLoading := true;
      errorMessage := "";
      Unstore(id);
      Reload(DeleteDone, calculate);
    }

    /** The store call behind a delete: only a number can be one of the store's keys. */
    method Unstore(id: Value)
      requires Valid()
      modifies service
      ensures Valid()
      ensures service.records == if id.VNum? then old(service.records) - {id.n} else old(service.records)
    {
      if id.VNum? {
        service.DeleteMemory(id.n);
      }
    }

    /** `deleteMemory(id)` once the user answered the confirmation: nothing happens when
        they declined, and `store.delete` throws a DataError on a key that is not a number,
        string or array. */
    method DeleteMemory(id: Value, confirmed: bool, calculate: string -> DaysInfo)
      requires Valid()
      modifies this`memories, this`filteredMemories, this`currentPage, this`isLoading, this`errorMessage,
        this`successMessage, service
      ensures Valid()
      ensures !confirmed ==>
        service.records == old(service.records) && memories == old(memories) && isLoading == old(isLoading)
        && successMessage == old(successMessage) && errorMessage == old(errorMessage)
        && filteredMemories == old(filteredMemories) && currentPage == old(currentPage)
      ensures confirmed ==> !isLoading
      ensures confirmed && (id.VBool? || id.VNull? || id.VUndefined? || id.VObj?) ==>
        service.records == old(service.records) && memories == old(memories)
        && successMessage == old(successMessage) && errorMessage == DeleteFailed
        && filteredMemories == old(filteredMemories) && currentPage == old(currentPage)
      ensures confirmed && id.VNum? ==> service.records == old(service.records) - {id.n}
      ensures confirmed && (id.VStr? || id.VArr?) ==> service.records == old(service.records)
      ensures confirmed && (id.VNum? || id.VStr? || id.VArr?) ==>
        successMessage == DeleteDone && currentPage == 0 && memories == Annotated(service.GetAllMemories(), 0, calculate)
    {
      if !confirmed {
        return;
      }
      if id.VBool? || id.VNull? || id.VUndefined? || id.VObj? {
        errorMessage := DeleteFailed;
        isLoading := false;
        return;
      }
      Remove(id, calculate);
    }
  }

  // ---------------------------------------------------------------- properties

  /** The page a load shows holds at most ten memories, taken in the store's order. */
  lemma LoadedPage(s: MemoriesService, today: Date)
    requires ValidDate(today)
    requires forall m :: m in s.GetAllMemories() ==> Get(m, "eventDate").VStr?
    ensures PageError(s.GetAllMemories(), 0, CalculateAt(today)).None?
    ensures var shown := Page(Annotated(s.GetAllMemories(), 0, CalculateAt(today)), 0);
      |shown| == (if |s.GetAllMemories()| < PageSize then |s.GetAllMemories()| else PageSize)
      && forall i :: 0 <= i < |shown| ==>
        shown[i] == s.GetAllMemories()[i]["daysInfo" :=
          InfoValue(DaysRemaining.DaysRemaining(Get(s.GetAllMemories()[i], "eventDate").s, today))]
  {
    FirstPageShown(s.GetAllMemories(), today);
  }

  /** The first page of a list whose memories all have a string event date. */
  lemma FirstPageShown(all: seq<Record>, today: Date)
    requires ValidDate(today)
    requires forall m :: m in all ==> Get(m, "eventDate").VStr?
    ensures PageError(all, 0, CalculateAt(today)).None?
    ensures var shown := Page(Annotated(all, 0, CalculateAt(today)), 0);
      |shown| == (if |all| < PageSize then |all| else PageSize)
      && forall i :: 0 <= i < |shown| ==>
        shown[i] == all[i]["daysInfo" := InfoValue(DaysRemaining.DaysRemaining(Get(all[i], "eventDate").s, today))]
  {
    forall m | m in Page(all, 0)
      ensures Get(m, "eventDate").VStr?
    {
      var i :| 0 <= i < |Page(all, 0)| && Page(all, 0)[i] == m;
      assert all[i] in all;
    }
    PageErrorIff(all, 0, CalculateAt(today));
    AnnotatedPage(all, 0, CalculateAt(today));
  }
}
