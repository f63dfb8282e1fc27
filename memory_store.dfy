/** The browser-side memory store: records kept in an IndexedDB object store whose key
    path is `id`, with an index on `eventDate` that `getAllMemories` reads through. The
    object store is a map from id to record; each call is one transaction. */
module MemoryStore {
  import opened Text
  import opened Values
  import opened Sorting
  import opened EventTime

  // ---------------------------------------------------------------- the object store

  /** Every record sits under the key its own `id` property holds (key path `id`). */
  predicate KeyedById(records: map<int, Record>) {
    forall id :: id in records ==> Get(records[id], "id") == VNum(id)
  }

  /** The error `store.add` raises when the key is already taken. */
  const ConstraintError := Error("Key already exists in the object store.")

  /** `store.put(record)`: the record replaces whatever is stored under its own id. */
  function Put(records: map<int, Record>, record: Record): (r: map<int, Record>)
    requires Get(record, "id").VNum?
    ensures r.Keys == records.Keys + {Get(record, "id").n}
    ensures KeyedById(records) ==> KeyedById(r)
  {
    records[Get(record, "id").n := record]
  }

  /** The smallest element of a non-empty set of ids. */
  ghost function MinOf(s: set<int>): (m: int)
    requires s != {}
    ensures m in s && forall x :: x in s ==> m <= x
  {
    NonEmpty(s);
    var x :| x in s;
    if s == {x} then x
    else
      var r := MinOf(s - {x});
      assert forall y :: y in s ==> y == x || y in s - {x};
      if x < r then x else r
  }

  lemma NonEmpty(s: set<int>)
    requires s != {}
    ensures exists x :: x in s
  {
    if forall x :: x !in s {
      assert false;
    }
  }

  lemma HasMin(s: set<int>)
    requires s != {}
    ensures exists m :: m in s && forall x :: x in s ==> m <= x
  {
    var m := MinOf(s);
  }

  /** The ids in ascending order: the order the object store and its indexes break ties in. */
  function SortedIds(s: set<int>): (ids: seq<int>)
    ensures forall x :: x in ids <==> x in s
    ensures forall i, j :: 0 <= i < j < |ids| ==> ids[i] < ids[j]
  {
    if s == {} then []
    else
      HasMin(s);
      var m :| m in s && forall x :: x in s ==> m <= x;
      var rest := SortedIds(s - {m});
      SortedCons(m, s, rest);
      [m] + rest
  }

  /** The least element in front of the ascending rest of the set. */
  lemma SortedCons(m: int, s: set<int>, rest: seq<int>)
    requires m in s && forall x :: x in s ==> m <= x
    requires forall x :: x in rest <==> x in s - {m}
    requires forall i, j :: 0 <= i < j < |rest| ==> rest[i] < rest[j]
    ensures forall x :: x in [m] + rest <==> x in s
    ensures forall i, j :: 0 <= i < j < |[m] + rest| ==> ([m] + rest)[i] < ([m] + rest)[j]
  {
    var ids := [m] + rest;
    forall i, j | 0 <= i < j < |ids|
      ensures ids[i] < ids[j]
    {
      assert ids[j] == rest[j - 1];
      if i > 0 {
        assert ids[i] == rest[i - 1];
      } else {
        assert rest[j - 1] in rest;
      }
    }
  }

  /** What `index('eventDate').getAll()` hands over for these ids: the records that have a
      string `eventDate` (the others are not in the index). */
  function Indexed(records: map<int, Record>, ids: seq<int>): (r: seq<Record>)
    requires forall i :: 0 <= i < |ids| ==> ids[i] in records
    ensures forall x :: x in r <==> exists id :: id in ids && id in records && records[id] == x && Get(x, "eventDate").VStr?
  {
    if ids == [] then []
    else
      var x := records[ids[0]];
      assert forall id :: id in ids <==> id == ids[0] || id in ids[1..];
      (if Get(x, "eventDate").VStr? then [x] else []) + Indexed(records, ids[1..])
  }

  // ---------------------------------------------------------------- records

  /** The record `createMemory` stores: the input's fields, then a fresh `id` and both
      time stamps. */
  function NewMemory(memoryData: Record, now: int, iso: string): Record {
    memoryData + map["id" := VNum(now), "createdAt" := VStr(iso), "updatedAt" := VStr(iso)]
  }

  /** The new record keeps every input field but the three the store sets. */
  lemma NewMemoryFields(memoryData: Record, now: int, iso: string)
    ensures var m := NewMemory(memoryData, now, iso);
      Get(m, "id") == VNum(now) && Get(m, "createdAt") == VStr(iso) && Get(m, "updatedAt") == VStr(iso)
      && forall k :: k != "id" && k != "createdAt" && k != "updatedAt" ==> Get(m, k) == Get(memoryData, k)
  {
  }

  /** The record `updateMemory` puts back: the stored fields overridden by the updates,
      with `id` and `createdAt` taken from the stored record and a new `updatedAt`. */
  function Updated(memory: Record, updates: Record, iso: string): Record {
    memory + updates
      + map["id" := Get(memory, "id"), "createdAt" := Get(memory, "createdAt"), "updatedAt" := VStr(iso)]
  }

  /** Updates override stored fields, except that `id` and `createdAt` survive whatever the
      updates say. */
  lemma UpdatedFields(memory: Record, updates: Record, iso: string)
    ensures var u := Updated(memory, updates, iso);
      Get(u, "id") == Get(memory, "id") && Get(u, "createdAt") == Get(memory, "createdAt")
      && Get(u, "updatedAt") == VStr(iso)
      && forall k :: k != "id" && k != "createdAt" && k != "updatedAt" ==>
        Get(u, k) == (if k in updates then updates[k] else Get(memory, k))
  {
  }

  // ---------------------------------------------------------------- sorting and searching

  /** The comparator's key: the time value of `eventDate`, NaN when it is not a date. */
  function TimeOfRecord(r: Record): Option<int> {
    EventTimeOf(r)
  }

  /** The TypeError `toLowerCase` raises on a field that is not a string. */
  function LowerCaseError(v: Value): Error {
    if v.VUndefined? || v.VNull? then TypeErrorRead("toLowerCase") else TypeErrorNotFunction("toLowerCase")
  }

  /** Whether one memory passes the search: its lower-cased title contains the lower-cased
      query, or else its lower-cased text does. The text is only read when the title fails. */
  function MatchOf(memory: Record, lowerQuery: string): (r: Result<bool>)
    ensures r.Ok? <==>
      Get(memory, "title").VStr? && (Contains(Lower(Get(memory, "title").s), lowerQuery) || Get(memory, "text").VStr?)
  {
    var title := Get(memory, "title");
    if !title.VStr? then Err(LowerCaseError(title))
    else if Contains(Lower(title.s), lowerQuery) then Ok(true)
    else
      var text := Get(memory, "text");
      if !text.VStr? then Err(LowerCaseError(text))
      else Ok(Contains(Lower(text.s), lowerQuery))
  }

  /** The memory has the two string fields the search reads. */
  predicate Searchable(memory: Record) {
    Get(memory, "title").VStr? && Get(memory, "text").VStr?
  }

  /** Title or text contains the query, both lower-cased. */
  predicate Matches(memory: Record, lowerQuery: string)
    requires Searchable(memory)
  {
    Contains(Lower(Get(memory, "title").s), lowerQuery) || Contains(Lower(Get(memory, "text").s), lowerQuery)
  }

  /** `memories.filter(...)` with a callback that may throw. */
  function SearchIn(memories: seq<Record>, lowerQuery: string): (r: Result<seq<Record>>)
    ensures r.Ok? ==> |r.value| <= |memories|
  {
    if memories == [] then Ok([])
    else
      match MatchOf(memories[0], lowerQuery)
      case Err(e) => Err(e)
      case Ok(keep) =>
        match SearchIn(memories[1..], lowerQuery)
        case Err(e) => Err(e)
        case Ok(rest) => Ok((if keep then [memories[0]] else []) + rest)
  }

  /** `a` is `b` with some elements left out, the rest in their order. */
  predicate Subsequence<T(==)>(a: seq<T>, b: seq<T>)
    decreases |b|
  {
    a == [] || (b != [] && ((a[0] == b[0] && Subsequence(a[1..], b[1..])) || Subsequence(a, b[1..])))
  }

  /** One step of the filter over a memory that has both fields. */
  lemma SearchInStep(memories: seq<Record>, lowerQuery: string)
    requires memories != [] && Searchable(memories[0])
    requires SearchIn(memories[1..], lowerQuery).Ok?
    ensures SearchIn(memories, lowerQuery)
      == Ok((if Matches(memories[0], lowerQuery) then [memories[0]] else [])
            + SearchIn(memories[1..], lowerQuery).value)
  {
    assert MatchOf(memories[0], lowerQuery) == Ok(Matches(memories[0], lowerQuery));
  }

  /** When every memory has a string title and text, the search keeps, in order, exactly
      the memories that match. */
  lemma {:induction false} SearchInFilters(memories: seq<Record>, lowerQuery: string)
    requires forall m :: m in memories ==> Searchable(m)
    ensures SearchIn(memories, lowerQuery).Ok?
    ensures Subsequence(SearchIn(memories, lowerQuery).value, memories)
    ensures forall m :: m in SearchIn(memories, lowerQuery).value <==> m in memories && Matches(m, lowerQuery)
  {
    if memories != [] {
      var m := memories[0];
      assert m in memories;
      assert forall x :: x in memories[1..] ==> x in memories;
      SearchInFilters(memories[1..], lowerQuery);
      var rest := SearchIn(memories[1..], lowerQuery).value;
      SearchInStep(memories, lowerQuery);
      assert forall x :: x in memories <==> x == m || x in memories[1..];
      if Matches(m, lowerQuery) {
        assert ([m] + rest)[1..] == rest;
        assert ([m] + rest)[0] == memories[0];
      } else {
        assert [] + rest == rest;
      }
    }
  }

  /** A memory without a string title anywhere in the list makes the search throw. */
  lemma {:induction false} SearchNeedsTitles(memories: seq<Record>, lowerQuery: string, i: int)
    requires 0 <= i < |memories| && !Get(memories[i], "title").VStr?
    ensures SearchIn(memories, lowerQuery).Err?
  {
    if i > 0 {
      SearchNeedsTitles(memories[1..], lowerQuery, i - 1);
    }
  }

  // ---------------------------------------------------------------- the service

  class MemoriesService {
    /** The object store's contents. */
    var records: map<int, Record>

    ghost predicate Valid()
      reads this
    {
      KeyedById(records)
    }

    /** Opening a fresh database: an empty store. */
    constructor()
      ensures records == map[] && Valid()
    {
      records := map[];
    }

    /** `createMemory`: `now` is `Date.now()` and `iso` is `new Date().toISOString()`. */
    method CreateMemory(memoryData: Record, now: int, iso: string) returns (r: Result<Record>)
      requires Valid()
      modifies this
      ensures Valid()
      ensures now in old(records) ==> r == Err(ConstraintError) && records == old(records)
      ensures now !in old(records) ==>
        r == Ok(NewMemory(memoryData, now, iso)) && records == old(records)[now := r.value]
    {
      var memory := NewMemory(memoryData, now, iso);
      if now in records {
        return Err(ConstraintError);
      }
      records := records[now := memory];
      return Ok(memory);
    }

    /** `getMemoryById`: the stored record, or null. */
    function GetMemoryById(id: int): (r: Option<Record>)
      reads this
      ensures r.Some? <==> id in records
      ensures r.Some? ==> r.value == records[id]
    {
      if id in records then Some(records[id]) else None
    }

    /** `updateMemory`: throws when nothing is stored under `id`; otherwise puts back the
        merged record, which lands under the same id because the stored record carries it. */
    method UpdateMemory(id: int, updates: Record, iso: string) returns (r: Result<Record>)
      requires Valid()
      modifies this
      ensures Valid()
      ensures id !in old(records) ==>
        r == Err(Error("Memory with id " + IntToString(id) + " not found")) && records == old(records)
      ensures id in old(records) ==>
        r == Ok(Updated(old(records)[id], updates, iso)) && records == old(records)[id := r.value]
    {
      var memory := GetMemoryById(id);
      if memory.None? {
        return Err(Error("Memory with id " + IntToString(id) + " not found"));
      }
      var updated := Updated(memory.value, updates, iso);
      UpdatedFields(memory.value, updates, iso);
      records := Put(records, updated);
      return Ok(updated);
    }

    /** `deleteMemory`: removes whatever is stored under `id`. */
    method DeleteMemory(id: int)
      requires Valid()
      modifies this
      ensures Valid()
      ensures records == old(records) - {id}
    {
      records := records - {id};
    }

    /** `clearAllMemories` */
    method ClearAllMemories()
      modifies this
      ensures Valid()
      ensures records == map[]
    {
      records := map[];
    }

    /** `getAllMemories`: the indexed records, newest event first. */
    function GetAllMemories(): (r: seq<Record>)
      reads this
    {
      NewestFirst(Indexed(records, SortedIds(records.Keys)), TimeOfRecord)
    }

    /** `searchMemories`: everything for a blank query, otherwise the matching memories. */
    function SearchMemories(query: string): (r: Result<seq<Record>>)
      reads this
      ensures IsBlank(query) ==> r == Ok(GetAllMemories())
    {
      var memories := GetAllMemories();
      if IsBlank(query) then Ok(memories) else SearchIn(memories, Lower(query))
    }
  }

  // ---------------------------------------------------------------- properties of the service

  /** The list holds exactly the stored records that have a string `eventDate`, each once. */
  lemma AllMemoriesAreIndexed(s: MemoriesService, x: Record)
    ensures x in s.GetAllMemories() <==>
      exists id :: id in s.records && s.records[id] == x && Get(x, "eventDate").VStr?
  {
    var indexed := Indexed(s.records, SortedIds(s.records.Keys));
    NewestFirstPermutes(indexed, TimeOfRecord);
    assert x in s.GetAllMemories() <==> x in multiset(s.GetAllMemories());
    assert x in indexed <==> x in multiset(indexed);
  }

  /** Every memory whose event date parses comes before every one whose does not, and the
      dated ones run from the latest event to the earliest. */
  lemma AllMemoriesNewestFirst(s: MemoriesService)
    ensures var r := s.GetAllMemories();
      forall i, j :: 0 <= i < j < |r| && TimeOfRecord(r[j]).Some? ==>
        TimeOfRecord(r[i]).Some? && TimeOfRecord(r[i]).value >= TimeOfRecord(r[j]).value
  {
    NewestFirstOrdered(Indexed(s.records, SortedIds(s.records.Keys)), TimeOfRecord);
  }

  /** A blank query gives the full list; any other query over memories that all have a
      title and a text gives, in list order, exactly those matching it. */
  lemma SearchResult(s: MemoriesService, query: string)
    requires !IsBlank(query)
    requires forall m :: m in s.GetAllMemories() ==> Searchable(m)
    ensures s.SearchMemories(query).Ok?
    ensures Subsequence(s.SearchMemories(query).value, s.GetAllMemories())
    ensures forall m :: m in s.SearchMemories(query).value <==>
      m in s.GetAllMemories() && Matches(m, Lower(query))
  {
    SearchInFilters(s.GetAllMemories(), Lower(query));
  }
}
