/** The Apps Script client: the requests it sends and how it shapes memory records on
    the way out and on the way back. A call's network reply is a parameter, and each
    call reports the requests it made, in order, with its result. */
module Api {
  import opened Text
  import opened Values
  import opened EventTime

  /** The properties a memory record may carry to and from the server. */
  const MemoryAllowedKeys: seq<string> :=
    ["id", "title", "text", "eventDate", "imageBase64", "isDeleted", "createdAt", "updatedAt"]

  predicate Allowed(k: string) {
    k in MemoryAllowedKeys
  }

  /** `Object.fromEntries(Object.entries(o).filter(([key]) => allowed.includes(key)))` */
  function KeepAllowed(o: Record): (r: Record) {
    map k | k in o && Allowed(k) :: o[k]
  }

  /** The filter keeps exactly the allowed properties, each with its value. */
  lemma KeepAllowedSpec(o: Record)
    ensures forall k :: k in KeepAllowed(o) <==> k in o && Allowed(k)
    ensures forall k :: k in KeepAllowed(o) ==> KeepAllowed(o)[k] == o[k]
  {
  }

  /** Filtering a merged object is merging the filtered parts, so the filter can be applied
      before or after a spread. */
  lemma KeepAllowedMerge(a: Record, b: Record)
    ensures KeepAllowed(a + b) == KeepAllowed(a) + KeepAllowed(b)
  {
  }

  /** A record holding only allowed properties passes unchanged; in particular filtering
      twice is filtering once. */
  lemma KeepAllowedIdentity(o: Record)
    requires forall k :: k in o ==> Allowed(k)
    ensures KeepAllowed(o) == o
  {
  }

  /** A request: a GET of a URL, or a POST of a JSON body. */
  datatype Request = GetUrl(url: string) | Post(url: string, body: Record)

  /** What an async call did: the requests it sent, in order, and what it resolved with
      or threw. */
  datatype Outcome<T> = Outcome(sent: seq<Request>, result: Result<T>)

  const RequiredMessage := "Title và eventDate là bắt buộc"
  const MissingPrefix := "Memory "
  const MissingSuffix := " không tồn tại hoặc đã bị xóa"

  /** `${v}` in a URL or a message for the ids the client passes (numbers or strings). */
  function IdText(v: Value): string {
    PropertyKey(v)
  }

  /** The records `createMemory`, `updateMemory` and `deleteMemory` hand to `saveMemory`. */
  function CreatedRecord(memoryData: Record, now: int, iso: string): Record {
    memoryData + map["id" := VNum(now), "createdAt" := VStr(iso), "updatedAt" := VStr(iso), "isDeleted" := VBool(false)]
  }

  function UpdatedRecord(existing: Record, updates: Record, memoryId: Value, iso: string): Record {
    existing + updates + map["id" := memoryId, "updatedAt" := VStr(iso), "isDeleted" := VBool(false)]
  }

  function DeletedRecord(existing: Record, memoryId: Value, iso: string): Record {
    existing + map["id" := memoryId, "isDeleted" := VBool(true), "updatedAt" := VStr(iso)]
  }

  /** `createMemory` forces a fresh id, both time stamps and `isDeleted: false` over the
      caller's fields and keeps all the others. */
  lemma CreatedFields(memoryData: Record, now: int, iso: string)
    ensures var c := CreatedRecord(memoryData, now, iso);
      c["id"] == VNum(now) && c["isDeleted"] == VBool(false)
      && forall k :: k in memoryData && k != "id" && k != "createdAt" && k != "updatedAt" && k != "isDeleted" ==>
        c[k] == memoryData[k]
  {
  }

  /** `updateMemory` lets the updates override the existing fields and forces the given id
      and `isDeleted: false` whatever either says. */
  lemma UpdatedFields(existing: Record, updates: Record, memoryId: Value, iso: string)
    ensures var u := UpdatedRecord(existing, updates, memoryId, iso);
      u["id"] == memoryId && u["isDeleted"] == VBool(false) && u["updatedAt"] == VStr(iso)
      && forall k :: k != "id" && k != "updatedAt" && k != "isDeleted" ==>
        Get(u, k) == (if k in updates then updates[k] else Get(existing, k))
  {
  }

  /** `deleteMemory` keeps the existing fields and forces the given id and `isDeleted: true`. */
  lemma DeletedFields(existing: Record, memoryId: Value, iso: string)
    ensures var d := DeletedRecord(existing, memoryId, iso);
      d["id"] == memoryId && d["isDeleted"] == VBool(true)
      && forall k :: k != "id" && k != "updatedAt" && k != "isDeleted" ==> Get(d, k) == Get(existing, k)
  {
  }

  // ---------------------------------------------------------------- the list

  /** `Array.isArray(data) ? data : data.data || []`, as far as a later `.sort` accepts it. */
  function ListOf(data: Value): (r: Result<seq<Value>>)
    ensures data.VArr? ==> r == Ok(data.items)
    ensures !data.VArr? && (data.VNull? || data.VUndefined?) ==> r.Err?
  {
    if data.VArr? then Ok(data.items)
    else
      match Prop(data, "data")
      case Err(e) => Err(e)
      case Ok(inner) =>
        if !Truthy(inner) then Ok([])
        else if inner.VArr? then Ok(inner.items)
        else Err(TypeErrorNotFunction("memories.sort"))
  }

  /** The comparator's key for a list item: the time value of its `eventDate`. */
  function ItemTime(item: Value): Option<int> {
    match Prop(item, "eventDate")
    case Ok(d) => TimeOf(d)
    case Err(_) => None
  }

  /** Sorting compares every element once there are two: a null or undefined item then
      makes the comparator throw when it reads `eventDate`. */
  predicate ComparatorThrows(items: seq<Value>) {
    |items| >= 2 && exists i :: 0 <= i < |items| && (items[i].VNull? || items[i].VUndefined?)
  }

  // ---------------------------------------------------------------- the client

  class ApiService {
    const apiId: string

    constructor(apiId: string)
      ensures this.apiId == apiId
    {
      this.apiId := apiId;
    }

    function Endpoint(): string {
      "https://script.google.com/macros/s/" + apiId + "/exec"
    }

    /** `deleteReminder`: the server counts reminders from 1. */
    function DeleteReminder(userId: string, remindIndex: int, reply: Reply): (o: Outcome<Value>) {
      Outcome([GetUrl(Endpoint() + "?msg=remove_remind%20" + IntToString(remindIndex + 1) + "&userId=" + userId)],
              ReadJson(reply))
    }

    /** `getMemoriesList` */
    function GetMemoriesList(reply: Reply): (o: Outcome<seq<Value>>)
      ensures o.sent == [GetUrl(Endpoint() + "?target=memory&action=list")]
    {
      var sent := [GetUrl(Endpoint() + "?target=memory&action=list")];
      match ReadJson(reply)
      case Err(e) => Outcome(sent, Err(e))
      case Ok(data) =>
        match ListOf(data)
        case Err(e) => Outcome(sent, Err(e))
        case Ok(memories) =>
          if ComparatorThrows(memories) then Outcome(sent, Err(TypeErrorRead("eventDate")))
          else Outcome(sent, Ok(NewestFirst(memories, ItemTime)))
    }

    /** `loadMemory`: the record in `data.data`, or the body itself, cut to the allowed keys. */
    function LoadMemory(memoryId: Value, reply: Reply): (o: Outcome<Record>)
      ensures o.sent == [GetUrl(Endpoint() + "?target=memory&action=load&postId=" + IdText(memoryId))]
      ensures o.result.Ok? ==> forall k :: k in o.result.value ==> Allowed(k)
    {
      var sent := [GetUrl(Endpoint() + "?target=memory&action=load&postId=" + IdText(memoryId))];
      match ReadJson(reply)
      case Err(e) => Outcome(sent, Err(e))
      case Ok(data) =>
        match Prop(data, "data")
        case Err(e) => Outcome(sent, Err(e))
        case Ok(inner) =>
          var memory := if Truthy(inner) then inner else data;
          Outcome(sent, Ok(KeepAllowed(SpreadOf(memory))))
    }

    /** `saveMemory`: validates, posts the allowed fields, and returns them overridden by
        the reply's fields. */
    function SaveMemory(memoryData: Record, reply: Reply): (o: Outcome<Record>)
      ensures o.sent == [] <==> !Truthy(Get(memoryData, "title")) || !Truthy(Get(memoryData, "eventDate"))
      ensures o.sent == [] ==> o.result == Err(Error(RequiredMessage))
      ensures o.sent != [] ==> o.sent == [Post(Endpoint() + "?target=memory&action=save", KeepAllowed(memoryData))]
      ensures o.sent != [] ==> (o.result.Ok? <==> ReadJson(reply).Ok?)
      ensures o.result.Ok? ==> o.result.value == KeepAllowed(memoryData) + SpreadOf(ReadJson(reply).value)
    {
      if !Truthy(Get(memoryData, "title")) || !Truthy(Get(memoryData, "eventDate")) then
        Outcome([], Err(Error(RequiredMessage)))
      else
        var payload := KeepAllowed(memoryData);
        var sent := [Post(Endpoint() + "?target=memory&action=save", payload)];
        match ReadJson(reply)
        case Err(e) => Outcome(sent, Err(e))
        case Ok(data) => Outcome(sent, Ok(payload + SpreadOf(data)))
    }

    /** `createMemory`: `now` is `Date.now()`, `iso` is `new Date().toISOString()`. */
    function CreateMemory(memoryData: Record, now: int, iso: string, reply: Reply): Outcome<Record> {
      SaveMemory(CreatedRecord(memoryData, now, iso), reply)
    }

    /** `updateMemory`: uses `existingData` when given (None is the default null), and
        otherwise loads the record first. */
    function UpdateMemory(memoryId: Value, updates: Record, existingData: Option<Record>, iso: string,
                          loadReply: Reply, saveReply: Reply): Outcome<Record>
    {
      var loaded :=
        if existingData.Some? then Outcome([], Ok(existingData))
        else
          var l := LoadMemory(memoryId, loadReply);
          Outcome(l.sent, if l.result.Ok? then Ok(Some(l.result.value)) else Err(l.result.error));
      match loaded.result
      case Err(e) => Outcome(loaded.sent, Err(e))
      case Ok(existing) =>
        if existing.None? then Outcome(loaded.sent, Err(Error(MissingPrefix + IdText(memoryId) + MissingSuffix)))
        else
          var saved := SaveMemory(UpdatedRecord(existing.value, updates, memoryId, iso), saveReply);
          Outcome(loaded.sent + saved.sent, saved.result)
    }

    /** `deleteMemory`: a soft delete, saved like any other change. */
    function DeleteMemory(memoryId: Value, existingData: Record, iso: string, reply: Reply): Outcome<Record> {
      SaveMemory(DeletedRecord(existingData, memoryId, iso), reply)
    }
  }

  // ---------------------------------------------------------------- properties

  /** The reminder position in the URL is `remindIndex + 1`, written in decimal right after
      the command and followed by the user id. */
  lemma DeleteReminderPosition(api: ApiService, userId: string, remindIndex: nat, reply: Reply)
    ensures var url := api.DeleteReminder(userId, remindIndex, reply).sent[0].url;
      var head := api.Endpoint() + "?msg=remove_remind%20";
      var n := NatToString(remindIndex + 1);
      url == head + n + "&userId=" + userId
      && url[|head|..|head| + |n|] == n
      && DigitsValue(url[|head|..|head| + |n|]) == remindIndex + 1
  {
    var head := api.Endpoint() + "?msg=remove_remind%20";
    var n := NatToString(remindIndex + 1);
    var url := head + n + "&userId=" + userId;
    assert url[|head|..|head| + |n|] == n;
    DigitsRoundTrip(remindIndex + 1);
  }

  /** `saveMemory` returns the posted fields, with the reply's fields winning. */
  lemma SaveResultFields(api: ApiService, memoryData: Record, reply: Reply)
    requires api.SaveMemory(memoryData, reply).result.Ok?
    ensures var r := api.SaveMemory(memoryData, reply).result.value;
      var data := SpreadOf(ReadJson(reply).value);
      forall k :: k in r <==> k in data || (k in memoryData && Allowed(k))
    ensures var r := api.SaveMemory(memoryData, reply).result.value;
      var data := SpreadOf(ReadJson(reply).value);
      forall k :: k in r ==> r[k] == if k in data then data[k] else memoryData[k]
  {
  }

  /** A list body comes back whole, newest event first, whichever of the two shapes the
      server used, as long as it has no null entries. */
  lemma ListShapes(api: ApiService, reply: Reply, items: seq<Value>)
    requires ReadJson(reply) == Ok(VArr(items))
      || (ReadJson(reply).Ok? && ReadJson(reply).value.VObj? && Prop(ReadJson(reply).value, "data") == Ok(VArr(items)))
    requires forall i :: 0 <= i < |items| ==> !items[i].VNull? && !items[i].VUndefined?
    ensures api.GetMemoriesList(reply).result == Ok(NewestFirst(items, ItemTime))
    ensures multiset(api.GetMemoriesList(reply).result.value) == multiset(items)
  {
    var data := ReadJson(reply).value;
    assert ListOf(data) == Ok(items);
    assert !ComparatorThrows(items);
    NewestFirstPermutes(items, ItemTime);
  }

  /** An object body whose `data` is missing or falsy (`{}`, `{"data": null}`) is an empty list. */
  lemma NoListIsEmpty(api: ApiService, reply: Reply, entries: seq<(string, Value)>)
    requires ReadJson(reply) == Ok(VObj(entries))
    requires !Truthy(Get(EntriesToRecord(entries), "data"))
    ensures api.GetMemoriesList(reply).result == Ok([])
  {
  }

  /** The list is ordered from the latest event to the earliest, undated items last. */
  lemma ListNewestFirst(api: ApiService, reply: Reply)
    requires api.GetMemoriesList(reply).result.Ok?
    ensures var r := api.GetMemoriesList(reply).result.value;
      forall i, j :: 0 <= i < j < |r| && ItemTime(r[j]).Some? ==>
        ItemTime(r[i]).Some? && ItemTime(r[i]).value >= ItemTime(r[j]).value
  {
    var memories := ListOf(ReadJson(reply).value).value;
    NewestFirstOrdered(memories, ItemTime);
  }

  /** `loadMemory` never resolves to null, so the not-found branch of `updateMemory` is
      dead: an update either fails with the load's error or is the save of the merged record. */
  lemma UpdateNeverMissing(api: ApiService, memoryId: Value, updates: Record, existingData: Option<Record>,
                           iso: string, loadReply: Reply, saveReply: Reply)
    ensures var o := api.UpdateMemory(memoryId, updates, existingData, iso, loadReply, saveReply);
      var l := api.LoadMemory(memoryId, loadReply);
      if existingData.Some? then
        o == api.SaveMemory(UpdatedRecord(existingData.value, updates, memoryId, iso), saveReply)
      else if l.result.Err? then
        o == Outcome(l.sent, l.result)
      else
        var saved := api.SaveMemory(UpdatedRecord(l.result.value, updates, memoryId, iso), saveReply);
        o == Outcome(l.sent + saved.sent, saved.result)
  {
    if existingData.Some? {
      var saved := api.SaveMemory(UpdatedRecord(existingData.value, updates, memoryId, iso), saveReply);
      assert [] + saved.sent == saved.sent;
    }
  }

  /** An update writes the updates over the existing record, and sends it flagged as not
      deleted under the given id; the sent record carries only allowed fields. */
  lemma UpdateSends(api: ApiService, memoryId: Value, updates: Record, existing: Record, iso: string,
                    loadReply: Reply, saveReply: Reply)
    requires Truthy(Get(updates, "title")) && Truthy(Get(updates, "eventDate"))
    ensures var o := api.UpdateMemory(memoryId, updates, Some(existing), iso, loadReply, saveReply);
      var body := KeepAllowed(UpdatedRecord(existing, updates, memoryId, iso));
      o.sent == [Post(api.Endpoint() + "?target=memory&action=save", body)]
      && Get(body, "id") == memoryId && Get(body, "isDeleted") == VBool(false)
  {
    var rec := UpdatedRecord(existing, updates, memoryId, iso);
    assert Get(rec, "title") == Get(updates, "title");
    assert Get(rec, "eventDate") == Get(updates, "eventDate");
    UpdatedBody(rec, memoryId);
  }

  lemma UpdatedBody(rec: Record, memoryId: Value)
    requires "id" in rec && rec["id"] == memoryId
    requires "isDeleted" in rec && rec["isDeleted"] == VBool(false)
    ensures var body := KeepAllowed(rec);
      Get(body, "id") == memoryId && Get(body, "isDeleted") == VBool(false)
  {
    assert Allowed("id") && Allowed("isDeleted");
  }

  /** A delete without existing data has no title, so it is refused before any request. */
  lemma DeleteNeedsExistingData(api: ApiService, memoryId: Value, existingData: Record, iso: string, reply: Reply)
    requires !Truthy(Get(existingData, "title"))
    ensures api.DeleteMemory(memoryId, existingData, iso, reply) == Outcome([], Err(Error(RequiredMessage)))
  {
  }
}
