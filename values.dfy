/** JavaScript values as the services see them after `response.json()`, plain objects
    as maps from property names to values, and the error and response shapes the
    services pass around. Numbers are integers throughout. */
module Values {
  import opened Text

  datatype Option<+T> = None | Some(value: T)

  /** An error a service throws; `message` is what `error.message` reads. */
  datatype Error = Error(message: string)

  datatype Result<+T> = Ok(value: T) | Err(error: Error)

  datatype Value =
    | VUndefined
    | VNull
    | VBool(b: bool)
    | VNum(n: int)
    | VStr(s: string)
    | VArr(items: seq<Value>)
    | VObj(entries: seq<(string, Value)>)

  /** A plain object: its own enumerable properties. */
  type Record = map<string, Value>

  /** JavaScript truthiness. */
  predicate Truthy(v: Value) {
    match v
    case VUndefined => false
    case VNull => false
    case VBool(b) => b
    case VNum(n) => n != 0
    case VStr(s) => s != ""
    case VArr(_) => true
    case VObj(_) => true
  }

  /** `o.k`: a missing property reads as undefined. */
  function Get(o: Record, k: string): (v: Value)
    ensures k !in o ==> v == VUndefined
    ensures k in o ==> v == o[k]
  {
    if k in o then o[k] else VUndefined
  }

  /** The outcome of a `map` whose callback may throw: every result when none throws,
      otherwise the error of the first that does. */
  function Collect<T>(rs: seq<Result<T>>): (r: Result<seq<T>>)
    ensures r.Ok? <==> forall i :: 0 <= i < |rs| ==> rs[i].Ok?
    ensures r.Ok? ==> |r.value| == |rs| && forall i :: 0 <= i < |rs| ==> r.value[i] == rs[i].value
    ensures r.Err? ==>
      exists i :: 0 <= i < |rs| && rs[i] == Err(r.error) && forall j :: 0 <= j < i ==> rs[j].Ok?
  {
    if rs == [] then Ok([])
    else
      var n := |rs|;
      var front := rs[..n - 1];
      assert forall i :: 0 <= i < n - 1 ==> front[i] == rs[i];
      match Collect(front)
      case Err(e) => Err(e)
      case Ok(vs) =>
        match rs[n - 1]
        case Err(e) => Err(e)
        case Ok(last) => Ok(vs + [last])
  }

  /** The object an object literal with these entries builds; a later duplicate wins. */
  function EntriesToRecord(entries: seq<(string, Value)>): (r: Record)
    ensures r.Keys == set e | e in entries :: e.0
  {
    if entries == [] then map[]
    else
      var last := entries[|entries| - 1];
      var front := entries[..|entries| - 1];
      assert entries == front + [last];
      EntriesToRecord(front)[last.0 := last.1]
  }

  /** The properties `{...v}` copies from a parsed JSON value: an object's own fields,
      nothing from null, undefined, booleans and numbers. */
  function SpreadOf(v: Value): Record {
    match v
    case VObj(entries) => EntriesToRecord(entries)
    case VArr(items) =>
      IndexKeysInjective(); map i | 0 <= i < |items| :: NatToString(i) := items[i]
    case VStr(s) =>
      IndexKeysInjective(); map i | 0 <= i < |s| :: NatToString(i) := VStr([s[i]])
    case _ => map[]
  }

  /** Distinct indices have distinct property names. */
  lemma IndexKeysInjective()
    ensures forall m: nat, n: nat :: NatToString(m) == NatToString(n) ==> m == n
  {
    forall m: nat, n: nat | NatToString(m) == NatToString(n)
      ensures m == n
    {
      NatToStringInjective(m, n);
    }
  }

  /** `o.k` on any value: reading a property of null or undefined throws a TypeError,
      a primitive has no own data properties. */
  function Prop(v: Value, k: string): Result<Value> {
    match v
    case VUndefined => Err(TypeErrorRead(k))
    case VNull => Err(TypeErrorRead(k))
    case VObj(entries) => Ok(Get(EntriesToRecord(entries), k))
    case _ => Ok(VUndefined)
  }

  /** The TypeError reading a property of null or undefined raises. The exact wording
      is the engine's; the model fixes one. */
  function TypeErrorRead(k: string): Error {
    Error("Cannot read properties of null (reading '" + k + "')")
  }

  /** The TypeError raised when a value has no method of the given name. */
  function TypeErrorNotFunction(name: string): Error {
    Error(name + " is not a function")
  }

  /** `String(v)` as used for an object's property key. */
  function PropertyKey(v: Value): string {
    match v
    case VUndefined => "undefined"
    case VNull => "null"
    case VBool(b) => if b then "true" else "false"
    case VNum(n) => IntToString(n)
    case VStr(s) => s
    case VArr(items) => JoinedKeys(items)
    case VObj(_) => "[object Object]"
  }

  /** `items.join(',')`: each element as its property key, null and undefined as the
      empty string. */
  function JoinedKeys(items: seq<Value>): string {
    if items == [] then ""
    else
      var head := if items[0].VUndefined? || items[0].VNull? then "" else PropertyKey(items[0]);
      if |items| == 1 then head else head + "," + JoinedKeys(items[1..])
  }

  /** `String([1, 2])` is `1,2`, and `String([null, 'a'])` is `,a`. */
  lemma ArrayKeyJoins()
    ensures PropertyKey(VArr([VNum(1), VNum(2)])) == "1,2"
    ensures PropertyKey(VArr([VNull, VStr("a")])) == ",a"
  {
    assert IntToString(1) == "1" && IntToString(2) == "2";
    assert [VNum(1), VNum(2)][1..] == [VNum(2)];
    assert [VNull, VStr("a")][1..] == [VStr("a")];
  }

  // ---------------------------------------------------------------- fetch

  /** What `fetch` followed by `response.json()` yields: a reply with its status and its
      body parsed as JSON (None when the body is not JSON), or a rejected fetch. */
  datatype Reply = Reply(status: int, json: Option<Value>) | FetchFailed(message: string)

  /** The services' common reply handling: a status outside 200..299 throws
      `HTTP error! status: N`; a body that is not JSON makes `response.json()` throw. */
  function ReadJson(r: Reply): (res: Result<Value>)
    ensures r.Reply? && !(200 <= r.status <= 299) ==> res == Err(HttpError(r.status))
    ensures res.Ok? <==> r.Reply? && 200 <= r.status <= 299 && r.json.Some?
  {
    match r
    case FetchFailed(m) => Err(Error(m))
    case Reply(status, json) =>
      if !(200 <= status <= 299) then Err(HttpError(status))
      else if json.None? then Err(Error("Unexpected token in JSON"))
      else Ok(json.value)
  }

  function HttpError(status: int): Error {
    Error("HTTP error! status: " + IntToString(status))
  }
}
