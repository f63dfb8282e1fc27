/** The localStorage cache the simple panels read before asking the server: one entry per
    request query string, holding the reply as JSON text. localStorage is a map from key
    to text; `new URL` is reduced to what the cache key needs from it. */
module Cache {
  import opened Text
  import opened Values
  import opened Json

  // ---------------------------------------------------------------- the URL's query

  predicate SchemeChar(c: char) {
    ('a' <= c <= 'z') || ('A' <= c <= 'Z') || ('0' <= c <= '9') || c == '+' || c == '-' || c == '.'
  }

  /** The URL starts with a scheme: an ASCII letter, then scheme characters, then `:`. */
  predicate HasScheme(u: string) {
    var colon := IndexOfChar(u, ':');
    colon > 0 && (('a' <= u[0] <= 'z') || ('A' <= u[0] <= 'Z'))
    && forall i :: 0 <= i < colon ==> SchemeChar(u[i])
  }

  /** `new URL(u).search`, None when `new URL(u)` throws: the text from the first `?` up to
      the fragment, or `""` when there is no query or it is empty. */
  function UrlSearch(u: string): (r: Option<string>)
    ensures r.Some? <==> HasScheme(u)
    ensures r.Some? && r.value != "" ==> r.value[0] == '?' && |r.value| >= 2 && '#' !in r.value
  {
    if !HasScheme(u) then None
    else
      var hash := IndexOfChar(u, '#');
      var beforeFragment := if hash < 0 then u else u[..hash];
      var q := IndexOfChar(beforeFragment, '?');
      if q < 0 || q == |beforeFragment| - 1 then Some("")
      else Some(beforeFragment[q..])
  }

  const CachePrefix := "botui_cache_"

  /** `` `botui_cache_${url.search}` `` */
  function CacheKey(search: string): (key: string)
    ensures StartsWith(key, CachePrefix)
  {
    CachePrefix + search
  }

  /** Two queries share a cache entry exactly when they are the same query. */
  lemma CacheKeyInjective(a: string, b: string)
    ensures CacheKey(a) == CacheKey(b) <==> a == b
  {
    if CacheKey(a) == CacheKey(b) {
      assert a == CacheKey(a)[|CachePrefix|..];
      assert b == CacheKey(b)[|CachePrefix|..];
    }
  }

  // ---------------------------------------------------------------- on the storage map

  /** `getCacheData` on the given storage contents: null when the URL does not parse,
      when there is no entry or an empty one, and when the entry is not JSON. */
  function Read(items: map<string, string>, apiUrl: string): Value {
    match UrlSearch(apiUrl)
    case None => VNull
    case Some(search) =>
      var key := CacheKey(search);
      if key !in items || items[key] == "" then VNull
      else
        match Parse(items[key])
        case Ok(v) => v
        case Err(_) => VNull
  }

  /** What `localStorage.setItem(key, JSON.stringify(data))` stores: `stringify` of undefined
      is undefined, which `setItem` writes as the text `undefined`. */
  function StoredText(data: Value): (t: string)
    ensures t != ""
  {
    match Stringify(data)
    case Some(t) => t
    case None => "undefined"
  }

  /** `setCacheData` on the given storage contents; nothing is written when the URL does
      not parse. */
  function Written(items: map<string, string>, apiUrl: string, data: Value): map<string, string> {
    match UrlSearch(apiUrl)
    case None => items
    case Some(search) => items[CacheKey(search) := StoredText(data)]
  }

  /** `clearCache(pattern)` on the given storage contents. */
  function Cleared(items: map<string, string>, pattern: string): map<string, string> {
    map k | k in items && !StartsWith(k, pattern) :: items[k]
  }

  // ---------------------------------------------------------------- the cache service

  /** The browser's localStorage. */
  class LocalStorage {
    var items: map<string, string>

    constructor()
      ensures items == map[]
    {
      items := map[];
    }
  }

  /** `CacheService.getCacheData(apiUrl)` */
  function GetCacheData(storage: LocalStorage, apiUrl: string): Value
    reads storage
  {
    Read(storage.items, apiUrl)
  }

  /** `CacheService.setCacheData(apiUrl, data)` */
  method SetCacheData(storage: LocalStorage, apiUrl: string, data: Value)
    modifies storage
    ensures storage.items == Written(old(storage.items), apiUrl, data)
  {
    var search := UrlSearch(apiUrl);
    if search.None? {
      return;
    }
    var cacheKey := CacheKey(search.value);
    storage.items := storage.items[cacheKey := StoredText(data)];
  }

  const DefaultPattern := "botui_cache_"

  /** `CacheService.clearCache(pattern)`: walks the keys present when it starts and
      removes those that start with the pattern. */
  method ClearCache(storage: LocalStorage, pattern: string)
    modifies storage
    ensures storage.items == Cleared(old(storage.items), pattern)
  {
    var keys := storage.items.Keys;
    while keys != {}
      invariant keys <= old(storage.items).Keys
      invariant storage.items
        == map k | k in old(storage.items) && (k in keys || !StartsWith(k, pattern)) :: old(storage.items)[k]
      decreases keys
    {
      var key :| key in keys;
      if StartsWith(key, pattern) {
        storage.items := storage.items - {key};
      }
      keys := keys - {key};
    }
  }

  // ---------------------------------------------------------------- properties

  /** URLs with the same query read and write the same entry, whatever else differs. */
  lemma SameQuerySameEntry(items: map<string, string>, u1: string, u2: string, data: Value)
    requires UrlSearch(u1).Some? && UrlSearch(u1) == UrlSearch(u2)
    ensures Read(items, u1) == Read(items, u2)
    ensures Written(items, u1, data) == Written(items, u2, data)
  {
  }

  /** Writing a value that JSON represents and reading it back through the same URL gives
      the value. */
  lemma WriteThenRead(items: map<string, string>, apiUrl: string, data: Value)
    requires UrlSearch(apiUrl).Some?
    requires Representable(data)
    ensures Read(Written(items, apiUrl, data), apiUrl) == data
  {
    ParseStringify(data);
  }

  /** Writing undefined stores the text `undefined`, which reads back as null. */
  lemma UndefinedReadsNull(items: map<string, string>, apiUrl: string)
    ensures Read(Written(items, apiUrl, VUndefined), apiUrl) == VNull
  {
    if UrlSearch(apiUrl).Some? {
      assert ParseValue("undefined") == None;
    }
  }

  /** A write touches only the entry of its own query. */
  lemma WriteKeepsOthers(items: map<string, string>, apiUrl: string, data: Value, key: string)
    requires UrlSearch(apiUrl).None? || key != CacheKey(UrlSearch(apiUrl).value)
    ensures key in Written(items, apiUrl, data) <==> key in items
    ensures key in items ==> Written(items, apiUrl, data)[key] == items[key]
  {
  }

  /** A read gives null when the URL does not parse, when there is no entry for its query,
      and when the entry does not parse as JSON. */
  lemma ReadNull(items: map<string, string>, apiUrl: string)
    requires UrlSearch(apiUrl).None?
      || CacheKey(UrlSearch(apiUrl).value) !in items
      || Parse(items[CacheKey(UrlSearch(apiUrl).value)]).Err?
    ensures Read(items, apiUrl) == VNull
  {
  }

  /** Clearing removes exactly the keys that start with the pattern and leaves every other
      entry as it was. */
  lemma ClearedExactly(items: map<string, string>, pattern: string)
    ensures forall k :: k in Cleared(items, pattern) <==> k in items && !StartsWith(k, pattern)
    ensures forall k :: k in Cleared(items, pattern) ==> Cleared(items, pattern)[k] == items[k]
  {
  }

  /** With the default pattern, clearing undoes every write the cache makes: what is left
      is what clearing would leave without the write, and the URL reads null again. */
  lemma DefaultClearForgetsWrites(items: map<string, string>, apiUrl: string, data: Value)
    ensures Cleared(Written(items, apiUrl, data), DefaultPattern) == Cleared(items, DefaultPattern)
    ensures Read(Cleared(Written(items, apiUrl, data), DefaultPattern), apiUrl) == VNull
  {
    if UrlSearch(apiUrl).Some? {
      var key := CacheKey(UrlSearch(apiUrl).value);
      assert StartsWith(key, DefaultPattern);
      assert key !in Cleared(Written(items, apiUrl, data), DefaultPattern);
    }
  }
}
