/** The browser's `localStorage` as a mutable string-to-string store, and the
    JSON conversion between stored strings and values as a pair of functions
    supplied from outside. */
module BrowserStorage {
  import opened Wrappers

  /** A serialiser and a partial parser (`JSON.stringify` / `JSON.parse` at
      one value type); `decode` returns None where `JSON.parse` would throw or
      produce a value of the wrong shape. */
  datatype Codec<!T> = Codec(encode: T -> string, decode: string -> Option<T>)

  /** What `JSON.stringify`/`JSON.parse` provide: parsing a serialised value
      gives the value back, and a serialised value is never the empty string
      (the shortest JSON text is one character long). */
  ghost predicate Faithful<T(!new)>(c: Codec<T>) {
    forall x :: c.decode(c.encode(x)) == Some(x) && c.encode(x) != ""
  }

  /** The key-value store shared by every page of the application. */
  class LocalStorage {
    var items: map<string, string>

    constructor (initial: map<string, string>)
      ensures items == initial
    {
      items := initial;
    }

    /** `getItem`: the stored string, or `null` for a missing key. */
    method GetItem(key: string) returns (value: Option<string>)
      ensures value.Some? <==> key in items
      ensures value.Some? ==> value.value == items[key]
    {
      value := if key in items then Some(items[key]) else None;
    }

    /** `setItem`: overwrites one key and no other. */
    method SetItem(key: string, value: string)
      modifies this
      ensures items == old(items)[key := value]
    {
      items := items[key := value];
    }

    /** `removeItem`: deletes one key and no other. */
    method RemoveItem(key: string)
      modifies this
      ensures items == old(items) - {key}
    {
      items := items - {key};
    }
  }
}

/** `getStoredData` / `setStoredData`: typed access to a list stored under a
    key, where anything unreadable reads as the empty list. */
module StorageService {
  import opened Wrappers
  import opened BrowserStorage

  /** What `getStoredData` returns for the store `items`: the parsed list when
      the key holds a non-empty string that parses, `[]` in every other case
      (missing key, empty string, parse failure). */
  function StoredData<T>(items: map<string, string>, key: string, codec: Codec<seq<T>>): seq<T>
  {
    if key in items && items[key] != "" then codec.decode(items[key]).GetOr([]) else []
  }

  method GetStoredData<T>(store: LocalStorage, key: string, codec: Codec<seq<T>>) returns (data: seq<T>)
    ensures data == StoredData(store.items, key, codec)
  {
    var raw := store.GetItem(key);
    if raw.Some? && raw.value != "" {
      var parsed := codec.decode(raw.value);
      data := if parsed.Some? then parsed.value else [];
    } else {
      data := [];
    }
  }

  method SetStoredData<T>(store: LocalStorage, key: string, data: seq<T>, codec: Codec<seq<T>>)
    modifies store
    ensures store.items == old(store.items)[key := codec.encode(data)]
  {
    store.SetItem(key, codec.encode(data));
  }

  /** Reading never fails: a missing key, an empty stored string and a string
      that does not parse all read as the empty list. */
  lemma UnreadableIsEmpty<T>(items: map<string, string>, key: string, codec: Codec<seq<T>>)
    ensures key !in items ==> StoredData(items, key, codec) == []
    ensures key in items && items[key] == "" ==> StoredData(items, key, codec) == []
    ensures key in items && codec.decode(items[key]).None? ==> StoredData(items, key, codec) == []
  {
  }

  /** Whatever the read returns came from parsing the stored string, or is the
      empty fallback. */
  lemma StoredDataSource<T>(items: map<string, string>, key: string, codec: Codec<seq<T>>)
    ensures StoredData(items, key, codec) == []
         || (key in items && codec.decode(items[key]) == Some(StoredData(items, key, codec)))
  {
  }

  /** A present, non-empty string that parses reads as what it parses to,
      whether or not it is the codec's own rendering of that value. */
  lemma ParsedStringIsRead<T>(items: map<string, string>, key: string, codec: Codec<seq<T>>)
    ensures key in items && items[key] != "" && codec.decode(items[key]).Some? ==>
      StoredData(items, key, codec) == codec.decode(items[key]).value
  {
  }

  /** Writing then reading the same key gives back what was written, and a
      write leaves every other key's reading as it was. */
  lemma ReadAfterWrite<T(!new)>(items: map<string, string>, key: string, other: string, data: seq<T>, codec: Codec<seq<T>>)
    requires Faithful(codec)
    ensures StoredData(items[key := codec.encode(data)], key, codec) == data
    ensures other != key ==> StoredData(items[key := codec.encode(data)], other, codec) == StoredData(items, other, codec)
  {
    assert codec.decode(codec.encode(data)) == Some(data) && codec.encode(data) != "";
  }
}
