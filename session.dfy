/** The browser-side session shared by the pages: the storage map behind
    `localStorage` and the key under which the auth token lives. */
module Session {
  import opened Wrappers

  /** The storage key that login writes, logout removes and both route guards read. */
  const TokenKey: string := "kevii-gym-token"

  /** `localStorage.getItem(key)`: the stored string, or null when the key is absent. */
  function GetItem(storage: map<string, string>, key: string): (r: Option<string>)
    ensures r.Some? <==> key in storage
    ensures r.Some? ==> r.value == storage[key]
  {
    if key in storage then Some(storage[key]) else None
  }

  /** `setItem` then `getItem` under the same key gives the stored string back, `removeItem` then
      `getItem` gives null, and neither touches what another key reads. */
  lemma GetItemRoundTrip(storage: map<string, string>, key: string, value: string, other: string)
    ensures GetItem(storage[key := value], key) == Some(value)
    ensures GetItem(storage - {key}, key) == None
    ensures other != key ==> GetItem(storage[key := value], other) == GetItem(storage, other)
    ensures other != key ==> GetItem(storage - {key}, other) == GetItem(storage, other)
  {
  }

  /** JavaScript truthiness of what `getItem` returns: null and "" are falsy, every other string is truthy. */
  predicate Truthy(v: Option<string>) {
    v.Some? && v.value != ""
  }

  /** The token state both guards see. */
  predicate HasToken(storage: map<string, string>) {
    Truthy(GetItem(storage, TokenKey))
  }

  /** The parts of the browser the pages change: the storage map and the current location. */
  class Browser {
    var storage: map<string, string>
    var location: string

    constructor (storage0: map<string, string>, location0: string)
      ensures storage == storage0 && location == location0
    {
      storage := storage0;
      location := location0;
    }
  }
}
