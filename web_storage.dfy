/** The browser's two key/value stores, `localStorage` and `sessionStorage`, which the token
    and preference code reads and writes. */
module WebStorage {
  import opened Remote

  /** `getItem(key)`: the stored text, or nothing. */
  function Get(store: map<string, string>, key: string): (r: Option<string>)
    ensures r.Some? <==> key in store
    ensures r.Some? ==> r.value == store[key]
  {
    if key in store then Some(store[key]) else None
  }

  /** A present and non-empty text: what `if (token)` accepts. */
  predicate Truthy(v: Option<string>)
  {
    v.Some? && v.value != ""
  }

  class Stores {
    var local: map<string, string>
    var session: map<string, string>

    constructor (local: map<string, string>, session: map<string, string>)
      ensures this.local == local && this.session == session
    {
      this.local, this.session := local, session;
    }
  }
}
