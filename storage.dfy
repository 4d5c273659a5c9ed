/** The browser's `localStorage`: one string-to-string map shared by everything in the page. */
module BrowserStorage {
  import opened Wrappers
  import opened Strings

  /** `getItem(key)` on a snapshot of the store. */
  function Lookup(items: map<string, string>, key: string): (r: Option<string>)
    ensures r.Some? <==> key in items
    ensures r.Some? ==> r.value == items[key]
  {
    if key in items then Some(items[key]) else None
  }

  /** `!!localStorage.getItem(key)` on a snapshot of the store. */
  predicate HasValue(items: map<string, string>, key: string) {
    Truthy(Lookup(items, key))
  }

  class LocalStorage {
    var items: map<string, string>

    constructor (initial: map<string, string>)
      ensures items == initial
    {
      items := initial;
    }

    function GetItem(key: string): (r: Option<string>)
      reads this
      ensures r == Lookup(items, key)
    {
      Lookup(items, key)
    }

    method SetItem(key: string, value: string)
      modifies this
      ensures items == old(items)[key := value]
    {
      items := items[key := value];
    }

    method RemoveItem(key: string)
      modifies this
      ensures items == old(items) - {key}
    {
      items := items - {key};
    }
  }
}
