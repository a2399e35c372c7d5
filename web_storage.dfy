/** The Web Storage the client modules keep their state in: `localStorage` and `sessionStorage`
    each hold string values under string keys. A value of another type is stored as its
    string form, which the callers write out. */
module WebStorage {
  import opened Common

  /** `getItem(key)`: the value under `key`, or `None` where the browser returns null. */
  function Item(items: map<string, string>, key: string): (r: Option<string>)
    ensures r.Some? <==> key in items
    ensures r.Some? ==> r.value == items[key]
  {
    if key in items then Some(items[key]) else None
  }

  /** Every key outside `keys` reads the same in `a` as in `b`. */
  ghost predicate AgreeOutside(a: map<string, string>, b: map<string, string>, keys: set<string>) {
    forall k :: k !in keys ==> Item(a, k) == Item(b, k)
  }

  /** One storage area of the browser. */
  class Storage {
    var items: map<string, string>

    constructor ()
      ensures items == map[]
    {
      items := map[];
    }

    /** `setItem(key, value)`. */
    method SetItem(key: string, value: string)
      modifies this
      ensures items == old(items)[key := value]
    {
      items := items[key := value];
    }

    /** `removeItem(key)`: a missing key is no error. */
    method RemoveItem(key: string)
      modifies this
      ensures items == old(items) - {key}
    {
      items := items - {key};
    }
  }
}
