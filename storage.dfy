/**
 * The browser's `localStorage`: a string-to-string store that the quiz
 * pages, the landing page and the result page share.
 */
module Storage {
  import opened Js

  class LocalStorage {
    var items: map<string, string>

    constructor (initial: map<string, string>)
      ensures items == initial
    {
      items := initial;
    }

    /** `getItem`: the stored value, or `null` for an absent key. */
    function GetItem(key: string): (v: Option<string>)
      reads this
      ensures v.Some? <==> key in items
      ensures v.Some? ==> v.value == items[key]
    {
      Get(items, key)
    }

    /** `setItem`: stores `value` under `key`; every other key keeps its value. */
    method SetItem(key: string, value: string)
      modifies this
      ensures items == old(items)[key := value]
    {
      items := items[key := value];
    }

    /** `clear`: removes every key. */
    method Clear()
      modifies this
      ensures items == map[]
    {
      items := map[];
    }
  }
}
