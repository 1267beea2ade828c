/**
 * The two browser objects the frontend mutates: `window.localStorage`, a
 * string-to-string map that outlives the page, and `window.location`, whose
 * `href` assignment navigates.
 */
module Browser {

  import opened Basics

  /** A JavaScript string value (or `null`) in a boolean position: `null` and `""` are false. */
  predicate Truthy(s: Option<string>)
  {
    s.Some? && s.value != []
  }

  /** `window.localStorage`. */
  class LocalStorage {
    var entries: map<string, string>

    constructor (entries: map<string, string>)
      ensures this.entries == entries
    {
      this.entries := entries;
    }

    /** `getItem`: `null` for a missing key. */
    function GetItem(key: string): (r: Option<string>)
      reads this
      ensures r.Some? <==> key in entries
      ensures r.Some? ==> r.value == entries[key]
    {
      if key in entries then Some(entries[key]) else None
    }

    /** `setItem`. */
    method SetItem(key: string, value: string)
      modifies this
      ensures entries == old(entries)[key := value]
    {
      entries := entries[key := value];
    }

    /** `removeItem`; removing a missing key does nothing. */
    method RemoveItem(key: string)
      modifies this
      ensures entries == old(entries) - {key}
    {
      entries := entries - {key};
    }
  }

  /** `window.location`. */
  class Location {
    var href: string

    constructor (href: string)
      ensures this.href == href
    {
      this.href := href;
    }
  }
}
