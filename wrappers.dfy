/** Optional values: JavaScript's null/undefined on one side, a value on the other. */
module Wrappers {

  datatype Option<+T> = None | Some(value: T) {

    /** The value, or a default when there is none. */
    function GetOr(default: T): T {
      match this
      case Some(v) => v
      case None => default
    }
  }

  /** A map read as JavaScript does it (a query value, a header, a
      localStorage item): undefined or null when the key is absent. */
  function Lookup<K, V>(m: map<K, V>, key: K): (r: Option<V>)
    ensures r.Some? <==> key in m
    ensures r.Some? ==> r.value == m[key]
  {
    if key in m then Some(m[key]) else None
  }

  /** JavaScript truthiness of a string that may be null or undefined: set
      and non-empty. */
  predicate TruthyText(v: Option<string>) {
    v.Some? && v.value != ""
  }
}
