/** The browser's Web Storage object (`window.localStorage`): a string-keyed map whose
    operations may throw. Which calls throw is fixed by the store's `Limits`, so that a
    failing store can be injected. */
module WebStorage {
  import opened Wrappers

  /** The DOM exceptions a storage call can raise. */
  datatype Fault = SecurityError | QuotaExceededError

  /** Fault model of one store: `enabled` is false when storage is disabled or denied
      (every call throws), `accepts(key, value)` is false when that write would exceed
      the quota. */
  datatype Limits<!V> = Limits(enabled: bool, accepts: (string, V) -> bool)

  /** The fault `getItem` and `removeItem` raise, if any. */
  function AccessFault<V>(lim: Limits<V>): Option<Fault>
  {
    if lim.enabled then None else Some(SecurityError)
  }

  /** The fault `setItem(key, value)` raises, if any. */
  function WriteFault<V>(lim: Limits<V>, key: string, value: V): Option<Fault>
  {
    if !lim.enabled then Some(SecurityError)
    else if !lim.accepts(key, value) then Some(QuotaExceededError)
    else None
  }

  class Storage<V> {
    var items: map<string, V>
    const limits: Limits<V>

    constructor (initial: map<string, V>, limits: Limits<V>)
      ensures items == initial && this.limits == limits
    {
      items := initial;
      this.limits := limits;
    }

    /** `getItem(key)`: the stored value, or `None` (JavaScript `null`) for a missing key. */
    method GetItem(key: string) returns (r: Result<Option<V>, Fault>)
      ensures r.Err? <==> !limits.enabled
      ensures r.Err? ==> r.error == SecurityError
      ensures r.Ok? ==> (r.value.Some? <==> key in items)
      ensures r.Ok? && key in items ==> r.value.value == items[key]
    {
      var f := AccessFault(limits);
      if f.Some? {
        return Err(f.value);
      }
      if key in items {
        r := Ok(Some(items[key]));
      } else {
        r := Ok(None);
      }
    }

    /** `setItem(key, value)`: overwrites the whole value under `key`, or throws and
        leaves the store as it was. */
    method SetItem(key: string, value: V) returns (f: Option<Fault>)
      modifies this
      ensures f == WriteFault(limits, key, value)
      ensures items == if f.None? then old(items)[key := value] else old(items)
    {
      f := WriteFault(limits, key, value);
      if f.None? {
        items := items[key := value];
      }
    }

    /** `removeItem(key)`: deletes `key` (a missing key is not an error). */
    method RemoveItem(key: string) returns (f: Option<Fault>)
      modifies this
      ensures f == AccessFault(limits)
      ensures items == if f.None? then old(items) - {key} else old(items)
    {
      f := AccessFault(limits);
      if f.None? {
        items := items - {key};
      }
    }
  }
}
