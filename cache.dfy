/** The in-memory `NodeCache` the handlers and the stats reader share: a
    key/value map. Each entry remembers the TTL it was stored with; expiry
    itself is not part of this model, so an entry stays until overwritten. */
module Cache {
  import opened Common

  /** A cached value and the TTL (seconds) given to `set`; `None` when the
      call gave none and the cache's default applies. */
  datatype Entry<V> = Entry(value: V, ttl: Option<nat>)

  class NodeCache<V> {
    var entries: map<string, Entry<V>>

    constructor ()
      ensures entries == map[]
    {
      entries := map[];
    }

    /** `cache.has(key)` */
    predicate Has(key: string)
      reads this
    {
      key in entries
    }

    /** `cache.get(key)` */
    function Get(key: string): Option<V>
      reads this
    {
      if key in entries then Some(entries[key].value) else None
    }

    /** `cache.set(key, value[, ttl])` */
    method Set(key: string, value: V, ttl: Option<nat>)
      modifies this
      ensures entries == old(entries)[key := Entry(value, ttl)]
    {
      entries := entries[key := Entry(value, ttl)];
    }
  }
}
