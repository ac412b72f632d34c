/** The in-process cache: entries expire lazily, on the read that finds them stale. */
module MemoryCaching {
  import opened Common

  /** `expireAt` is None for the zero time, which never expires. */
  datatype CacheEntry<V> = CacheEntry(value: V, expireAt: Option<int>)

  predicate Expired<V>(e: CacheEntry<V>, now: int) {
    e.expireAt.Some? && now > e.expireAt.value
  }

  class MemoryCache<V> {
    var entries: map<string, CacheEntry<V>>

    constructor ()
      ensures entries == map[]
    {
      entries := map[];
    }

    /** What a reader at `now` can see. */
    function Visible(now: int): map<string, V>
      reads this
    {
      map k | k in entries && !Expired(entries[k], now) :: entries[k].value
    }

    method Get(key: string, now: int) returns (value: Option<V>)
      modifies this
      ensures value == if key in old(Visible(now)) then Some(old(Visible(now))[key]) else None
      ensures entries == if key in old(entries) && Expired(old(entries)[key], now)
                         then old(entries) - {key} else old(entries)
      ensures forall t :: now <= t ==> Visible(t) == old(Visible(t))
    {
      if key !in entries { return None; }
      if Expired(entries[key], now) {
        entries := entries - {key};
        return None;
      }
      return Some(entries[key].value);
    }

    method Set(key: string, value: V, ttl: int, now: int)
      modifies this
      ensures entries == old(entries)[key := CacheEntry(value, if ttl > 0 then Some(now + ttl) else None)]
      ensures forall t :: now <= t && (ttl <= 0 || t <= now + ttl) ==> Visible(t) == old(Visible(t))[key := value]
      ensures forall t :: ttl > 0 && now + ttl < t ==> Visible(t) == old(Visible(t)) - {key}
    {
      entries := entries[key := CacheEntry(value, if ttl > 0 then Some(now + ttl) else None)];
    }

    method Delete(key: string)
      modifies this
      ensures entries == old(entries) - {key}
      ensures forall t :: Visible(t) == old(Visible(t)) - {key}
    {
      entries := entries - {key};
    }
  }
}
