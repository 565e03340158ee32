/** The write-through cache of sessions: entries with a deadline of their own. */
module SessionCache {
  import opened Prelude
  import opened Sessions

  datatype CacheEntry = CacheEntry(sess: Session, evictAt: Time)
  type CacheMap = map<Hash, CacheEntry>

  /** A cache read: a live entry is returned, an expired one is evicted. */
  function Lookup(cache: CacheMap, h: Hash, now: Time): (CacheMap, Option<Session>) {
    if h in cache && now <= cache[h].evictAt then (cache, Some(cache[h].sess))
    else (cache - {h}, None)
  }

  /** The in-memory cache. Sessions are values here: Go copies them in and out. */
  class Cache {
    var items: CacheMap

    constructor ()
      ensures items == map[]
    {
      items := map[];
    }

    method Set(hash: Hash, sess: Session, ttl: int, now: Time)
      modifies this
      ensures items == old(items)[hash := CacheEntry(sess, now + ttl)]
    {
      items := items[hash := CacheEntry(sess, now + ttl)];
    }

    method Get(hash: Hash, now: Time) returns (r: Option<Session>)
      modifies this
      ensures (items, r) == Lookup(old(items), hash, now)
    {
      if hash !in items || now > items[hash].evictAt {
        items := items - {hash};
        return None;
      }
      r := Some(items[hash].sess);
    }

    method Delete(hash: Hash)
      modifies this
      ensures items == old(items) - {hash}
    {
      items := items - {hash};
    }
  }
}
