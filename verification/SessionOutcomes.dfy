/**
 What the session RPCs promise their callers, row by row: when they succeed, what is stored and
 cached afterwards, and what they leave alone.
 */
module SessionOutcomes {
  import opened Prelude
  import opened Sessions
  import opened SessionCache
  import opened SessionService
  import opened SessionCoherence

  /** A row that is kept with its contents. */
  predicate Keeps(w: World, w': World, k: Hash) {
    k in w.rows && k in w'.rows && w'.rows[k] == w.rows[k]
  }

  /** The table or the cache has the same at `k` before and after. */
  predicate RowUntouched(w: World, w': World, k: Hash) {
    (k in w'.rows <==> k in w.rows) && (k in w.rows ==> w'.rows[k] == w.rows[k])
  }

  predicate EntryUntouched(w: World, w': World, k: Hash) {
    (k in w'.cache <==> k in w.cache) && (k in w.cache ==> w'.cache[k] == w.cache[k])
  }

  /** The session is cached until its expiry, counted from the write; not at all if it has
      expired by then or the write fails. */
  predicate Cached(w: World, w': World, h: Hash, sess: Session, env: Env) {
    if env.cacheWritten && env.measuredAt < sess.expiry then
      h in w'.cache && w'.cache[h] == CacheEntry(sess, sess.expiry + (env.setAt - env.measuredAt))
    else EntryUntouched(w, w', h)
  }

  /** Login succeeds exactly if its token can be drawn and stored. The new session belongs to the
      user and the device of the request and expires one lifetime after it was made; nothing else
      changes. */
  lemma LoginOutcome(w: World, user: string, device: string, ttl: int, env: Env, k: Hash)
    ensures var (w', code) := LoginSpec(w, user, device, ttl, env);
            && (code == OK <==> env.generated && env.storeWritten)
            && (code != OK ==> code == Internal && w' == w)
            && (code == OK ==>
                  && env.hash in w'.rows
                  && w'.rows[env.hash].user == user && w'.rows[env.hash].device == device
                  && w'.rows[env.hash].id == env.uuid && w'.rows[env.hash].expiry == env.issuedAt + ttl
                  && Cached(w, w', env.hash, w'.rows[env.hash], env))
            && (k != env.hash ==> RowUntouched(w, w', k) && EntryUntouched(w, w', k))
  {
  }

  /** A cached session has not expired for the cache. */
  predicate Served(w: World, h: Hash, env: Env) {
    env.cacheRead && h in w.cache && env.lookedUpAt <= w.cache[h].evictAt
  }

  /** RefreshToken succeeds exactly if the token is stored, its session has not expired, the
      session can be read from somewhere, and the new token can be drawn and stored. */
  lemma RefreshSucceeds(w: World, issued: map<Hash, Session>, h: Hash, device: string, ttl: int, env: Env)
    requires Agrees(w, issued)
    ensures var (_, code) := RefreshSpec(w, h, device, ttl, env);
            && (code == OK <==>
                  && h in w.rows && env.checkedAt <= w.rows[h].expiry
                  && (Served(w, h, env) || env.storeRead) && env.generated && env.storeWritten)
            && (code == Unauthenticated || code == Internal || code == OK)
            && (code == Internal ==> !env.storeRead || !env.generated || !env.storeWritten)
            && (code == Unauthenticated && h in w.rows ==> env.checkedAt > w.rows[h].expiry)
  {
  }

  /** What a successful refresh stores: the session of the old row under the new token, on the
      device of the request or, if that names none, on the old one, with a full lifetime. The old
      token is gone from the table and, unless its delete fails, from the cache. */
  lemma RefreshStores(w: World, issued: map<Hash, Session>, h: Hash, device: string, ttl: int, env: Env)
    requires Agrees(w, issued) && env.hash != h && RefreshSpec(w, h, device, ttl, env).1 == OK
    ensures var w' := RefreshSpec(w, h, device, ttl, env).0;
            && h in w.rows && h !in w'.rows && (h !in env.stuck ==> h !in w'.cache)
            && env.hash in w'.rows
            && w'.rows[env.hash].user == w.rows[h].user
            && (device != "" ==> w'.rows[env.hash].device == device)
            && (device == "" ==> w'.rows[env.hash].device == w.rows[h].device)
            && w'.rows[env.hash].id == env.uuid && w'.rows[env.hash].expiry == env.issuedAt + ttl
            && Cached(w, w', env.hash, w'.rows[env.hash], env)
  {
  }

  /** A refresh leaves all other tokens alone, and its own too unless it succeeds or finds it
      expired. */
  lemma RefreshSpares(w: World, issued: map<Hash, Session>, h: Hash, device: string, ttl: int, env: Env, k: Hash)
    requires Agrees(w, issued)
    ensures var (w', code) := RefreshSpec(w, h, device, ttl, env);
            && (k != h && k != env.hash ==> RowUntouched(w, w', k) && EntryUntouched(w, w', k))
            && (k == h && h in w.rows && code != OK && env.checkedAt <= w.rows[h].expiry ==> Keeps(w, w', h))
            && (k == env.hash && code != OK && k != h ==> RowUntouched(w, w', k))
  {
  }

  /** An expired token is thrown out of table and cache by the refresh that finds it. */
  lemma RefreshDropsExpired(w: World, issued: map<Hash, Session>, h: Hash, device: string, ttl: int, env: Env)
    requires Agrees(w, issued) && h in w.rows && env.checkedAt > w.rows[h].expiry
    requires Served(w, h, env) || env.storeRead
    ensures var (w', code) := RefreshSpec(w, h, device, ttl, env);
            && code == Unauthenticated
            && (env.storeWritten ==> h !in w'.rows) && (h !in env.stuck ==> h !in w'.cache)
  {
  }

  /** Logout answers OK exactly if the store deletes. The token is then neither stored nor, unless
      its cache delete fails, cached; all other tokens stay. Logging out twice is no error. */
  lemma LogoutOutcome(w: World, h: Hash, env: Env, k: Hash)
    ensures var (w', code) := LogoutSpec(w, h, env);
            && (code == OK <==> env.storeWritten)
            && (code != OK ==> code == Internal && w'.rows == w.rows)
            && (code == OK ==> h !in w'.rows && (h !in env.stuck ==> h !in w'.cache))
            && (k != h ==> RowUntouched(w, w', k) && EntryUntouched(w, w', k))
  {
  }

  /** The bulk revocations: with the store answering, the user's sessions go, except the one to
      keep, and so do their cache entries; everybody else's stay. */
  lemma RevokeAllOutcome(w: World, user: string, keep: Hash, env: Env, k: Hash)
    ensures var w' := RevokeAllSpec(w, user, keep, env);
            && (!env.storeWritten ==> w' == w)
            && (env.storeWritten && k in w.rows && w.rows[k].user == user && (keep == "" || k != keep) ==>
                  k !in w'.rows && (k !in env.stuck ==> k !in w'.cache))
            && (k in w.rows && (w.rows[k].user != user || (keep != "" && k == keep)) ==>
                  Keeps(w, w', k) && EntryUntouched(w, w', k))
            && (k !in w.rows ==> RowUntouched(w, w', k) && EntryUntouched(w, w', k))
  {
  }

  /** RevokeSession: only the owner's own session with this id goes. With the store answering, the
      answer is OK if and only if there is one, and NotFound with nothing changed otherwise; in
      particular for a session of somebody else. */
  lemma RevokeOutcome(w: World, user: string, id: string, env: Env, k: Hash)
    ensures var (w', code) := RevokeSpec(w, user, id, env);
            && (!env.storeWritten ==> code == Internal && w' == w)
            && (env.storeWritten ==>
                  && (code == OK <==> exists h :: h in w.rows && w.rows[h].id == id && w.rows[h].user == user)
                  && (code != OK ==> code == NotFound && w' == w))
            && (code == OK && k in w.rows && w.rows[k].id == id && w.rows[k].user == user ==>
                  k !in w'.rows && (k !in env.stuck ==> k !in w'.cache))
            && (k in w.rows && (w.rows[k].id != id || w.rows[k].user != user) ==>
                  Keeps(w, w', k) && EntryUntouched(w, w', k))
            && (k !in w.rows ==> RowUntouched(w, w', k) && EntryUntouched(w, w', k))
  {
    if env.storeWritten && RevokeSpec(w, user, id, env).1 == OK {
      var h :| h in Matching(w.rows, id, user);
      assert h in w.rows && w.rows[h].id == id && w.rows[h].user == user;
    } else if h :| h in w.rows && w.rows[h].id == id && w.rows[h].user == user {
      assert h in Matching(w.rows, id, user);
    }
  }

  /** Nobody loses a session to another user: every session of everybody else survives. */
  lemma RevokeSparesOthers(w: World, user: string, id: string, env: Env, other: string)
    requires other != user
    ensures var w' := RevokeSpec(w, user, id, env).0;
            forall k :: k in w.rows && w.rows[k].user == other ==> Keeps(w, w', k)
  {
    forall k | k in w.rows && w.rows[k].user == other
      ensures Keeps(w, RevokeSpec(w, user, id, env).0, k)
    {
      RevokeOutcome(w, user, id, env, k);
    }
  }
}
