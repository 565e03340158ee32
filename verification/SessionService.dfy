/**
 The session RPCs of the service, each run on its own: the calls to the store and the cache
 in the order the service makes them, with its early returns. The environment of a request
 supplies the clock readings, the randomness and the calls that fail.
 */
module SessionService {
  import opened Prelude
  import opened Sessions
  import opened SessionCache
  import opened MemorySessionStore

  /** What one request meets. `lookedUpAt` … `setAt` are successive clock readings; the flags
      say which calls succeed, and `stuck` lists the hashes whose cache delete fails. */
  datatype Env = Env(
    lookedUpAt: Time, checkedAt: Time, issuedAt: Time, measuredAt: Time, setAt: Time,
    hash: Hash, uuid: string,
    generated: bool, cacheRead: bool, cacheWritten: bool,
    storeRead: bool, storeWritten: bool, stuck: set<Hash>)

  /** What a request leaves behind: the rows and the cache. */
  datatype World = World(rows: Table, cache: CacheMap)

  /** cacheSession: the time to live is measured first and counted from the write. */
  function WriteThrough(cache: CacheMap, hash: Hash, sess: Session, env: Env): CacheMap {
    var ttl := sess.expiry - env.measuredAt;
    if ttl <= 0 || !env.cacheWritten then cache
    else cache[hash := CacheEntry(sess, env.setAt + ttl)]
  }

  function Purged(cache: CacheMap, hashes: set<Hash>, env: Env): CacheMap {
    cache - (hashes - env.stuck)
  }

  function ReadCache(cache: CacheMap, h: Hash, env: Env): (CacheMap, Option<Session>) {
    if env.cacheRead then Lookup(cache, h, env.lookedUpAt) else (cache, None)
  }

  function LoginSpec(w: World, user: string, device: string, ttl: int, env: Env): (World, Code) {
    if !env.generated || !env.storeWritten then (w, Internal)
    else
      var sess := Session(env.uuid, user, device, env.issuedAt + ttl);
      (World(w.rows[env.hash := sess], WriteThrough(w.cache, env.hash, sess, env)), OK)
  }

  /** RefreshToken once the session behind the token is known, from the cache or a row. */
  function RedeemSpec(w: World, h: Hash, device: string, found: Session, ttl: int, env: Env): (World, Code) {
    if env.checkedAt > found.expiry then
      (World(if env.storeWritten then w.rows - {h} else w.rows, Purged(w.cache, {h}, env)),
       Unauthenticated)
    else if !env.generated || !env.storeWritten then (w, Internal)
    else if h !in w.rows then (w, Unauthenticated)
    else
      var sess := Session(env.uuid, found.user,
                          if device == "" then found.device else device, env.issuedAt + ttl);
      (World(Rotated(w.rows, h, env.hash, sess),
             WriteThrough(Purged(w.cache, {h}, env), env.hash, sess, env)), OK)
  }

  function RefreshSpec(w: World, h: Hash, device: string, ttl: int, env: Env): (World, Code) {
    var (cache, hit) := ReadCache(w.cache, h, env);
    var w' := w.(cache := cache);
    if hit.Some? then RedeemSpec(w', h, device, hit.value, ttl, env)
    else if !env.storeRead then (w', Internal)
    else if h !in w.rows then (w', Unauthenticated)
    else RedeemSpec(w', h, device, w.rows[h], ttl, env)
  }

  function LogoutSpec(w: World, h: Hash, env: Env): (World, Code) {
    var cache := ReadCache(w.cache, h, env).0;
    if !env.storeWritten then (w.(cache := cache), Internal)
    else (World(w.rows - {h}, Purged(cache, {h}, env)), OK)
  }

  /** The bulk revocations; a store failure is reported by LogoutAll only. */
  function RevokeAllSpec(w: World, user: string, keep: Hash, env: Env): World {
    if !env.storeWritten then w
    else
      var gone := Revoked(w.rows, user, keep);
      World(w.rows - gone, Purged(w.cache, gone, env))
  }

  function RevokeSpec(w: World, user: string, id: string, env: Env): (World, Code) {
    var gone := Matching(w.rows, id, user);
    if !env.storeWritten then (w, Internal)
    else if gone == {} then (w, NotFound)
    else (World(w.rows - gone, Purged(w.cache, gone, env)), OK)
  }

  class AuthService {
    const sessions: SessionStore
    const cache: Cache
    const refreshTTL: int

    constructor (refreshTTL: int)
      ensures Valid() && State() == World(map[], map[]) && this.refreshTTL == refreshTTL
      ensures fresh(sessions.Repr) && fresh(cache)
    {
      sessions := new SessionStore();
      cache := new Cache();
      this.refreshTTL := refreshTTL;
    }

    ghost predicate Valid()
      reads this, sessions, sessions.Repr
    {
      sessions.Valid() && cache !in sessions.Repr
    }

    ghost function State(): World
      requires Valid()
      reads this, cache, sessions, sessions.Repr
    {
      World(sessions.rows, cache.items)
    }

    /** The randomness a request draws is new. */
    ghost predicate Draws(env: Env)
      reads sessions
    {
      env.hash != "" && env.hash !in sessions.byHash && env.uuid != "" && env.uuid !in sessions.byID
    }

    method CacheSession(hash: Hash, sess: Session, env: Env)
      modifies cache
      ensures cache.items == WriteThrough(old(cache.items), hash, sess, env)
    {
      var ttl := sess.expiry - env.measuredAt;
      if ttl <= 0 { return; }
      if env.cacheWritten { cache.Set(hash, sess, ttl, env.setAt); }
    }

    method DeleteSessionFromCache(hash: Hash, env: Env)
      modifies cache
      ensures cache.items == Purged(old(cache.items), {hash}, env)
    {
      if hash !in env.stuck { cache.Delete(hash); }
    }

    method DeleteSessionsFromCache(hashes: seq<Hash>, env: Env)
      modifies cache
      ensures cache.items == Purged(old(cache.items), (set h | h in hashes), env)
    {
      for i := 0 to |hashes|
        invariant cache.items == Purged(old(cache.items), (set h | h in hashes[..i]), env)
      {
        DeleteSessionFromCache(hashes[i], env);
        assert hashes[..i + 1] == hashes[..i] + [hashes[i]];
      }
      assert hashes[..|hashes|] == hashes;
    }

    method GetCachedSession(hash: Hash, env: Env) returns (r: Option<Session>)
      modifies cache
      ensures (cache.items, r) == ReadCache(old(cache.items), hash, env)
    {
      if env.cacheRead { r := cache.Get(hash, env.lookedUpAt); } else { r := None; }
    }

    method Login(user: string, device: string, env: Env) returns (code: Code)
      requires Valid() && Draws(env)
      modifies sessions, cache
      ensures Valid() && fresh(sessions.Repr - old(sessions.Repr))
      ensures (State(), code) == LoginSpec(old(State()), user, device, refreshTTL, env)
    {
      if !env.generated { return Internal; }
      var sess := new SessionRecord("", user, env.hash, device, env.issuedAt + refreshTTL);
      if !env.storeWritten { return Internal; }
      sessions.Create(sess, env.uuid, env.issuedAt);
      var row := sess.Row();
      assert Valid() && sessions.rows == old(sessions.rows)[env.hash := row];
      CacheSession(env.hash, row, env);
      code := OK;
    }

    method RefreshToken(h: Hash, device: string, env: Env) returns (code: Code)
      requires Valid() && Draws(env)
      modifies sessions, sessions.Repr, cache
      ensures Valid() && fresh(sessions.Repr - old(sessions.Repr))
      ensures (State(), code) == RefreshSpec(old(State()), h, device, refreshTTL, env)
    {
      var found, err := Find(h, env);
      if found == None { return err; }
      code := Redeem(h, device, found.value, env);
    }

    /** The first half of RefreshToken: the session from the cache, else from the store. */
    method Find(h: Hash, env: Env) returns (found: Option<Session>, err: Code)
      requires Valid()
      modifies sessions.byHash.Values`lastUsedAt, cache
      ensures Valid() && sessions.rows == old(sessions.rows) && sessions.Repr == old(sessions.Repr)
      ensures cache.items == ReadCache(old(cache.items), h, env).0
      ensures var hit := ReadCache(old(cache.items), h, env).1;
              if hit.Some? then found == hit
              else if !env.storeRead then found == None && err == Internal
              else if h !in sessions.rows then found == None && err == Unauthenticated
              else found == Some(sessions.rows[h])
    {
      err := OK;
      found := GetCachedSession(h, env);
      if found == None {
        if !env.storeRead { return None, Internal; }
        var row := sessions.GetByTokenHash(h, env.lookedUpAt);
        if row == None { return None, Unauthenticated; }
        found := Some(row.value.Row());
      }
    }

    /** The second half of RefreshToken, from the expiry check on. */
    method Redeem(h: Hash, device: string, found: Session, env: Env) returns (code: Code)
      requires Valid() && Draws(env)
      modifies sessions, cache
      ensures Valid() && fresh(sessions.Repr - old(sessions.Repr))
      ensures (State(), code) == RedeemSpec(old(State()), h, device, found, refreshTTL, env)
    {
      if env.checkedAt > found.expiry {
        DropExpired(h, env);
        return Unauthenticated;
      }
      if !env.generated { return Internal; }
      var deviceID := if device == "" then found.device else device;
      if !env.storeWritten { return Internal; }
      var row := Rotate(h, found.user, deviceID, env);
      if row == None { return Unauthenticated; }
      MoveInCache(h, env.hash, row.value, env);
      code := OK;
    }

    /** Replaces the session of `h` by a new one of the same user, if it is still stored. */
    method Rotate(h: Hash, user: string, device: string, env: Env) returns (row: Option<Session>)
      requires Valid() && Draws(env)
      modifies sessions
      ensures Valid() && fresh(sessions.Repr - old(sessions.Repr))
      ensures row == if h in old(sessions.rows)
                     then Some(Session(env.uuid, user, device, env.issuedAt + refreshTTL)) else None
      ensures sessions.rows == if row.Some? then Rotated(old(sessions.rows), h, env.hash, row.value)
                               else old(sessions.rows)
    {
      var sess := new SessionRecord("", user, env.hash, device, env.issuedAt + refreshTTL);
      var rotated := sessions.RotateToken(h, sess, env.uuid, env.issuedAt);
      row := if rotated then Some(sess.Row()) else None;
    }

    /** Deletes an expired session from the store and from the cache. */
    method DropExpired(h: Hash, env: Env)
      requires Valid()
      modifies sessions, cache
      ensures Valid() && sessions.Repr == old(sessions.Repr)
      ensures sessions.rows == if env.storeWritten then old(sessions.rows) - {h} else old(sessions.rows)
      ensures cache.items == Purged(old(cache.items), {h}, env)
    {
      if env.storeWritten { sessions.DeleteByTokenHash(h); }
      DeleteSessionFromCache(h, env);
    }

    /** Deletes the rotated token from the cache and caches its successor. */
    method MoveInCache(h: Hash, hash: Hash, sess: Session, env: Env)
      requires Valid()
      modifies cache
      ensures Valid() && sessions.rows == old(sessions.rows)
      ensures cache.items == WriteThrough(Purged(old(cache.items), {h}, env), hash, sess, env)
    {
      DeleteSessionFromCache(h, env);
      CacheSession(hash, sess, env);
    }

    method Logout(h: Hash, env: Env) returns (code: Code)
      requires Valid()
      modifies sessions, cache
      ensures Valid() && sessions.Repr == old(sessions.Repr)
      ensures (State(), code) == LogoutSpec(old(State()), h, env)
    {
      var _ := GetCachedSession(h, env);
      if !env.storeWritten { return Internal; }
      sessions.DeleteByTokenHash(h);
      DeleteSessionFromCache(h, env);
      code := OK;
    }

    /** Answers with the number of sessions revoked, as an int32. */
    method LogoutAll(user: string, env: Env) returns (code: Code, count: int)
      requires Valid()
      modifies sessions, cache
      ensures Valid() && sessions.Repr == old(sessions.Repr)
      ensures State() == RevokeAllSpec(old(State()), user, "", env)
      ensures code == if env.storeWritten then OK else Internal
      ensures code == OK ==> count == Int32(old(Held(sessions.rows, user)))
    {
      if !env.storeWritten { return Internal, 0; }
      var hashes := sessions.DeleteAllByUserID(user);
      EnumerationFacts(hashes, OfUser(old(sessions.rows), user));
      DeleteSessionsFromCache(hashes, env);
      return OK, Int32(|hashes|);
    }

    method RevokeSession(user: string, id: string, env: Env) returns (code: Code)
      requires Valid()
      modifies sessions, cache
      ensures Valid() && sessions.Repr == old(sessions.Repr)
      ensures (State(), code) == RevokeSpec(old(State()), user, id, env)
    {
      if !env.storeWritten { return Internal; }
      var hash := sessions.DeleteByID(id, user);
      if hash == None {
        assert sessions.rows == old(sessions.rows);
        return NotFound;
      }
      DeleteSessionFromCache(hash.value, env);
      code := OK;
    }

    /** The revocation at the end of ChangePassword, and of ResetPassword with nothing kept. */
    method RevokeOthers(user: string, keep: Hash, env: Env)
      requires Valid()
      modifies sessions, cache
      ensures Valid() && sessions.Repr == old(sessions.Repr)
      ensures State() == RevokeAllSpec(old(State()), user, keep, env)
    {
      var hashes := [];
      if env.storeWritten {
        hashes := sessions.DeleteAllByUserIDExcept(user, keep);
        EnumerationFacts(hashes, Revoked(old(sessions.rows), user, keep));
      }
      DeleteSessionsFromCache(hashes, env);
    }
  }
}
