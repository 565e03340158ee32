/**
 Cache coherence when requests run one at a time, and transparency of the cache in general:
 what a refresh answers and stores never depends on what the cache holds.
 */
module SessionCoherence {
  import opened Prelude
  import opened Sessions
  import opened SessionCache
  import opened SessionService

  datatype Request =
    | Login(user: string, device: string, env: Env)
    | Refresh(hash: Hash, device: string, env: Env)
    | Logout(hash: Hash, env: Env)
    | RevokeAll(user: string, keep: Hash, env: Env)
    | Revoke(user: string, id: string, env: Env)

  function Handle(w: World, ttl: int, r: Request): World {
    match r
    case Login(user, device, env) => LoginSpec(w, user, device, ttl, env).0
    case Refresh(hash, device, env) => RefreshSpec(w, hash, device, ttl, env).0
    case Logout(hash, env) => LogoutSpec(w, hash, env).0
    case RevokeAll(user, keep, env) => RevokeAllSpec(w, user, keep, env)
    case Revoke(user, id, env) => RevokeSpec(w, user, id, env).0
  }

  function After(w: World, ttl: int, rs: seq<Request>): World {
    if rs == [] then w else Handle(After(w, ttl, rs[..|rs| - 1]), ttl, rs[|rs| - 1])
  }

  const Empty := World(map[], map[])

  /** Every request draws a hash that is not stored and sees its cache deletes succeed. */
  ghost predicate DeletesSucceed(ttl: int, rs: seq<Request>) {
    forall i :: 0 <= i < |rs| ==>
      rs[i].env.stuck == {} && rs[i].env.hash !in After(Empty, ttl, rs[..i]).rows
  }

  /** No stale entries: every cached session is stored, with the same contents. */
  ghost predicate NoStale(w: World) {
    forall h :: h in w.cache ==> h in w.rows && w.cache[h].sess == w.rows[h]
  }

  lemma RedeemKeepsFresh(w: World, h: Hash, device: string, found: Session, ttl: int, env: Env)
    requires NoStale(w) && env.stuck == {} && env.hash !in w.rows
    ensures NoStale(RedeemSpec(w, h, device, found, ttl, env).0)
  {
  }

  lemma HandleKeepsFresh(w: World, ttl: int, r: Request)
    requires NoStale(w) && r.env.stuck == {} && r.env.hash !in w.rows
    ensures NoStale(Handle(w, ttl, r))
  {
    match r
    case Refresh(hash, device, env) =>
      var (cache, hit) := ReadCache(w.cache, hash, env);
      var w' := w.(cache := cache);
      if hit.Some? {
        RedeemKeepsFresh(w', hash, device, hit.value, ttl, env);
      } else if hash in w.rows {
        RedeemKeepsFresh(w', hash, device, w.rows[hash], ttl, env);
      }
    case Login(_, _, _) =>
    case Logout(_, _) =>
    case RevokeAll(_, _, _) =>
    case Revoke(_, _, _) =>
  }

  /** After every request of every run of one request at a time, every cache key is a stored
      session, whatever store operations failed on the way. */
  lemma {:induction false} NeverStaleWhenSequential(ttl: int, rs: seq<Request>)
    requires DeletesSucceed(ttl, rs)
    ensures NoStale(After(Empty, ttl, rs))
  {
    if rs != [] {
      var init := rs[..|rs| - 1];
      assert forall i :: 0 <= i < |init| ==> init[..i] == rs[..i];
      NeverStaleWhenSequential(ttl, init);
      HandleKeepsFresh(After(Empty, ttl, init), ttl, rs[|rs| - 1]);
    }
  }

  /** The readings of one request follow one another. */
  predicate Ordered(env: Env) {
    env.lookedUpAt <= env.checkedAt <= env.issuedAt <= env.measuredAt <= env.setAt
  }

  predicate CacheUp(env: Env) {
    env.stuck == {} && env.cacheRead && env.cacheWritten
  }

  /** Every stored session that has not expired is served by the cache, until it expires. */
  ghost predicate Mirrored(w: World, now: Time) {
    forall h :: h in w.rows && now < w.rows[h].expiry ==>
      h in w.cache && w.cache[h].sess == w.rows[h] && w.rows[h].expiry <= w.cache[h].evictAt
  }

  lemma RedeemKeepsMirror(w: World, h: Hash, device: string, found: Session, ttl: int, env: Env)
    requires Mirrored(w, env.lookedUpAt) && CacheUp(env) && Ordered(env) && env.hash !in w.rows
    requires h in w.rows ==> found == w.rows[h]
    ensures Mirrored(RedeemSpec(w, h, device, found, ttl, env).0, env.setAt)
  {
  }

  lemma HandleKeepsMirror(w: World, ttl: int, r: Request)
    requires NoStale(w) && Mirrored(w, r.env.lookedUpAt)
    requires CacheUp(r.env) && Ordered(r.env) && r.env.hash !in w.rows
    ensures Mirrored(Handle(w, ttl, r), r.env.setAt)
  {
    match r
    case Refresh(hash, device, env) =>
      var (cache, hit) := ReadCache(w.cache, hash, env);
      var w' := w.(cache := cache);
      assert Mirrored(w', env.lookedUpAt);
      if hit.Some? {
        RedeemKeepsMirror(w', hash, device, hit.value, ttl, env);
      } else if hash in w.rows {
        RedeemKeepsMirror(w', hash, device, w.rows[hash], ttl, env);
      }
    case Login(_, _, _) =>
    case Logout(_, _) =>
    case RevokeAll(_, _, _) =>
    case Revoke(_, _, _) =>
  }

  /** Requests follow one another in time and the cache answers every call. */
  ghost predicate CacheNeverFails(ttl: int, rs: seq<Request>) {
    && DeletesSucceed(ttl, rs)
    && (forall i :: 0 <= i < |rs| ==> CacheUp(rs[i].env) && Ordered(rs[i].env))
    && (forall i :: 0 < i < |rs| ==> rs[i - 1].env.setAt <= rs[i].env.lookedUpAt)
  }

  /** Without cache failures the cache mirrors the store exactly: what it holds is stored, and
      every stored session that has not expired is held, with the same contents. */
  lemma {:induction false} MirroredWhenSequential(ttl: int, rs: seq<Request>)
    requires CacheNeverFails(ttl, rs)
    ensures NoStale(After(Empty, ttl, rs))
    ensures rs != [] ==> Mirrored(After(Empty, ttl, rs), rs[|rs| - 1].env.setAt)
  {
    NeverStaleWhenSequential(ttl, rs);
    if rs != [] {
      var init, last := rs[..|rs| - 1], rs[|rs| - 1];
      assert forall i :: 0 <= i < |init| ==> init[..i] == rs[..i];
      MirroredWhenSequential(ttl, init);
      assert Mirrored(After(Empty, ttl, init), last.env.lookedUpAt);
      HandleKeepsMirror(After(Empty, ttl, init), ttl, last);
    }
  }

  /** The table or the cache holds `h` only with the session it was issued with. */
  ghost predicate Agrees(w: World, issued: map<Hash, Session>) {
    && (forall h :: h in w.rows ==> h in issued && w.rows[h] == issued[h])
    && (forall h :: h in w.cache ==> h in issued && w.cache[h].sess == issued[h])
  }

  /** The cache answers. */
  predicate Hit(w: World, h: Hash, env: Env) {
    env.cacheRead && h in w.cache && env.lookedUpAt <= w.cache[h].evictAt
  }

  /** The session behind the hit has expired. */
  predicate ExpiredHit(w: World, h: Hash, env: Env)
    requires Hit(w, h, env)
  {
    env.checkedAt > w.cache[h].sess.expiry
  }

  /** A refresh answers the same code with and without the cache. */
  predicate SameCode(w: World, h: Hash, env: Env) {
    Hit(w, h, env) ==>
      if env.storeRead then h in w.rows || ExpiredHit(w, h, env) || (env.generated && env.storeWritten)
      else !ExpiredHit(w, h, env) && !(env.generated && env.storeWritten)
  }

  /** A refresh leaves the same rows with and without the cache. */
  predicate SameRows(w: World, h: Hash, env: Env) {
    Hit(w, h, env) ==>
      env.storeRead || h !in w.rows || !env.storeWritten || (!ExpiredHit(w, h, env) && !env.generated)
  }

  /** Cache transparency. Whatever the cache holds, as long as it agrees with the issue history,
      and whatever calls fail: a refresh answers the same code as with an empty cache if and only
      if `SameCode`, and leaves the same rows if and only if `SameRows`. */
  lemma CacheIsTransparent(w: World, issued: map<Hash, Session>, h: Hash, device: string, ttl: int, env: Env)
    requires Agrees(w, issued) && env.hash != h
    ensures RefreshSpec(w, h, device, ttl, env).1 == RefreshSpec(World(w.rows, map[]), h, device, ttl, env).1
       <==> SameCode(w, h, env)
    ensures RefreshSpec(w, h, device, ttl, env).0.rows == RefreshSpec(World(w.rows, map[]), h, device, ttl, env).0.rows
       <==> SameRows(w, h, env)
  {
    assert h !in w.rows ==> w.rows - {h} == w.rows;
    assert h in w.rows ==> h !in w.rows - {h};
  }

  /** In particular, with the store answering and token generation succeeding, the cache makes no
      difference at all, stale and expired entries included. */
  lemma CacheMakesNoDifference(w: World, issued: map<Hash, Session>, h: Hash, device: string, ttl: int, env: Env)
    requires Agrees(w, issued) && env.storeRead && env.storeWritten && env.generated
    ensures RefreshSpec(w, h, device, ttl, env).1 == RefreshSpec(World(w.rows, map[]), h, device, ttl, env).1
    ensures RefreshSpec(w, h, device, ttl, env).0.rows == RefreshSpec(World(w.rows, map[]), h, device, ttl, env).0.rows
  {
    assert h !in w.rows ==> w.rows - {h} == w.rows;
  }

  /** A live, unexpired cache entry whose row is gone. */
  predicate StaleHit(w: World, h: Hash, env: Env) {
    h !in w.rows && Hit(w, h, env) && !ExpiredHit(w, h, env)
  }

  /** A stale hit shows when token generation or the rotation fails. */
  lemma FailureShowsStaleHit(w: World, h: Hash, device: string, ttl: int, env: Env)
    requires StaleHit(w, h, env) && (!env.generated || !env.storeWritten) && env.storeRead
    ensures RefreshSpec(w, h, device, ttl, env).1 == Internal
    ensures RefreshSpec(World(w.rows, map[]), h, device, ttl, env).1 == Unauthenticated
  {
  }

  /** LogoutAll answers the exact drop in stored sessions, below 2^31 of them. */
  lemma RevokeAllCount(w: World, user: string, env: Env)
    requires env.storeWritten && Held(w.rows, user) < 0x8000_0000
    ensures Int32(Held(w.rows, user)) == |w.rows| - |RevokeAllSpec(w, user, "", env).rows|
  {
    Shrinks(w.rows, OfUser(w.rows, user));
    Int32Exact(Held(w.rows, user));
  }
}
