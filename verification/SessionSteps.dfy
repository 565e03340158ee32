/**
 The service against the protocol: what an RPC does on its own is what its protocol steps do
 when they are taken one after the other, with nothing in between.
 */
module SessionSteps {
  import opened Prelude
  import opened Sessions
  import opened SessionCache
  import opened SessionProtocol
  import opened SessionProgress
  import S = SessionService

  /** When a request makes its next call. */
  function When(pc: Pc, env: S.Env): Time {
    if pc.RefreshLookup? || pc.RefreshLoad? || pc.LogoutLookup? then env.lookedUpAt
    else if pc.RefreshCheck? then env.checkedAt
    else if pc.CacheMeasure? then env.measuredAt
    else if pc.CacheSet? then env.setAt
    else env.issuedAt
  }

  /** Whether its next call succeeds. */
  function Succeeds(pc: Pc, env: S.Env): bool {
    match pc
    case LoginGenerate(_, _) => env.generated
    case RefreshGenerate(_, _, _, _) => env.generated
    case RefreshLookup(_, _, _) => env.cacheRead
    case LogoutLookup(_) => env.cacheRead
    case RefreshLoad(_, _, _) => env.storeRead
    case CacheSet(_, _, _, _) => env.cacheWritten
    case RefreshEvict(spent, _, _) => spent !in env.stuck
    case Evict(hashes, _) => hashes != [] && hashes[0] !in env.stuck
    case _ => env.storeWritten
  }

  function Next(s: State, pc: Pc, env: S.Env, order: seq<Hash>): (State, Pc) {
    Call(s.(now := When(pc, env)), pc, Choice(Succeeds(pc, env), env.hash, env.uuid, order))
  }

  /** A request run to its end. */
  function Complete(s: State, pc: Pc, env: S.Env, order: seq<Hash>): (State, Reply)
    decreases Stage(pc), ToEvict(pc)
  {
    if pc.Done? then (s, pc.reply)
    else
      CallAdvances(s.(now := When(pc, env)), pc, Choice(Succeeds(pc, env), env.hash, env.uuid, order));
      var (s', pc') := Next(s, pc, env, order);
      Complete(s', pc', env, order)
  }

  function Shared(s: State): S.World {
    S.World(s.store, s.cache)
  }

  function CodeOf(r: Reply): Code {
    if r.Failed? then r.code else OK
  }

  /** One call, and what is left to run after it. */
  lemma Steps(s: State, pc: Pc, env: S.Env, order: seq<Hash>) returns (s': State, pc': Pc)
    requires !pc.Done?
    ensures (s', pc') == Next(s, pc, env, order) && Complete(s, pc, env, order) == Complete(s', pc', env, order)
    ensures pc'.Done? ==> Complete(s, pc, env, order) == (s', pc'.reply)
  {
    s', pc' := Next(s, pc, env, order).0, Next(s, pc, env, order).1;
  }

  /** cacheSession. */
  lemma Caches(s: State, hash: Hash, sess: Session, reply: Reply, env: S.Env, order: seq<Hash>)
    ensures var (s', r) := Complete(s, CacheMeasure(hash, sess, reply), env, order);
            r == reply && Shared(s') == S.World(s.store, S.WriteThrough(s.cache, hash, sess, env))
  {
    var s1, pc1 := Steps(s, CacheMeasure(hash, sess, reply), env, order);
    if pc1.CacheSet? {
      var s2, pc2 := Steps(s1, pc1, env, order);
    }
  }

  lemma PurgeFirst(cache: CacheMap, hashes: seq<Hash>, env: S.Env)
    requires hashes != []
    ensures S.Purged(S.Purged(cache, {hashes[0]}, env), (set h | h in hashes[1..]), env)
         == S.Purged(cache, (set h | h in hashes), env)
  {
    assert hashes == [hashes[0]] + hashes[1..];
  }

  /** The cache deletes at the end of a revocation. */
  lemma {:induction false} Evicts(s: State, hashes: seq<Hash>, reply: Reply, env: S.Env, order: seq<Hash>)
    ensures var (s', r) := Complete(s, Evict(hashes, reply), env, order);
            r == reply && Shared(s') == S.World(s.store, S.Purged(s.cache, (set h | h in hashes), env))
    decreases |hashes|
  {
    var s1, pc1 := Steps(s, Evict(hashes, reply), env, order);
    if hashes != [] {
      assert s1.cache == S.Purged(s.cache, {hashes[0]}, env);
      Evicts(s1, hashes[1..], reply, env, order);
      PurgeFirst(s.cache, hashes, env);
    }
  }

  lemma LoginAlone(s: State, user: string, device: string, env: S.Env, order: seq<Hash>)
    ensures var (s', r) := Complete(s, LoginGenerate(user, device), env, order);
            (Shared(s'), CodeOf(r)) == S.LoginSpec(Shared(s), user, device, s.refreshTTL, env)
  {
    var s1, pc1 := Steps(s, LoginGenerate(user, device), env, order);
    if pc1.LoginCreate? {
      var s2, pc2 := Steps(s1, pc1, env, order);
      if pc2.CacheMeasure? { Caches(s2, pc2.hash, pc2.sess, pc2.reply, env, order); }
    }
  }

  lemma EvictsOne(s: State, h: Hash, reply: Reply, env: S.Env, order: seq<Hash>)
    ensures var (s', r) := Complete(s, Evict([h], reply), env, order);
            r == reply && Shared(s') == S.World(s.store, S.Purged(s.cache, {h}, env))
  {
    Evicts(s, [h], reply, env, order);
    assert (set k | k in [h]) == {h};
  }

  /** RefreshToken after the rotation. */
  lemma MoveAlone(s: State, h: Hash, hash: Hash, sess: Session, env: S.Env, order: seq<Hash>)
    ensures var (s', r) := Complete(s, RefreshEvict(h, hash, sess), env, order);
            && r == Refreshed(h, hash)
            && Shared(s') == S.World(s.store, S.WriteThrough(S.Purged(s.cache, {h}, env), hash, sess, env))
  {
    var s1, pc1 := Steps(s, RefreshEvict(h, hash, sess), env, order);
    assert s1.cache == S.Purged(s.cache, {h}, env);
    Caches(s1, hash, sess, Refreshed(h, hash), env, order);
  }

  /** RefreshToken from the rotation on. */
  lemma RotateAlone(s: State, h: Hash, start: Time, user: string, device: string, expiry: Time,
                    env: S.Env, order: seq<Hash>)
    ensures var (s', r) := Complete(s, RefreshRotate(h, start, env.hash, user, device, expiry), env, order);
            var sess := Session(env.uuid, user, device, expiry);
            if !env.storeWritten then Shared(s') == Shared(s) && r == Failed(Internal)
            else if h !in s.store then Shared(s') == Shared(s) && r == Failed(Unauthenticated)
            else
              && r == Refreshed(h, env.hash)
              && Shared(s') == S.World(Rotated(s.store, h, env.hash, sess),
                                       S.WriteThrough(S.Purged(s.cache, {h}, env), env.hash, sess, env))
  {
    var s1, pc1 := Steps(s, RefreshRotate(h, start, env.hash, user, device, expiry), env, order);
    if env.storeWritten && h in s.store {
      var sess := Session(env.uuid, user, device, expiry);
      assert pc1 == RefreshEvict(h, env.hash, sess);
      MoveAlone(s1, h, env.hash, sess, env, order);
    }
  }

  lemma ExpireAlone(s: State, h: Hash, env: S.Env, order: seq<Hash>)
    ensures var (s', r) := Complete(s, ExpiredDelete(h), env, order);
            && r == Failed(Unauthenticated)
            && Shared(s') == S.World(if env.storeWritten then s.store - {h} else s.store, S.Purged(s.cache, {h}, env))
  {
    var s1, pc1 := Steps(s, ExpiredDelete(h), env, order);
    EvictsOne(s1, h, Failed(Unauthenticated), env, order);
  }

  lemma GenerateAlone(s: State, h: Hash, device: string, start: Time, found: Session, env: S.Env, order: seq<Hash>)
    requires env.checkedAt <= found.expiry
    ensures var (s', r) := Complete(s, RefreshGenerate(h, device, start, found), env, order);
            (Shared(s'), CodeOf(r)) == S.RedeemSpec(Shared(s), h, device, found, s.refreshTTL, env)
  {
    var s1, pc1 := Steps(s, RefreshGenerate(h, device, start, found), env, order);
    if env.generated {
      var dev, expiry := if device == "" then found.device else device, env.issuedAt + s.refreshTTL;
      assert pc1 == RefreshRotate(h, start, env.hash, found.user, dev, expiry) && Shared(s1) == Shared(s);
      RotateAlone(s1, h, start, found.user, dev, expiry, env, order);
    }
  }

  /** RefreshToken once the session behind the token is known. */
  lemma RedeemAlone(s: State, h: Hash, device: string, start: Time, found: Session, env: S.Env, order: seq<Hash>)
    ensures var (s', r) := Complete(s, RefreshCheck(h, device, start, found), env, order);
            (Shared(s'), CodeOf(r)) == S.RedeemSpec(Shared(s), h, device, found, s.refreshTTL, env)
  {
    var s1, pc1 := Steps(s, RefreshCheck(h, device, start, found), env, order);
    if env.checkedAt > found.expiry {
      ExpireAlone(s1, h, env, order);
    } else {
      GenerateAlone(s1, h, device, start, found, env, order);
    }
  }

  /** RefreshToken. */
  lemma RefreshAlone(s: State, h: Hash, device: string, start: Time, env: S.Env, order: seq<Hash>)
    ensures var (s', r) := Complete(s, RefreshLookup(h, device, start), env, order);
            (Shared(s'), CodeOf(r)) == S.RefreshSpec(Shared(s), h, device, s.refreshTTL, env)
  {
    var s1, pc1 := Steps(s, RefreshLookup(h, device, start), env, order);
    if pc1.RefreshCheck? {
      RedeemAlone(s1, h, device, start, pc1.found, env, order);
    } else {
      var s2, pc2 := Steps(s1, pc1, env, order);
      if pc2.RefreshCheck? { RedeemAlone(s2, h, device, start, pc2.found, env, order); }
    }
  }

  lemma LogoutAlone(s: State, h: Hash, env: S.Env, order: seq<Hash>)
    ensures var (s', r) := Complete(s, LogoutLookup(h), env, order);
            (Shared(s'), CodeOf(r)) == S.LogoutSpec(Shared(s), h, env)
  {
    var s1, pc1 := Steps(s, LogoutLookup(h), env, order);
    var s2, pc2 := Steps(s1, pc1, env, order);
    if pc2.Evict? { EvictsOne(s2, h, LoggedOut, env, order); }
  }

  /** LogoutAll, and the revocations of ChangePassword and ResetPassword. */
  lemma RevokeAllAlone(s: State, user: string, keep: Hash, why: Bulk, env: S.Env, order: seq<Hash>)
    requires Enumerates(order, Revoked(s.store, user, keep))
    ensures var (s', r) := Complete(s, BulkDelete(user, keep, why), env, order);
            && Shared(s') == S.RevokeAllSpec(Shared(s), user, keep, env)
            && CodeOf(r) == (if why == ByLogoutAll && !env.storeWritten then Internal else OK)
            && (why == ByLogoutAll && env.storeWritten ==> r == RevokedAll(Int32(|Revoked(s.store, user, keep)|)))
  {
    var s1, pc1 := Steps(s, BulkDelete(user, keep, why), env, order);
    EnumerationFacts(order, Revoked(s.store, user, keep));
    if pc1.Evict? { Evicts(s1, order, pc1.reply, env, order); }
  }

  lemma RevokeAlone(s: State, user: string, id: string, env: S.Env, order: seq<Hash>)
    requires UniqueIds(s.store) && Enumerates(order, Matching(s.store, id, user))
    ensures var (s', r) := Complete(s, RevokeDelete(user, id), env, order);
            (Shared(s'), CodeOf(r)) == S.RevokeSpec(Shared(s), user, id, env)
  {
    var s1, pc1 := Steps(s, RevokeDelete(user, id), env, order);
    EnumerationFacts(order, Matching(s.store, id, user));
    if pc1.Evict? {
      MatchingIsUnique(s.store, id, user, order[0]);
      EvictsOne(s1, order[0], RevokedOne, env, order);
    }
  }
}
