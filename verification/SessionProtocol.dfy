/**
 The refresh-session protocol as a transition system. Every store or cache call of an RPC
 is one atomic step; any number of requests are in flight, each with its own program
 counter; calls may fail, the clock may advance between any two steps, and the cache may
 lose entries on its own.
 */
module SessionProtocol {
  import opened Prelude
  import opened SessionCache
  import opened Sessions

  type Pid = nat

  /** What a finished request answered. `Refreshed` remembers the token it consumed. */
  datatype Reply =
    | LoggedIn(hash: Hash)
    | Refreshed(spent: Hash, hash: Hash)
    | LoggedOut
    | RevokedAll(count: int)
    | RevokedOne
    | PasswordSet
    | Failed(code: Code)

  /** The RPCs that revoke in bulk; only LogoutAll reports a store failure to its caller. */
  datatype Bulk = ByLogoutAll | ByChangePassword | ByResetPassword

  /** Program counters: each names the call a request makes next, with its local variables. */
  datatype Pc =
    | LoginGenerate(user: string, device: string)
    | LoginCreate(hash: Hash, user: string, device: string, expiry: Time)
    | RefreshLookup(spent: Hash, device: string, start: Time)
    | RefreshLoad(spent: Hash, device: string, start: Time)
    | RefreshCheck(spent: Hash, device: string, start: Time, found: Session)
    | RefreshGenerate(spent: Hash, device: string, start: Time, found: Session)
    | RefreshRotate(spent: Hash, start: Time, hash: Hash, user: string, device: string, expiry: Time)
    | RefreshEvict(spent: Hash, hash: Hash, sess: Session)
    | ExpiredDelete(spent: Hash)
    | CacheMeasure(hash: Hash, sess: Session, reply: Reply)
    | CacheSet(hash: Hash, sess: Session, ttl: int, reply: Reply)
    | LogoutLookup(spent: Hash)
    | LogoutDelete(spent: Hash)
    | BulkDelete(user: string, keep: Hash, why: Bulk)
    | RevokeDelete(user: string, id: string)
    | Evict(hashes: seq<Hash>, reply: Reply)
    | Done(reply: Reply)

  /** How a token came to be issued: by a login when it has no parent, else by rotating its
      parent. `born` numbers the issues in order. */
  datatype Issue = Issue(sess: Session, parent: Option<Hash>, born: nat)
  type History = map<Hash, Issue>

  /** The shared store and cache, the requests in flight, and three histories: the tokens
      ever issued, the random hashes ever drawn and the session ids ever used. */
  datatype State = State(
    now: Time,
    refreshTTL: int,
    store: Table,
    cache: CacheMap,
    procs: map<Pid, Pc>,
    issued: History,
    drawn: set<Hash>,
    ids: set<string>)

  /** What the environment decides in one step: whether the call succeeds, the randomness it
      draws, and the order in which deleted rows are returned. */
  datatype Choice = Choice(ok: bool, hash: Hash, id: string, order: seq<Hash>)

  datatype Event =
    | Tick(now: Time)
    | Drop(hash: Hash)
    | Begin(p: Pid, pc: Pc)
    | Act(p: Pid, c: Choice)

  predicate Init(s: State) {
    s.store == map[] && s.cache == map[] && s.procs == map[] && s.issued == map[]
    && s.drawn == {} && s.ids == {}
  }

  /** The program counters at which requests enter; a refresh notes when it started. */
  predicate IsEntry(s: State, pc: Pc) {
    match pc
    case LoginGenerate(_, _) => true
    case RefreshLookup(_, _, start) => start == s.now
    case LogoutLookup(_) => true
    case BulkDelete(_, keep, why) => why != ByChangePassword ==> keep == ""
    case RevokeDelete(_, _) => true
    case _ => false
  }

  /** The next call draws a random token. */
  predicate DrawsHash(pc: Pc) {
    pc.LoginGenerate? || pc.RefreshGenerate?
  }

  /** The next call stores a session under a new id. */
  predicate TakesId(pc: Pc) {
    pc.LoginCreate? || pc.RefreshRotate?
  }

  /** Random hashes are non-empty and never repeat, neither do session ids. */
  ghost predicate Enabled(s: State, e: Event) {
    match e
    case Tick(now) => s.now <= now
    case Drop(_) => true
    case Begin(p, pc) => p !in s.procs && IsEntry(s, pc)
    case Act(p, c) =>
      && p in s.procs && !s.procs[p].Done?
      && (DrawsHash(s.procs[p]) ==> c.hash != "" && c.hash !in s.drawn)
      && (TakesId(s.procs[p]) ==> c.id !in s.ids)
      && (s.procs[p].BulkDelete? ==>
            Enumerates(c.order, Revoked(s.store, s.procs[p].user, s.procs[p].keep)))
      && (s.procs[p].RevokeDelete? ==>
            Enumerates(c.order, Matching(s.store, s.procs[p].id, s.procs[p].user)))
  }

  /** Records a row in the store together with its place in the issue history. */
  function Issued(s: State, hash: Hash, sess: Session, parent: Option<Hash>): State {
    s.(issued := s.issued[hash := Issue(sess, parent, |s.issued|)], ids := s.ids + {sess.id})
  }

  predicate InLogin(pc: Pc) {
    pc.LoginGenerate? || pc.LoginCreate?
  }

  predicate InRefresh(pc: Pc) {
    pc.RefreshLookup? || pc.RefreshLoad? || pc.RefreshCheck? || pc.RefreshGenerate? || pc.RefreshRotate?
    || pc.RefreshEvict? || pc.ExpiredDelete?
  }

  predicate InRevoke(pc: Pc) {
    pc.LogoutLookup? || pc.LogoutDelete? || pc.BulkDelete? || pc.RevokeDelete?
  }

  predicate InCache(pc: Pc) {
    pc.CacheMeasure? || pc.CacheSet? || pc.Evict? || pc.Done?
  }

  /** Login, once the password has been checked. */
  function LoginCall(s: State, pc: Pc, c: Choice): (State, Pc)
    requires InLogin(pc)
  {
    match pc
    case LoginGenerate(user, device) =>
      if !c.ok then (s, Done(Failed(Internal)))
      else (s.(drawn := s.drawn + {c.hash}),
            LoginCreate(c.hash, user, device, s.now + s.refreshTTL))
    case LoginCreate(hash, user, device, expiry) =>
      if !c.ok then (s, Done(Failed(Internal)))
      else
        var sess := Session(c.id, user, device, expiry);
        (Issued(s.(store := s.store[hash := sess]), hash, sess, None),
         CacheMeasure(hash, sess, LoggedIn(hash)))
  }

  /** RefreshToken, up to the caching of the new session. */
  function RefreshCall(s: State, pc: Pc, c: Choice): (State, Pc)
    requires InRefresh(pc)
  {
    match pc
    case RefreshLookup(spent, device, start) =>
      if !c.ok then (s, RefreshLoad(spent, device, start))
      else
        var (cache, hit) := Lookup(s.cache, spent, s.now);
        (s.(cache := cache),
         match hit
         case Some(found) => RefreshCheck(spent, device, start, found)
         case None => RefreshLoad(spent, device, start))
    case RefreshLoad(spent, device, start) =>
      if !c.ok then (s, Done(Failed(Internal)))
      else if spent !in s.store then (s, Done(Failed(Unauthenticated)))
      else (s, RefreshCheck(spent, device, start, s.store[spent]))
    case RefreshCheck(spent, device, start, found) =>
      if s.now > found.expiry then (s, ExpiredDelete(spent))
      else (s, RefreshGenerate(spent, device, start, found))
    case RefreshGenerate(spent, device, start, found) =>
      if !c.ok then (s, Done(Failed(Internal)))
      else (s.(drawn := s.drawn + {c.hash}),
            RefreshRotate(spent, start, c.hash, found.user,
                          if device == "" then found.device else device, s.now + s.refreshTTL))
    case RefreshRotate(spent, start, hash, user, device, expiry) =>
      if !c.ok then (s, Done(Failed(Internal)))
      else if spent !in s.store then (s, Done(Failed(Unauthenticated)))
      else
        var sess := Session(c.id, user, device, expiry);
        (Issued(s.(store := Rotated(s.store, spent, hash, sess)), hash, sess, Some(spent)),
         RefreshEvict(spent, hash, sess))
    case RefreshEvict(spent, hash, sess) =>
      (if c.ok then s.(cache := s.cache - {spent}) else s,
       CacheMeasure(hash, sess, Refreshed(spent, hash)))
    case ExpiredDelete(spent) =>
      (if c.ok then s.(store := s.store - {spent}) else s,
       Evict([spent], Failed(Unauthenticated)))
  }

  /** Logout, the bulk revocations and RevokeSession, up to the cache deletes. */
  function RevokeCall(s: State, pc: Pc, c: Choice): (State, Pc)
    requires InRevoke(pc)
  {
    match pc
    case LogoutLookup(spent) =>
      (if c.ok then s.(cache := Lookup(s.cache, spent, s.now).0) else s, LogoutDelete(spent))
    case LogoutDelete(spent) =>
      if !c.ok then (s, Done(Failed(Internal)))
      else (s.(store := s.store - {spent}), Evict([spent], LoggedOut))
    case BulkDelete(user, keep, why) =>
      if !c.ok then (s, Done(if why == ByLogoutAll then Failed(Internal) else PasswordSet))
      else (s.(store := s.store - Revoked(s.store, user, keep)),
            Evict(c.order, if why == ByLogoutAll then RevokedAll(Int32(|c.order|)) else PasswordSet))
    case RevokeDelete(user, id) =>
      if !c.ok then (s, Done(Failed(Internal)))
      else if c.order == [] then (s, Done(Failed(NotFound)))
      else (s.(store := s.store - Matching(s.store, id, user)), Evict([c.order[0]], RevokedOne))
  }

  /** cacheSession and the cache deletes that end a request; an answered request stays put. */
  function CacheCall(s: State, pc: Pc, c: Choice): (State, Pc)
    requires InCache(pc)
  {
    match pc
    case CacheMeasure(hash, sess, reply) =>
      if sess.expiry - s.now <= 0 then (s, Done(reply))
      else (s, CacheSet(hash, sess, sess.expiry - s.now, reply))
    case CacheSet(hash, sess, ttl, reply) =>
      (if c.ok then s.(cache := s.cache[hash := CacheEntry(sess, s.now + ttl)]) else s,
       Done(reply))
    case Evict(hashes, reply) =>
      if hashes == [] then (s, Done(reply))
      else (if c.ok then s.(cache := s.cache - {hashes[0]}) else s, Evict(hashes[1..], reply))
    case Done(reply) => (s, pc)
  }

  /** One call of one request: the new shared state and the new program counter. */
  function Call(s: State, pc: Pc, c: Choice): (State, Pc) {
    if InLogin(pc) then LoginCall(s, pc, c)
    else if InRefresh(pc) then RefreshCall(s, pc, c)
    else if InRevoke(pc) then RevokeCall(s, pc, c)
    else CacheCall(s, pc, c)
  }

  function Apply(s: State, e: Event): State
    requires e.Act? ==> e.p in s.procs
  {
    match e
    case Tick(now) => s.(now := now)
    case Drop(hash) => s.(cache := s.cache - {hash})
    case Begin(p, pc) => s.(procs := s.procs[p := pc])
    case Act(p, c) =>
      var (s', pc') := Call(s, s.procs[p], c);
      s'.(procs := s.procs[p := pc'])
  }

  /** A run of the system: the states it passes through and the events between them. */
  ghost predicate Run(states: seq<State>, events: seq<Event>) {
    && |states| == |events| + 1
    && Init(states[0])
    && forall i :: 0 <= i < |events| ==>
         Enabled(states[i], events[i]) && states[i + 1] == Apply(states[i], events[i])
  }
}
