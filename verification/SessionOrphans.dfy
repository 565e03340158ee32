/**
 When a stale cache entry arises, exactly. A cache entry whose row is gone is harmless as long as
 some request is about to evict it; it is orphaned when nobody is.
 */
module SessionOrphans {
  import opened Prelude
  import opened Sessions
  import opened SessionCache
  import opened SessionProtocol
  import opened SessionInvariant

  /** The request is about to delete `h` from the cache. */
  predicate Evicts(pc: Pc, h: Hash) {
    (pc.RefreshEvict? && pc.spent == h) || (pc.Evict? && h in pc.hashes)
  }

  ghost predicate Evicting(procs: map<Pid, Pc>, h: Hash) {
    exists p :: p in procs && Evicts(procs[p], h)
  }

  ghost predicate Orphaned(s: State, h: Hash) {
    h in s.cache && h !in s.store && !Evicting(s.procs, h)
  }

  /** The next call of the request is a cache delete. */
  predicate Deletes(pc: Pc) {
    pc.RefreshEvict? || (pc.Evict? && pc.hashes != [])
  }

  /** If the step is a cache delete, it succeeds. */
  predicate CacheDeleteOk(s: State, e: Event) {
    e.Act? && e.p in s.procs && Deletes(s.procs[e.p]) ==> e.c.ok
  }

  /** The step caches a session that was revoked, expired or rotated away while its request was on
      the way to cache it, and whose eviction is already over. */
  ghost predicate Overtaken(s: State, e: Event, h: Hash) {
    && e.Act? && e.p in s.procs && s.procs[e.p].CacheSet? && s.procs[e.p].hash == h && e.c.ok
    && h !in s.store && !Evicting(s.procs, h)
  }

  /** What a call does to a token: it is evicted by the request that removed its row, evictions
      are carried out, and only a cache write brings an entry. */
  ghost predicate Tidy(s: State, pc: Pc, c: Choice, r: (State, Pc), h: Hash) {
    && (h in s.store && h !in r.0.store ==> Evicts(r.1, h))
    && (Evicts(pc, h) ==> Evicts(r.1, h) || h !in r.0.cache)
    && (h in r.0.cache && h !in s.cache ==> pc.CacheSet? && pc.hash == h && c.ok)
  }

  lemma LoginTidy(s: State, pc: Pc, c: Choice, h: Hash)
    requires InLogin(pc)
    ensures Tidy(s, pc, c, LoginCall(s, pc, c), h)
  {
  }

  lemma RefreshTidy(s: State, pc: Pc, c: Choice, h: Hash)
    requires InRefresh(pc) && (Deletes(pc) ==> c.ok)
    ensures Tidy(s, pc, c, RefreshCall(s, pc, c), h)
  {
  }

  lemma CacheTidy(s: State, pc: Pc, c: Choice, h: Hash)
    requires InCache(pc) && (Deletes(pc) ==> c.ok)
    ensures Tidy(s, pc, c, CacheCall(s, pc, c), h)
  {
    if pc.Evict? && pc.hashes != [] { assert pc.hashes == [pc.hashes[0]] + pc.hashes[1..]; }
  }

  lemma RevokeTidy(s: State, pc: Pc, c: Choice, h: Hash)
    requires InRevoke(pc) && UniqueIds(s.store)
    requires pc.BulkDelete? ==> Enumerates(c.order, Revoked(s.store, pc.user, pc.keep))
    requires pc.RevokeDelete? ==> Enumerates(c.order, Matching(s.store, pc.id, pc.user))
    ensures Tidy(s, pc, c, RevokeCall(s, pc, c), h)
  {
    if pc.BulkDelete? { EnumerationFacts(c.order, Revoked(s.store, pc.user, pc.keep)); }
    if pc.RevokeDelete? {
      EnumerationFacts(c.order, Matching(s.store, pc.id, pc.user));
      if h in Matching(s.store, pc.id, pc.user) { MatchingIsUnique(s.store, pc.id, pc.user, h); }
    }
  }

  lemma StoredIdsAreUnique(s: State)
    requires Inv(s)
    ensures UniqueIds(s.store)
  {
    forall h, k | h in s.store && k in s.store && s.store[h].id == s.store[k].id ensures h == k {
      assert IsIssued(s.issued, h, s.store[h]) && IsIssued(s.issued, k, s.store[k]);
    }
  }

  lemma CallTidy(s: State, e: Event, h: Hash)
    requires Inv(s) && Enabled(s, e) && e.Act? && CacheDeleteOk(s, e)
    ensures Tidy(s, s.procs[e.p], e.c, Call(s, s.procs[e.p], e.c), h)
  {
    var pc := s.procs[e.p];
    if InLogin(pc) {
      LoginTidy(s, pc, e.c, h);
    } else if InRefresh(pc) {
      RefreshTidy(s, pc, e.c, h);
    } else if InRevoke(pc) {
      StoredIdsAreUnique(s);
      RevokeTidy(s, pc, e.c, h);
    } else {
      CacheTidy(s, pc, e.c, h);
    }
  }

  lemma EvictingStays(procs: map<Pid, Pc>, p: Pid, pc: Pc, h: Hash)
    requires p in procs && Evicting(procs, h) && (Evicts(procs[p], h) ==> Evicts(pc, h))
    ensures Evicting(procs[p := pc], h)
  {
    var q :| q in procs && Evicts(procs[q], h);
    var procs' := procs[p := pc];
    assert procs'[q] == if q == p then pc else procs[q];
  }

  lemma NotEvicting(procs: map<Pid, Pc>, p: Pid, pc: Pc, h: Hash)
    requires !Evicting(procs, h) && !Evicts(pc, h)
    ensures !Evicting(procs[p := pc], h)
  {
    var procs' := procs[p := pc];
    forall q | q in procs' ensures !Evicts(procs'[q], h) {
      if q != p { assert procs'[q] == procs[q]; }
    }
  }

  /** With its cache delete succeeding, a step orphans an entry if and only if it is an overtaken
      write of it. */
  lemma OrphanedStep(s: State, e: Event, h: Hash)
    requires Inv(s) && Enabled(s, e) && CacheDeleteOk(s, e) && !Orphaned(s, h)
    ensures Orphaned(Apply(s, e), h) <==> Overtaken(s, e, h)
  {
    match e {
      case Tick(_) =>
      case Drop(_) =>
      case Begin(p, pc) =>
        if Evicting(s.procs, h) {
          var q :| q in s.procs && Evicts(s.procs[q], h);
          assert s.procs[p := pc][q] == s.procs[q];
        }
      case Act(p, c) => OrphanedAct(s, p, c, h);
    }
  }

  lemma OrphanedAct(s: State, p: Pid, c: Choice, h: Hash)
    requires Inv(s) && Enabled(s, Act(p, c)) && CacheDeleteOk(s, Act(p, c)) && !Orphaned(s, h)
    ensures Orphaned(Apply(s, Act(p, c)), h) <==> Overtaken(s, Act(p, c), h)
  {
    var pc := s.procs[p];
    var (s', pc') := Call(s, pc, c);
    CallTidy(s, Act(p, c), h);
    var procs' := s.procs[p := pc'];
    if Overtaken(s, Act(p, c), h) {
      NotEvicting(s.procs, p, pc', h);
    } else if Orphaned(Apply(s, Act(p, c)), h) {
      assert procs'[p] == pc' && p in procs';
      assert !Evicts(pc', h);
      if Evicting(s.procs, h) && (Evicts(pc, h) ==> Evicts(pc', h)) { EvictingStays(s.procs, p, pc', h); }
    }
  }

  /** The same at every step of every run. */
  lemma OrphanedExactly(states: seq<State>, events: seq<Event>, i: nat, h: Hash)
    requires Run(states, events) && i < |events| && CacheDeleteOk(states[i], events[i]) && !Orphaned(states[i], h)
    ensures Orphaned(states[i + 1], h) <==> Overtaken(states[i], events[i], h)
  {
    Reachable(states, events, i);
    OrphanedStep(states[i], events[i], h);
  }

  /** In every interleaving whose cache deletes succeed and in which no write of a token is
      overtaken, a cached token is stored or about to be evicted; once all requests are answered,
      it is stored. */
  lemma {:induction false} NoStaleUnlessOvertaken(states: seq<State>, events: seq<Event>, i: nat, h: Hash)
    requires Run(states, events) && i < |states|
    requires forall j :: 0 <= j < i ==> CacheDeleteOk(states[j], events[j]) && !Overtaken(states[j], events[j], h)
    ensures !Orphaned(states[i], h)
    ensures h in states[i].cache && (forall p :: p in states[i].procs ==> states[i].procs[p].Done?) ==>
              h in states[i].store
  {
    if i > 0 {
      NoStaleUnlessOvertaken(states, events, i - 1, h);
      OrphanedExactly(states, events, i - 1, h);
    }
  }
}
