/**
 The service refines the protocol: whatever requests the service handles one after the other, some
 run of the protocol leads to the same rows and the same cache. What holds in every run therefore
 holds of the service.
 */
module SessionRefinement {
  import opened Prelude
  import opened Sessions
  import opened SessionCache
  import opened SessionProtocol
  import opened SessionProgress
  import opened SessionInvariant
  import opened SessionSteps
  import opened SessionCoherence
  import opened StaleEntries
  import SessionOrphans
  import S = SessionService

  /** A token is still to be drawn. */
  predicate WillDraw(pc: Pc) {
    pc.LoginGenerate? || pc.RefreshLookup? || pc.RefreshLoad? || pc.RefreshCheck? || pc.RefreshGenerate?
  }

  /** The environment has what the rest of the request needs: new randomness, and an enumeration of
      the rows to delete. */
  ghost predicate Ready(s: State, pc: Pc, env: S.Env, order: seq<Hash>) {
    && (WillDraw(pc) ==> env.hash != "" && env.hash !in s.drawn)
    && (WillDraw(pc) || TakesId(pc) ==> env.uuid !in s.ids)
    && (pc.BulkDelete? ==> Enumerates(order, Revoked(s.store, pc.user, pc.keep)))
    && (pc.RevokeDelete? ==> Enumerates(order, Matching(s.store, pc.id, pc.user)))
  }

  lemma RefreshReady(s: State, pc: Pc, env: S.Env, order: seq<Hash>)
    requires Ready(s, pc, env, order) && InRefresh(pc) && Ordered(env)
    ensures var (s', pc') := Next(s, pc, env, order);
            Ready(s', pc', env, order) && (!pc'.Done? ==> s'.now <= When(pc', env))
  {
  }

  lemma LoginReady(s: State, pc: Pc, env: S.Env, order: seq<Hash>)
    requires Ready(s, pc, env, order) && InLogin(pc) && Ordered(env)
    ensures var (s', pc') := Next(s, pc, env, order);
            Ready(s', pc', env, order) && (!pc'.Done? ==> s'.now <= When(pc', env))
  {
  }

  lemma RevokeReady(s: State, pc: Pc, env: S.Env, order: seq<Hash>)
    requires Ready(s, pc, env, order) && InRevoke(pc) && Ordered(env)
    ensures var (s', pc') := Next(s, pc, env, order);
            Ready(s', pc', env, order) && (!pc'.Done? ==> s'.now <= When(pc', env))
  {
  }

  lemma CacheReady(s: State, pc: Pc, env: S.Env, order: seq<Hash>)
    requires Ready(s, pc, env, order) && InCache(pc) && !pc.Done? && Ordered(env)
    ensures var (s', pc') := Next(s, pc, env, order);
            Ready(s', pc', env, order) && (!pc'.Done? ==> s'.now <= When(pc', env))
  {
  }

  lemma NextReady(s: State, pc: Pc, env: S.Env, order: seq<Hash>)
    requires Ready(s, pc, env, order) && !pc.Done? && Ordered(env)
    ensures var (s', pc') := Next(s, pc, env, order);
            Ready(s', pc', env, order) && (!pc'.Done? ==> s'.now <= When(pc', env))
  {
    if InLogin(pc) {
      LoginReady(s, pc, env, order);
    } else if InRefresh(pc) {
      RefreshReady(s, pc, env, order);
    } else if InRevoke(pc) {
      RevokeReady(s, pc, env, order);
    } else {
      CacheReady(s, pc, env, order);
    }
  }

  /** A call leaves the other requests where they are, and does not look at them. */
  ghost predicate Blind(r: (State, Pc), r': (State, Pc), s: State, procs: map<Pid, Pc>) {
    r' == (r.0.(procs := procs), r.1) && r.0.procs == s.procs
  }

  lemma LoginBlind(s: State, pc: Pc, c: Choice, procs: map<Pid, Pc>)
    requires InLogin(pc)
    ensures Blind(LoginCall(s, pc, c), LoginCall(s.(procs := procs), pc, c), s, procs)
  {
  }

  lemma RefreshBlind(s: State, pc: Pc, c: Choice, procs: map<Pid, Pc>)
    requires InRefresh(pc)
    ensures Blind(RefreshCall(s, pc, c), RefreshCall(s.(procs := procs), pc, c), s, procs)
  {
  }

  lemma RevokeBlind(s: State, pc: Pc, c: Choice, procs: map<Pid, Pc>)
    requires InRevoke(pc)
    ensures Blind(RevokeCall(s, pc, c), RevokeCall(s.(procs := procs), pc, c), s, procs)
  {
  }

  lemma CacheBlind(s: State, pc: Pc, c: Choice, procs: map<Pid, Pc>)
    requires InCache(pc)
    ensures Blind(CacheCall(s, pc, c), CacheCall(s.(procs := procs), pc, c), s, procs)
  {
  }

  lemma CallIgnoresProcs(s: State, pc: Pc, c: Choice, procs: map<Pid, Pc>)
    ensures Blind(Call(s, pc, c), Call(s.(procs := procs), pc, c), s, procs)
  {
    if InLogin(pc) {
      LoginBlind(s, pc, c, procs);
    } else if InRefresh(pc) {
      RefreshBlind(s, pc, c, procs);
    } else if InRevoke(pc) {
      RevokeBlind(s, pc, c, procs);
    } else {
      CacheBlind(s, pc, c, procs);
    }
  }

  lemma {:induction false} CompleteIgnoresProcs(s: State, pc: Pc, env: S.Env, order: seq<Hash>, procs: map<Pid, Pc>)
    ensures var (s', r) := Complete(s, pc, env, order);
            Complete(s.(procs := procs), pc, env, order) == (s'.(procs := procs), r)
    decreases Stage(pc), ToEvict(pc)
  {
    if !pc.Done? {
      var c := Choice(Succeeds(pc, env), env.hash, env.uuid, order);
      var now := When(pc, env);
      CallAdvances(s.(now := now), pc, c);
      CallIgnoresProcs(s.(now := now), pc, c, procs);
      assert s.(procs := procs).(now := now) == s.(now := now).(procs := procs);
      var (s', pc') := Next(s, pc, env, order);
      CompleteIgnoresProcs(s', pc', env, order, procs);
    }
  }

  /** One call of the service is one step of a run, after the clock has moved on. */
  lemma CallIsAStep(s: State, p: Pid, env: S.Env, order: seq<Hash>)
    requires CanReach(s) && p in s.procs && !s.procs[p].Done?
    requires s.now <= When(s.procs[p], env) && Ready(s, s.procs[p], env, order)
    ensures var (s', pc') := Next(s, s.procs[p], env, order);
            CanReach(s'.(procs := s.procs[p := pc']))
  {
    var pc := s.procs[p];
    var t := s.(now := When(pc, env));
    Then(s, Tick(When(pc, env)), t);
    var c := Choice(Succeeds(pc, env), env.hash, env.uuid, order);
    Then(t, Act(p, c), Apply(t, Act(p, c)));
  }

  /** A request run to its end is part of a run. */
  lemma {:induction false} RequestIsARun(s: State, p: Pid, env: S.Env, order: seq<Hash>)
    requires CanReach(s) && p in s.procs && Ordered(env) && Ready(s, s.procs[p], env, order)
    requires s.procs[p].Done? || s.now <= When(s.procs[p], env)
    ensures var (s', r) := Complete(s, s.procs[p], env, order);
            CanReach(s'.(procs := s.procs[p := Done(r)]))
    decreases Stage(s.procs[p]), ToEvict(s.procs[p])
  {
    var pc := s.procs[p];
    if pc.Done? {
      assert s.procs[p := Done(pc.reply)] == s.procs;
    } else {
      CallIsAStep(s, p, env, order);
      var (s', pc') := Next(s, pc, env, order);
      NextReady(s, pc, env, order);
      CallAdvances(s.(now := When(pc, env)), pc, Choice(Succeeds(pc, env), env.hash, env.uuid, order));
      var t := s'.(procs := s.procs[p := pc']);
      RequestIsARun(t, p, env, order);
      CompleteIgnoresProcs(s', pc', env, order, t.procs);
      var (s'', r) := Complete(s', pc', env, order);
      assert s.procs[p := pc'][p := Done(r)] == s.procs[p := Done(r)];
    }
  }

  /** What a request uses up: its own randomness, and time. */
  ghost predicate Within(s: State, s': State, env: S.Env) {
    && s'.drawn <= s.drawn + {env.hash} && s'.ids <= s.ids + {env.uuid} && s'.refreshTTL == s.refreshTTL
    && s'.now <= (if s.now <= env.setAt then env.setAt else s.now)
  }

  lemma RefreshWithin(s: State, pc: Pc, env: S.Env, order: seq<Hash>)
    requires Ordered(env) && InRefresh(pc)
    ensures Within(s, Next(s, pc, env, order).0, env) && Next(s, pc, env, order).0.now <= env.setAt
  {
  }

  lemma OthersWithin(s: State, pc: Pc, env: S.Env, order: seq<Hash>)
    requires Ordered(env) && !InRefresh(pc)
    ensures Within(s, Next(s, pc, env, order).0, env) && Next(s, pc, env, order).0.now <= env.setAt
  {
  }

  lemma {:induction false} CompleteWithin(s: State, pc: Pc, env: S.Env, order: seq<Hash>)
    requires Ordered(env)
    ensures Within(s, Complete(s, pc, env, order).0, env)
    decreases Stage(pc), ToEvict(pc)
  {
    if !pc.Done? {
      CallAdvances(s.(now := When(pc, env)), pc, Choice(Succeeds(pc, env), env.hash, env.uuid, order));
      var (s', pc') := Next(s, pc, env, order);
      if InRefresh(pc) { RefreshWithin(s, pc, env, order); } else { OthersWithin(s, pc, env, order); }
      CompleteWithin(s', pc', env, order);
    }
  }

  lemma {:induction false} SomeOrder(s: set<Hash>) returns (order: seq<Hash>)
    ensures Enumerates(order, s)
  {
    order := [];
    if s != {} {
      var h :| h in s;
      var rest := SomeOrder(s - {h});
      order := [h] + rest;
      assert multiset(s) == multiset(s - {h}) + multiset{h};
    }
  }

  /** Where a request of the service enters the protocol. */
  function Entry(s: State, r: Request): Pc {
    match r
    case Login(user, device, _) => LoginGenerate(user, device)
    case Refresh(hash, device, _) => RefreshLookup(hash, device, s.now)
    case Logout(hash, _) => LogoutLookup(hash)
    case RevokeAll(user, keep, _) => BulkDelete(user, keep, if keep == "" then ByLogoutAll else ByChangePassword)
    case Revoke(user, id, _) => RevokeDelete(user, id)
  }

  /** The order in which a bulk delete lists its rows does not matter here. */
  lemma EntryOrder(s: State, r: Request) returns (order: seq<Hash>)
    ensures var pc := Entry(s, r);
            && (pc.BulkDelete? ==> Enumerates(order, Revoked(s.store, pc.user, pc.keep)))
            && (pc.RevokeDelete? ==> Enumerates(order, Matching(s.store, pc.id, pc.user)))
  {
    order := [];
    match r {
      case RevokeAll(user, keep, _) => order := SomeOrder(Revoked(s.store, user, keep));
      case Revoke(user, id, _) => order := SomeOrder(Matching(s.store, id, user));
      case _ =>
    }
  }

  lemma HandledAlone(s: State, r: Request, order: seq<Hash>)
    requires UniqueIds(s.store)
    requires var pc := Entry(s, r);
             && (pc.BulkDelete? ==> Enumerates(order, Revoked(s.store, pc.user, pc.keep)))
             && (pc.RevokeDelete? ==> Enumerates(order, Matching(s.store, pc.id, pc.user)))
    ensures Shared(Complete(s, Entry(s, r), r.env, order).0) == Handle(Shared(s), s.refreshTTL, r)
  {
    match r
    case Login(user, device, env) => LoginAlone(s, user, device, env, order);
    case Refresh(hash, device, env) => RefreshAlone(s, hash, device, s.now, env, order);
    case Logout(hash, env) => LogoutAlone(s, hash, env, order);
    case RevokeAll(user, keep, env) =>
      RevokeAllAlone(s, user, keep, if keep == "" then ByLogoutAll else ByChangePassword, env, order);
    case Revoke(user, id, env) => RevokeAlone(s, user, id, env, order);
  }

  lemma ReachedIdsAreUnique(s: State)
    requires CanReach(s)
    ensures UniqueIds(s.store)
  {
    var states, events :| Run(states, events) && states[|events|] == s;
    Reachable(states, events, |events|);
    SessionOrphans.StoredIdsAreUnique(s);
  }

  /** Everybody has been answered, and the state is that of the service. */
  ghost predicate Refines(s: State, w: S.World, ttl: int, n: nat, now: Time, drawn: set<Hash>, ids: set<string>) {
    && CanReach(s) && Shared(s) == w && s.refreshTTL == ttl && s.now <= now
    && s.drawn <= drawn && s.ids <= ids
    && forall p :: p in s.procs ==> p < n && s.procs[p].Done?
  }

  lemma RequestRefines(s: State, w: S.World, ttl: int, n: nat, now: Time, drawn: set<Hash>, ids: set<string>,
                       r: Request)
    returns (s': State)
    requires Refines(s, w, ttl, n, now, drawn, ids) && Ordered(r.env) && now <= r.env.lookedUpAt
    requires r.env.hash != "" && r.env.hash !in drawn && r.env.uuid !in ids
    ensures Refines(s', Handle(w, ttl, r), ttl, n + 1, r.env.setAt, drawn + {r.env.hash}, ids + {r.env.uuid})
  {
    var pc, env := Entry(s, r), r.env;
    var order := EntryOrder(s, r);
    var t := s.(procs := s.procs[n := pc]);
    Then(s, Begin(n, pc), t);
    RequestIsARun(t, n, env, order);
    ReachedIdsAreUnique(s);
    HandledAlone(s, r, order);
    CompleteIgnoresProcs(s, pc, env, order, t.procs);
    CompleteWithin(s, pc, env, order);
    var (c, reply) := Complete(s, pc, env, order);
    s' := c.(procs := t.procs[n := Done(reply)]);
  }

  /** Requests in the order of time, each with randomness of its own. */
  ghost predicate Proper(rs: seq<Request>) {
    && (forall i :: 0 <= i < |rs| ==> Ordered(rs[i].env) && rs[i].env.hash != "")
    && (forall i :: 0 < i < |rs| ==> rs[i - 1].env.setAt <= rs[i].env.lookedUpAt)
    && (forall i, j :: 0 <= i < j < |rs| ==> rs[i].env.hash != rs[j].env.hash && rs[i].env.uuid != rs[j].env.uuid)
  }

  function HashesOf(rs: seq<Request>): set<Hash> { set r | r in rs :: r.env.hash }
  function IdsOf(rs: seq<Request>): set<string> { set r | r in rs :: r.env.uuid }

  function EndOf(rs: seq<Request>, start: Time): Time {
    if rs == [] then start else rs[|rs| - 1].env.setAt
  }

  lemma ProperBefore(rs: seq<Request>, start: Time)
    requires Proper(rs) && rs != [] && start <= rs[0].env.lookedUpAt
    ensures var init, r := rs[..|rs| - 1], rs[|rs| - 1];
            Proper(init) && Ordered(r.env) && r.env.hash != "" && EndOf(init, start) <= r.env.lookedUpAt
  {
  }

  lemma NewRandomness(rs: seq<Request>)
    requires Proper(rs) && rs != []
    ensures var init, r := rs[..|rs| - 1], rs[|rs| - 1];
            r.env.hash !in HashesOf(init) && r.env.uuid !in IdsOf(init)
  {
    var init, r := rs[..|rs| - 1], rs[|rs| - 1];
    forall q | q in init ensures q.env.hash != r.env.hash && q.env.uuid != r.env.uuid {
      var i :| 0 <= i < |init| && init[i] == q;
      assert rs[i] == q;
    }
  }

  lemma OneMoreRequest(init: seq<Request>, r: Request)
    ensures HashesOf(init + [r]) == HashesOf(init) + {r.env.hash} && IdsOf(init + [r]) == IdsOf(init) + {r.env.uuid}
  {
    assert forall q :: q in init + [r] <==> q in init || q == r;
  }

  lemma NothingYet(ttl: int, start: Time) returns (s: State)
    ensures Refines(s, Empty, ttl, 0, start, {}, {})
  {
    s := State(start, ttl, map[], map[], map[], map[], {}, {});
    Start(s);
  }

  /** The state refines what the service has come to after these requests. */
  ghost predicate RefinesAll(s: State, ttl: int, rs: seq<Request>, start: Time) {
    Refines(s, SessionCoherence.After(Empty, ttl, rs), ttl, |rs|, EndOf(rs, start), HashesOf(rs), IdsOf(rs))
  }

  lemma LastRefines(ttl: int, rs: seq<Request>, start: Time, t: State) returns (s: State)
    requires Proper(rs) && rs != [] && start <= rs[0].env.lookedUpAt && RefinesAll(t, ttl, rs[..|rs| - 1], start)
    ensures RefinesAll(s, ttl, rs, start)
  {
    var init, r := rs[..|rs| - 1], rs[|rs| - 1];
    assert rs == init + [r];
    ProperBefore(rs, start);
    NewRandomness(rs);
    OneMoreRequest(init, r);
    s := RequestRefines(t, SessionCoherence.After(Empty, ttl, init), ttl, |init|, EndOf(init, start),
                        HashesOf(init), IdsOf(init), r);
  }

  /** Every sequence of requests that the service handles one after the other, with whatever calls
      failing, is a run of the protocol that ends with the same rows and the same cache. */
  lemma {:induction false} ServiceRefinesProtocol(ttl: int, rs: seq<Request>, start: Time) returns (s: State)
    requires Proper(rs) && (rs != [] ==> start <= rs[0].env.lookedUpAt)
    ensures RefinesAll(s, ttl, rs, start)
    ensures CanReach(s) && Shared(s) == SessionCoherence.After(Empty, ttl, rs)
  {
    if rs == [] {
      s := NothingYet(ttl, start);
    } else {
      ProperBefore(rs, start);
      var t := ServiceRefinesProtocol(ttl, rs[..|rs| - 1], start);
      s := LastRefines(ttl, rs, start, t);
    }
  }
}
