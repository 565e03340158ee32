/**
 What an answer means, in every interleaving: which step of the request earned it, with what it was
 asked at its beginning, and that refusals have a reason.
 */
module SessionAnswers {
  import opened Prelude
  import opened Sessions
  import opened SessionCache
  import opened SessionProtocol
  import opened SessionInvariant
  import opened SessionSafety

  /** The past of a request: it began at step `begin` with `start`; it made its session at `made`;
      the call that decides its answer was `key`, and `row` the token it was about. */
  datatype Past = Past(begin: nat, start: Pc, made: nat, key: nat, row: Hash)

  /** Step i is a call of the request, made at `pc`. */
  predicate Calls(states: seq<State>, events: seq<Event>, i: nat, p: Pid, pc: Pc) {
    i < |events| && i < |states| && events[i].Act? && events[i].p == p
    && p in states[i].procs && states[i].procs[p] == pc
  }

  /** Step i is some call of the request. */
  predicate IsCall(states: seq<State>, events: seq<Event>, i: nat, p: Pid) {
    i < |events| && i < |states| && events[i].Act? && events[i].p == p
  }

  /** A session made at that call lasts one lifetime. */
  predicate MadeAt(states: seq<State>, events: seq<Event>, i: nat, p: Pid, expiry: Time) {
    IsCall(states, events, i, p) && expiry == states[i].now + states[i].refreshTTL
  }

  /** At that call the token was not stored, or its session had expired. */
  predicate RefusedAt(states: seq<State>, events: seq<Event>, i: nat, p: Pid, h: Hash) {
    IsCall(states, events, i, p)
    && (h in states[i].store ==> h in states[i].issued && states[i].now > states[i].issued[h].sess.expiry)
  }

  /** The request refreshes `h`, from `device`. */
  predicate AsksRefresh(a: Past, h: Hash, device: string) {
    a.start.RefreshLookup? && a.start.spent == h && a.start.device == device
  }

  /** The device a refresh puts its session on: the one it names, else that of the token. */
  predicate OnDevice(issued: History, h: Hash, given: string, device: string) {
    h in issued && (given != "" ==> device == given) && (given == "" ==> device == issued[h].sess.device)
  }

  /** The new token is what a login asked for. */
  predicate FromLogin(states: seq<State>, events: seq<Event>, j: nat, p: Pid, h: Hash, a: Past) {
    && j < |states| && h in states[j].issued
    && states[j].issued[h].parent == None
    && a.start == LoginGenerate(states[j].issued[h].sess.user, states[j].issued[h].sess.device)
    && a.made < j && MadeAt(states, events, a.made, p, states[j].issued[h].sess.expiry)
  }

  /** The new token is what a refresh asked for. */
  predicate FromRefresh(states: seq<State>, events: seq<Event>, j: nat, p: Pid, spent: Hash, h: Hash, a: Past) {
    && j < |states| && h in states[j].issued && spent in states[j].issued
    && states[j].issued[h].parent == Some(spent)
    && states[j].issued[h].sess.user == states[j].issued[spent].sess.user
    && a.start.RefreshLookup? && a.start.spent == spent
    && OnDevice(states[j].issued, spent, a.start.device, states[j].issued[h].sess.device)
    && a.made < j && MadeAt(states, events, a.made, p, states[j].issued[h].sess.expiry)
  }

  /** The deciding call was made at `pc` and succeeded. */
  predicate Decided(states: seq<State>, events: seq<Event>, j: nat, p: Pid, pc: Pc, a: Past) {
    a.key < j && Calls(states, events, a.key, p, pc) && events[a.key].c.ok
  }

  /** The row is a session of the user with this id. */
  predicate Owns(t: Table, user: string, id: string, h: Hash) {
    h in t && t[h].id == id && t[h].user == user
  }

  ghost predicate ReplyTold(states: seq<State>, events: seq<Event>, j: nat, p: Pid, reply: Reply, a: Past)
    requires j < |states|
  {
    match reply
    case LoggedIn(h) => FromLogin(states, events, j, p, h, a)
    case Refreshed(spent, h) => FromRefresh(states, events, j, p, spent, h, a)
    case LoggedOut =>
      a.start == LogoutLookup(a.row) && Decided(states, events, j, p, LogoutDelete(a.row), a)
    case RevokedAll(n) =>
      && a.start.BulkDelete? && a.start.why == ByLogoutAll && a.start.keep == ""
      && Decided(states, events, j, p, a.start, a)
      && n == Int32(Held(states[a.key].store, a.start.user))
    case RevokedOne =>
      && a.start.RevokeDelete? && Decided(states, events, j, p, a.start, a)
      && Owns(states[a.key].store, a.start.user, a.start.id, a.row)
    case PasswordSet => a.start.BulkDelete? && a.start.why != ByLogoutAll
    case Failed(code) =>
      && (code == Internal || code == Unauthenticated || code == NotFound)
      && (code == Internal ==> a.key < j && IsCall(states, events, a.key, p) && !events[a.key].c.ok)
      && (code == Unauthenticated ==>
            a.start.RefreshLookup? && a.key < j && RefusedAt(states, events, a.key, p, a.start.spent))
      && (code == NotFound ==>
            && a.start.RevokeDelete? && Decided(states, events, j, p, a.start, a)
            && forall h :: h in states[a.key].store ==> !Owns(states[a.key].store, a.start.user, a.start.id, h))
  }

  ghost predicate Told(states: seq<State>, events: seq<Event>, j: nat, p: Pid, pc: Pc, a: Past)
    requires j < |states|
  {
    && a.begin < j && a.begin < |events| && events[a.begin] == Begin(p, a.start)
    && match pc
       case LoginCreate(_, user, device, expiry) =>
         a.start == LoginGenerate(user, device) && a.made < j && MadeAt(states, events, a.made, p, expiry)
       case RefreshLoad(h, given, _) => AsksRefresh(a, h, given)
       case RefreshCheck(h, given, _, _) => AsksRefresh(a, h, given)
       case RefreshGenerate(h, given, _, _) => AsksRefresh(a, h, given)
       case RefreshRotate(h, _, _, user, device, expiry) =>
         && a.start.RefreshLookup? && a.start.spent == h && OnDevice(states[j].issued, h, a.start.device, device)
         && a.made < j && MadeAt(states, events, a.made, p, expiry)
       case RefreshEvict(spent, h, _) => FromRefresh(states, events, j, p, spent, h, a)
       case ExpiredDelete(h) =>
         a.start.RefreshLookup? && a.start.spent == h && a.key < j && RefusedAt(states, events, a.key, p, h)
       case LogoutDelete(h) => a.start == LogoutLookup(h)
       case CacheMeasure(_, _, reply) => ReplyTold(states, events, j, p, reply, a)
       case CacheSet(_, _, _, reply) => ReplyTold(states, events, j, p, reply, a)
       case Evict(_, reply) => ReplyTold(states, events, j, p, reply, a)
       case Done(reply) => ReplyTold(states, events, j, p, reply, a)
       case _ => a.start == pc
  }

  /** The history only grew since. */
  ghost predicate Extends(issued: History, issued': History) {
    forall h :: h in issued ==> h in issued' && issued'[h] == issued[h]
  }

  lemma ReplyStays(states: seq<State>, events: seq<Event>, j: nat, p: Pid, reply: Reply, a: Past)
    requires j + 1 < |states| && Extends(states[j].issued, states[j + 1].issued)
    requires ReplyTold(states, events, j, p, reply, a)
    ensures ReplyTold(states, events, j + 1, p, reply, a)
  {
  }

  /** A request's past stays as it is while it makes no call. */
  lemma PastStays(states: seq<State>, events: seq<Event>, j: nat, p: Pid, pc: Pc, a: Past)
    requires j + 1 < |states| && Extends(states[j].issued, states[j + 1].issued)
    requires Told(states, events, j, p, pc, a)
    ensures Told(states, events, j + 1, p, pc, a)
  {
    match pc
    case CacheMeasure(_, _, reply) => ReplyStays(states, events, j, p, reply, a);
    case CacheSet(_, _, _, reply) => ReplyStays(states, events, j, p, reply, a);
    case Evict(_, reply) => ReplyStays(states, events, j, p, reply, a);
    case Done(reply) => ReplyStays(states, events, j, p, reply, a);
    case _ =>
  }

  /** Step j is a call of the request. */
  ghost predicate AtCall(states: seq<State>, events: seq<Event>, j: nat, p: Pid, pc: Pc) {
    && j + 1 < |states| && |states| == |events| + 1
    && Inv(states[j]) && Enabled(states[j], events[j]) && states[j + 1] == Apply(states[j], events[j])
    && Calls(states, events, j, p, pc)
    && Extends(states[j].issued, states[j + 1].issued)
  }

  lemma LoginTells(states: seq<State>, events: seq<Event>, j: nat, p: Pid, pc: Pc, a: Past) returns (a': Past)
    requires AtCall(states, events, j, p, pc) && InLogin(pc) && Told(states, events, j, p, pc, a)
    ensures Told(states, events, j + 1, p, LoginCall(states[j], pc, events[j].c).1, a')
  {
    a' := if pc.LoginGenerate? then a.(made := j, key := j) else a.(key := j);
  }

  lemma RefreshTells(states: seq<State>, events: seq<Event>, j: nat, p: Pid, pc: Pc, a: Past) returns (a': Past)
    requires AtCall(states, events, j, p, pc) && InRefresh(pc) && Told(states, events, j, p, pc, a)
    ensures Told(states, events, j + 1, p, RefreshCall(states[j], pc, events[j].c).1, a')
  {
    assert PcOk(states[j], pc);
    a' := if pc.RefreshGenerate? then a.(made := j, key := j) else if pc.ExpiredDelete? then a else a.(key := j);
  }

  lemma LogoutTells(states: seq<State>, events: seq<Event>, j: nat, p: Pid, pc: Pc, a: Past) returns (a': Past)
    requires AtCall(states, events, j, p, pc) && Told(states, events, j, p, pc, a)
    requires pc.LogoutLookup? || pc.LogoutDelete?
    ensures Told(states, events, j + 1, p, RevokeCall(states[j], pc, events[j].c).1, a')
  {
    a' := a.(key := j, row := pc.spent);
  }

  lemma BulkTells(states: seq<State>, events: seq<Event>, j: nat, p: Pid, pc: Pc, a: Past) returns (a': Past)
    requires AtCall(states, events, j, p, pc) && Told(states, events, j, p, pc, a) && pc.BulkDelete?
    requires pc.why == ByLogoutAll ==> pc.keep == ""
    ensures Told(states, events, j + 1, p, RevokeCall(states[j], pc, events[j].c).1, a')
  {
    a' := a.(key := j);
    EnumerationFacts(events[j].c.order, Revoked(states[j].store, pc.user, pc.keep));
  }

  lemma MatchingOwned(t: Table, user: string, id: string, order: seq<Hash>)
    requires Enumerates(order, Matching(t, id, user))
    ensures order != [] ==> Owns(t, user, id, order[0])
    ensures order == [] ==> forall h :: h in t ==> !Owns(t, user, id, h)
  {
    EnumerationFacts(order, Matching(t, id, user));
    if order != [] {
      assert order[0] in Matching(t, id, user);
    } else {
      assert forall h :: Owns(t, user, id, h) ==> h in Matching(t, id, user);
    }
  }

  lemma RevokeTells(states: seq<State>, events: seq<Event>, j: nat, p: Pid, pc: Pc, a: Past) returns (a': Past)
    requires AtCall(states, events, j, p, pc) && Told(states, events, j, p, pc, a) && pc.RevokeDelete?
    ensures Told(states, events, j + 1, p, RevokeCall(states[j], pc, events[j].c).1, a')
  {
    var order := events[j].c.order;
    MatchingOwned(states[j].store, pc.user, pc.id, order);
    a' := a.(key := j, row := if order != [] then order[0] else "");
  }

  lemma MeasureTells(states: seq<State>, events: seq<Event>, j: nat, p: Pid, pc: Pc, a: Past)
    requires AtCall(states, events, j, p, pc) && Told(states, events, j, p, pc, a) && InCache(pc) && !pc.Evict?
    ensures Told(states, events, j + 1, p, CacheCall(states[j], pc, events[j].c).1, a)
  {
    ReplyStays(states, events, j, p, pc.reply, a);
  }

  lemma EvictTells(states: seq<State>, events: seq<Event>, j: nat, p: Pid, pc: Pc, a: Past)
    requires AtCall(states, events, j, p, pc) && Told(states, events, j, p, pc, a) && pc.Evict?
    ensures Told(states, events, j + 1, p, CacheCall(states[j], pc, events[j].c).1, a)
  {
    ReplyStays(states, events, j, p, pc.reply, a);
  }

  lemma CallTells(states: seq<State>, events: seq<Event>, j: nat, p: Pid, pc: Pc, a: Past) returns (a': Past)
    requires AtCall(states, events, j, p, pc) && Told(states, events, j, p, pc, a)
    requires pc.BulkDelete? && pc.why == ByLogoutAll ==> pc.keep == ""
    ensures Told(states, events, j + 1, p, Call(states[j], pc, events[j].c).1, a')
  {
    if InLogin(pc) {
      a' := LoginTells(states, events, j, p, pc, a);
    } else if InRefresh(pc) {
      a' := RefreshTells(states, events, j, p, pc, a);
    } else if pc.BulkDelete? {
      a' := BulkTells(states, events, j, p, pc, a);
    } else if pc.RevokeDelete? {
      a' := RevokeTells(states, events, j, p, pc, a);
    } else if InRevoke(pc) {
      a' := LogoutTells(states, events, j, p, pc, a);
    } else {
      a' := a;
      if pc.Evict? { EvictTells(states, events, j, p, pc, a); } else { MeasureTells(states, events, j, p, pc, a); }
    }
  }

  /** Only LogoutAll asks for a count, and it keeps nothing. */
  lemma {:induction false} KeepsNothing(states: seq<State>, events: seq<Event>, j: nat, p: Pid)
    requires Run(states, events) && j < |states| && p in states[j].procs
    ensures var pc := states[j].procs[p];
            pc.BulkDelete? && pc.why == ByLogoutAll ==> pc.keep == ""
  {
    if j > 0 {
      var s, e := states[j - 1], events[j - 1];
      if p in s.procs { KeepsNothing(states, events, j - 1, p); }
    }
  }

  lemma RunCall(states: seq<State>, events: seq<Event>, j: nat)
    requires Run(states, events) && j < |events|
    ensures Inv(states[j]) && Extends(states[j].issued, states[j + 1].issued)
    ensures events[j].Act? ==> events[j].p in states[j].procs
                               && AtCall(states, events, j, events[j].p, states[j].procs[events[j].p])
  {
    Reachable(states, events, j);
    RunGrows(states, events, j, j + 1);
  }

  lemma StepTells(states: seq<State>, events: seq<Event>, j: nat, p: Pid, a: Past) returns (a': Past)
    requires Run(states, events) && j < |events| && p in states[j].procs
    requires Told(states, events, j, p, states[j].procs[p], a)
    ensures p in states[j + 1].procs && Told(states, events, j + 1, p, states[j + 1].procs[p], a')
  {
    RunCall(states, events, j);
    a' := a;
    if events[j].Act? && events[j].p == p {
      KeepsNothing(states, events, j, p);
      a' := CallTells(states, events, j, p, states[j].procs[p], a);
    } else {
      PastStays(states, events, j, p, states[j].procs[p], a);
    }
  }

  /** Every request of every run has a past that accounts for where it is. */
  lemma {:induction false} EveryRequestTold(states: seq<State>, events: seq<Event>, j: nat, p: Pid) returns (a: Past)
    requires Run(states, events) && j < |states| && p in states[j].procs
    ensures Told(states, events, j, p, states[j].procs[p], a)
  {
    RunCall(states, events, j - 1);
    if p !in states[j - 1].procs {
      a := Past(j - 1, events[j - 1].pc, 0, 0, "");
    } else {
      a := EveryRequestTold(states, events, j - 1, p);
      a := StepTells(states, events, j - 1, p, a);
    }
  }

  /** Refusals have a reason. A refresh that was answered Unauthenticated made a call at which its
      token was not stored, or had expired; a RevokeSession answered NotFound found no session of
      the caller with that id; and nobody is answered Internal without a failing call. */
  lemma RefusalsAreJustified(states: seq<State>, events: seq<Event>, j: nat, p: Pid) returns (a: Past)
    requires Run(states, events) && j < |states| && p in states[j].procs
    requires states[j].procs[p].Done? && states[j].procs[p].reply.Failed?
    ensures a.begin < |events| && events[a.begin] == Begin(p, a.start) && a.begin < j
    ensures a.key < j && IsCall(states, events, a.key, p)
    ensures var code := states[j].procs[p].reply.code;
            || (code == Internal && !events[a.key].c.ok)
            || (code == Unauthenticated && a.start.RefreshLookup? && RefusedAt(states, events, a.key, p, a.start.spent))
            || (code == NotFound && a.start.RevokeDelete?
                && forall h :: h in states[a.key].store ==> !Owns(states[a.key].store, a.start.user, a.start.id, h))
  {
    a := EveryRequestTold(states, events, j, p);
  }

  /** What a refresh stores, in every interleaving: the user of the token it redeemed, the device
      its request named at its beginning or else the token's own, and a full lifetime from one of
      its own calls on. */
  lemma RefreshInherits(states: seq<State>, events: seq<Event>, j: nat, h: Hash) returns (a: Past, n: Hash)
    requires Run(states, events) && j < |events| && Redeems(states[j], events[j], h)
    ensures n in states[j + 1].store && n !in states[j].issued && n in states[j + 1].issued
    ensures states[j + 1].store[n] == states[j + 1].issued[n].sess
    ensures a.begin < j && events[a.begin] == Begin(events[j].p, a.start)
    ensures FromRefresh(states, events, j + 1, events[j].p, h, n, a)
  {
    var p := events[j].p;
    n := states[j].procs[p].hash;
    RunCall(states, events, j);
    assert PcOk(states[j], states[j].procs[p]);
    a := EveryRequestTold(states, events, j, p);
    a := CallTells(states, events, j, p, states[j].procs[p], a);
  }

  /** What a login stores: its user and device, and a full lifetime. */
  lemma LoginStores(states: seq<State>, events: seq<Event>, j: nat, h: Hash) returns (a: Past)
    requires Run(states, events) && j < |events| && Creates(states[j], events[j], h)
    ensures h in states[j + 1].store && h in states[j + 1].issued
    ensures states[j + 1].store[h] == states[j + 1].issued[h].sess
    ensures a.begin < j && events[a.begin] == Begin(events[j].p, a.start)
    ensures FromLogin(states, events, j + 1, events[j].p, h, a)
  {
    var p := events[j].p;
    RunCall(states, events, j);
    a := EveryRequestTold(states, events, j, p);
    a := CallTells(states, events, j, p, states[j].procs[p], a);
  }

  /** Once a logout has deleted a token that was issued, the token is in no later store and no
      later step redeems it. */
  lemma LogoutIsFinal(states: seq<State>, events: seq<Event>, i: nat, p: Pid, h: Hash, k: nat)
    requires Run(states, events) && i < k < |states|
    requires Calls(states, events, i, p, LogoutDelete(h)) && events[i].c.ok && h in states[i].issued
    ensures h !in states[k].store
    ensures k < |events| ==> !Redeems(states[k], events[k], h)
    ensures forall other :: other in states[i].store && other != h ==>
              other in states[i + 1].store && states[i + 1].store[other] == states[i].store[other]
  {
    RunGrows(states, events, i, i + 1);
    RunGrows(states, events, i + 1, k);
  }

  /** So a client whose logout was answered is out: the answer means that the delete took place. */
  lemma LoggedOutIsOut(states: seq<State>, events: seq<Event>, j: nat, p: Pid, k: nat) returns (a: Past)
    requires Run(states, events) && j <= k < |states| && p in states[j].procs && states[j].procs[p] == Done(LoggedOut)
    ensures a.begin < a.key < j && events[a.begin] == Begin(p, LogoutLookup(a.row))
    ensures Calls(states, events, a.key, p, LogoutDelete(a.row))
    ensures a.row in states[a.key].issued ==> a.row !in states[k].store
  {
    a := EveryRequestTold(states, events, j, p);
    NotYetActing(states, events, a.begin, p);
    if a.row in states[a.key].issued { LogoutIsFinal(states, events, a.key, p, a.row, k); }
  }

  /** RevokeSession deletes a session of the caller with the id asked for and nothing else, for
      good. */
  lemma RevokeIsFinal(states: seq<State>, events: seq<Event>, i: nat, p: Pid, user: string, id: string, k: nat, h: Hash)
    requires Run(states, events) && i < k < |states| && h in states[i].store
    requires Calls(states, events, i, p, RevokeDelete(user, id)) && events[i].c.ok
    ensures Owns(states[i].store, user, id, h) ==> h !in states[k].store
    ensures !Owns(states[i].store, user, id, h) ==>
              h in states[i + 1].store && states[i + 1].store[h] == states[i].store[h]
  {
    Reachable(states, events, i);
    assert IsIssued(states[i].issued, h, states[i].store[h]);
    MatchingOwned(states[i].store, user, id, events[i].c.order);
    RunGrows(states, events, i, i + 1);
    RunGrows(states, events, i + 1, k);
  }
}
