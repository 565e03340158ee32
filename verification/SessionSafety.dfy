/** Safety of the session protocol over whole runs, in every interleaving. */
module SessionSafety {
  import opened Prelude
  import opened Sessions
  import opened SessionProtocol
  import opened SessionInvariant
  import opened SessionLineage

  /** The step redeems refresh token `h`: RotateToken succeeds on it. */
  predicate Redeems(s: State, e: Event, h: Hash) {
    && e.Act? && e.p in s.procs && s.procs[e.p].RefreshRotate?
    && s.procs[e.p].spent == h && e.c.ok && h in s.store
  }

  /** The step stores the first session of a login. */
  predicate Creates(s: State, e: Event, h: Hash) {
    && e.Act? && e.p in s.procs && s.procs[e.p].LoginCreate?
    && s.procs[e.p].hash == h && e.c.ok
  }

  /** The step is the bulk delete of a LogoutAll, ChangePassword or ResetPassword. */
  predicate Revokes(s: State, e: Event, user: string, keep: Hash) {
    && e.Act? && e.p in s.procs && s.procs[e.p].BulkDelete?
    && s.procs[e.p].user == user && s.procs[e.p].keep == keep && e.c.ok
  }

  lemma RunFounded(states: seq<State>, events: seq<Event>, i: nat)
    requires Run(states, events) && i < |states|
    ensures Founded(states[i].issued)
  {
    Reachable(states, events, i);
  }

  /** Whatever request, logout, revocation or expiry removed a row, its token is never stored
      again and never redeemed later. */
  lemma NeverRedeemedAfterRemoval(states: seq<State>, events: seq<Event>, i: nat, j: nat, h: Hash)
    requires Run(states, events) && i < j < |events|
    requires h in states[i].store && h !in states[i + 1].store
    ensures h !in states[j].store && !Redeems(states[j], events[j], h)
  {
    Reachable(states, events, i);
    assert IsIssued(states[i].issued, h, states[i].store[h]);
    RunGrows(states, events, i, i + 1);
    RunGrows(states, events, i + 1, j);
  }

  /** Each refresh token is redeemed at most once in a run. */
  lemma RedeemedAtMostOnce(states: seq<State>, events: seq<Event>, i: nat, j: nat, h: Hash)
    requires Run(states, events) && i < |events| && j < |events|
    requires Redeems(states[i], events[i], h) && Redeems(states[j], events[j], h)
    ensures i == j
  {
    if i != j {
      var first, second := if i < j then i else j, if i < j then j else i;
      Reachable(states, events, first);
      var pc := states[first].procs[events[first].p];
      assert PcOk(states[first], pc);
      NeverRedeemedAfterRemoval(states, events, first, second, h);
    }
  }

  lemma RefreshRedeems(s: State, pc: Pc, c: Choice)
    requires InRefresh(pc)
    ensures Redeemed(RefreshCall(s, pc, c).1)
         == if pc.RefreshRotate? && c.ok && pc.spent in s.store then Some(pc.spent) else Redeemed(pc)
  {
  }

  lemma OthersRedeemNothing(s: State, pc: Pc, c: Choice)
    requires !InRefresh(pc)
    ensures Redeemed(Call(s, pc, c).1) == Redeemed(pc)
  {
  }

  /** A call changes what its request has redeemed only by redeeming. */
  lemma CallRedeems(s: State, pc: Pc, c: Choice)
    ensures Redeemed(Call(s, pc, c).1)
         == if pc.RefreshRotate? && c.ok && pc.spent in s.store then Some(pc.spent) else Redeemed(pc)
  {
    if InRefresh(pc) { RefreshRedeems(s, pc, c); } else { OthersRedeemNothing(s, pc, c); }
  }

  lemma RedeemedStep(s: State, e: Event, p: Pid, h: Hash)
    requires Enabled(s, e) && p in Apply(s, e).procs
    ensures Redeemed(Apply(s, e).procs[p]) == Some(h) <==>
              || (p in s.procs && Redeemed(s.procs[p]) == Some(h))
              || (e.Act? && e.p == p && Redeems(s, e, h))
  {
    if e.Act? { CallRedeems(s, s.procs[e.p], e.c); }
  }

  /** A call adds to the history only by creating a login's session or by rotating. */
  lemma CallIssues(s: State, pc: Pc, c: Choice, h: Hash)
    requires h !in s.issued && h in Call(s, pc, c).0.issued
    ensures c.ok && Pending(pc) == Some(h)
    ensures Call(s, pc, c).0.issued[h].parent
         == if pc.LoginCreate? then None else Some(pc.spent)
    ensures pc.RefreshRotate? ==> pc.spent in s.store
  {
  }

  /** A request holds or has given the answer "refreshed" for `h` exactly when it made the
      step that redeemed `h`. */
  lemma {:induction false} AnswersAreRedemptions(states: seq<State>, events: seq<Event>, i: nat, p: Pid, h: Hash)
    requires Run(states, events) && i < |states| && p in states[i].procs
    ensures Redeemed(states[i].procs[p]) == Some(h) <==>
              exists k :: 0 <= k < i && Redeems(states[k], events[k], h) && events[k].p == p
  {
    if i > 0 {
      var s, e := states[i - 1], events[i - 1];
      Reachable(states, events, i - 1);
      RedeemedStep(s, e, p, h);
      if p in s.procs {
        AnswersAreRedemptions(states, events, i - 1, p, h);
      } else {
        NotYetActing(states, events, i - 1, p);
      }
    }
  }

  /** A request that has not begun has made no step. */
  lemma {:induction false} NotYetActing(states: seq<State>, events: seq<Event>, i: nat, p: Pid)
    requires Run(states, events) && i < |states| && p !in states[i].procs
    ensures forall k :: 0 <= k < i && events[k].Act? ==> events[k].p != p
  {
    if i > 0 {
      NotYetActing(states, events, i - 1, p);
    }
  }

  /** Hence at most one request is ever answered with the successor of a given token. */
  lemma OneAnswerPerToken(states: seq<State>, events: seq<Event>, i: nat, p: Pid, q: Pid, h: Hash)
    requires Run(states, events) && i < |states| && p in states[i].procs && q in states[i].procs
    requires states[i].procs[p].Done? && states[i].procs[q].Done?
    requires SpentBy(states[i].procs[p].reply) == SpentBy(states[i].procs[q].reply) == Some(h)
    ensures p == q
  {
    Reachable(states, events, i);
  }

  /** At any moment a login has at most one stored session, however often it was refreshed. */
  lemma OneSessionPerLogin(states: seq<State>, events: seq<Event>, i: nat, h: Hash, k: Hash)
    requires Run(states, events) && i < |states| && h in states[i].store && k in states[i].store
    requires Founded(states[i].issued) && h in states[i].issued && k in states[i].issued
    requires Root(states[i].issued, h) == Root(states[i].issued, k)
    ensures h == k
  {
    var s := states[i];
    Reachable(states, events, i);
    NoBranching(s, h, k);
    if h != k {
      if h in Lineage(s.issued, k) { var _ := AncestorSpent(s, k, h); }
      else { var _ := AncestorSpent(s, h, k); }
    }
  }

  /** Every cache entry, stale or not, carries the session its token was issued with, and so
      does every row; a token's whole rotation chain belongs to one user. */
  lemma CopiesAgreeWithHistory(states: seq<State>, events: seq<Event>, i: nat, h: Hash)
    requires Run(states, events) && i < |states|
    ensures Founded(states[i].issued)
    ensures h in states[i].cache ==> IsIssued(states[i].issued, h, states[i].cache[h].sess)
    ensures h in states[i].store ==> IsIssued(states[i].issued, h, states[i].store[h])
    ensures h in states[i].issued ==>
              forall a :: a in Lineage(states[i].issued, h) ==>
                a in states[i].issued
                && states[i].issued[a].sess.user == states[i].issued[h].sess.user
  {
    Reachable(states, events, i);
    if h in states[i].issued {
      forall a | a in Lineage(states[i].issued, h)
        ensures a in states[i].issued
        ensures states[i].issued[a].sess.user == states[i].issued[h].sess.user
      {
        OneOwner(states[i], h, a);
      }
    }
  }

  /** The request is a refresh of `h` begun at `start` that has not redeemed anything. */
  predicate Refreshing(pc: Pc, h: Hash, start: Time) {
    match pc
    case RefreshLookup(spent, _, at) => spent == h && at == start
    case RefreshLoad(spent, _, at) => spent == h && at == start
    case RefreshCheck(spent, _, at, _) => spent == h && at == start
    case RefreshGenerate(spent, _, at, _) => spent == h && at == start
    case RefreshRotate(spent, at, _, _, _, _) => spent == h && at == start
    case ExpiredDelete(_) => true
    case Evict(_, reply) => reply.Failed?
    case Done(reply) => reply.Failed?
    case _ => false
  }

  lemma RefreshingCall(s: State, pc: Pc, c: Choice, h: Hash, start: Time)
    requires Refreshing(pc, h, start) && PcOk(s, pc)
    requires h in s.issued ==> start > s.issued[h].sess.expiry
    ensures Refreshing(Call(s, pc, c).1, h, start)
  {
  }

  lemma RefreshingStep(s: State, e: Event, p: Pid, h: Hash, start: Time)
    requires Enabled(s, e) && p in s.procs && Refreshing(s.procs[p], h, start) && ProcsOk(s)
    requires h in s.issued ==> start > s.issued[h].sess.expiry
    ensures p in Apply(s, e).procs && Refreshing(Apply(s, e).procs[p], h, start)
  {
    if e.Act? && e.p == p { RefreshingCall(s, s.procs[p], e.c, h, start); }
  }

  lemma RefreshingBegins(states: seq<State>, events: seq<Event>, i: nat)
    requires Run(states, events) && i < |events| && events[i].Begin? && events[i].pc.RefreshLookup?
    ensures events[i].p in states[i + 1].procs
    ensures Refreshing(states[i + 1].procs[events[i].p], events[i].pc.spent, states[i].now)
    ensures !states[i + 1].procs[events[i].p].Done?
  {
  }

  /** A token that has expired by its history had expired by its earlier history. */
  lemma ExpiredBefore(states: seq<State>, events: seq<Event>, j: nat, h: Hash, now: Time)
    requires Run(states, events) && j < |events|
    requires h in states[j + 1].issued ==> now > states[j + 1].issued[h].sess.expiry
    ensures h in states[j].issued ==> now > states[j].issued[h].sess.expiry
  {
    RunGrows(states, events, j, j + 1);
  }

  lemma RefreshingNext(states: seq<State>, events: seq<Event>, j: nat, p: Pid, h: Hash, start: Time)
    requires Run(states, events) && j < |events| && p in states[j].procs && Refreshing(states[j].procs[p], h, start)
    requires h in states[j].issued ==> start > states[j].issued[h].sess.expiry
    ensures p in states[j + 1].procs && Refreshing(states[j + 1].procs[p], h, start)
  {
    Reachable(states, events, j);
    RefreshingStep(states[j], events[j], p, h, start);
  }

  /** A refresh that starts after its token's expiry never succeeds, whether the cache or the
      store answers it, and however long it stays in flight. */
  lemma {:induction false} LateRefreshFails(states: seq<State>, events: seq<Event>, i: nat, j: nat, p: Pid, h: Hash)
    requires Run(states, events) && i < j < |states|
    requires events[i].Begin? && events[i].p == p && events[i].pc.RefreshLookup?
    requires events[i].pc.spent == h
    requires h in states[j].issued ==> states[i].now > states[j].issued[h].sess.expiry
    ensures p in states[j].procs && Refreshing(states[j].procs[p], h, states[i].now)
    ensures states[j].procs[p].Done? ==> states[j].procs[p].reply.Failed?
  {
    if j == i + 1 {
      RefreshingBegins(states, events, i);
    } else {
      ExpiredBefore(states, events, j - 1, h, states[i].now);
      LateRefreshFails(states, events, i, j - 1, p, h);
      RefreshingNext(states, events, j - 1, p, h, states[i].now);
    }
  }

  /** Stored sessions of `user` have either no ancestor among `before`, or pass through `keep`. */
  ghost predicate Cleared(s: State, user: string, keep: Hash, before: set<Hash>)
    requires Founded(s.issued)
  {
    forall h :: h in s.store && h in s.issued && s.store[h].user == user ==>
      Lineage(s.issued, h) !! before || keep in Lineage(s.issued, h)
  }

  lemma ClearedStep(s: State, e: Event, user: string, keep: Hash, before: set<Hash>)
    requires Inv(s) && Enabled(s, e) && before <= s.issued.Keys
    requires Founded(s.issued) && Founded(Apply(s, e).issued)
    requires Cleared(s, user, keep, before)
    ensures Cleared(Apply(s, e), user, keep, before)
  {
    var t := Apply(s, e);
    StepKeeps(s, e);
    forall h | h in t.store && h in t.issued && t.store[h].user == user
      ensures Lineage(t.issued, h) !! before || keep in Lineage(t.issued, h)
    {
      if h in s.issued {
        LineageStable(s.issued, t.issued, h);
      } else if t.issued[h].parent.Some? {
        CallIssues(s, s.procs[e.p], e.c, h);
        var p := t.issued[h].parent.value;
        assert IsIssued(s.issued, p, s.store[p]);
        assert IsChild(t.issued, h, p);
        LineageStable(s.issued, t.issued, p);
      }
    }
  }

  lemma ClearedNext(states: seq<State>, events: seq<Event>, i: nat,
                    user: string, keep: Hash, before: set<Hash>)
    requires Run(states, events) && i < |events| && before <= states[i].issued.Keys
    requires Founded(states[i].issued) && Cleared(states[i], user, keep, before)
    ensures Founded(states[i + 1].issued) && Cleared(states[i + 1], user, keep, before)
  {
    Reachable(states, events, i);
    RunFounded(states, events, i + 1);
    ClearedStep(states[i], events[i], user, keep, before);
  }

  lemma RevocationClears(s: State, e: Event, user: string, keep: Hash)
    requires Revokes(s, e, user, keep) && Founded(s.issued)
    ensures Apply(s, e).issued == s.issued
    ensures forall h :: h in Apply(s, e).store && s.store[h].user == user ==> h == keep
    ensures Cleared(Apply(s, e), user, keep, s.issued.Keys)
  {
  }

  lemma RevocationClearsRun(states: seq<State>, events: seq<Event>, i: nat, user: string, keep: Hash)
    requires Run(states, events) && i < |events| && Revokes(states[i], events[i], user, keep)
    ensures Founded(states[i + 1].issued) && Cleared(states[i + 1], user, keep, states[i].issued.Keys)
  {
    RunFounded(states, events, i);
    RevocationClears(states[i], events[i], user, keep);
  }

  /** After the bulk delete of `user`, every later session of theirs descends only from tokens
      issued after it, unless its chain passes through the session the delete kept. */
  lemma {:induction false} NoChainSurvives(states: seq<State>, events: seq<Event>, i: nat, j: nat,
                                           user: string, keep: Hash)
    requires Run(states, events) && i < j < |states|
    requires Revokes(states[i], events[i], user, keep)
    ensures Founded(states[j].issued)
    ensures Cleared(states[j], user, keep, states[i].issued.Keys)
  {
    if j == i + 1 {
      RevocationClearsRun(states, events, i, user, keep);
    } else {
      NoChainSurvives(states, events, i, j - 1, user, keep);
      RunGrows(states, events, i, j - 1);
      ClearedNext(states, events, j - 1, user, keep, states[i].issued.Keys);
    }
  }

  /** A token that was not issued at one moment and was at a later one was issued by a step in
      between. */
  lemma {:induction false} IssuedBetween(states: seq<State>, i: nat, j: nat, r: Hash) returns (k: nat)
    requires i <= j < |states| && r !in states[i].issued && r in states[j].issued
    ensures i <= k < j && r !in states[k].issued && r in states[k + 1].issued
    decreases j - i
  {
    if r in states[j - 1].issued { k := IssuedBetween(states, i, j - 1, r); } else { k := j - 1; }
  }

  lemma CreatedAt(states: seq<State>, events: seq<Event>, k: nat, r: Hash)
    requires Run(states, events) && k < |events|
    requires r !in states[k].issued && r in states[k + 1].issued && states[k + 1].issued[r].parent == None
    ensures Creates(states[k], events[k], r)
  {
    CallIssues(states[k], states[k].procs[events[k].p], events[k].c, r);
  }

  /** A parentless token that entered the history between two moments was created by a login
      in between. */
  lemma LoginBetween(states: seq<State>, events: seq<Event>, i: nat, j: nat, r: Hash) returns (k: nat)
    requires Run(states, events) && i <= j < |states|
    requires r !in states[i].issued && r in states[j].issued && states[j].issued[r].parent == None
    ensures i <= k < j && Creates(states[k], events[k], r)
  {
    k := IssuedBetween(states, i, j, r);
    RunGrows(states, events, k + 1, j);
    CreatedAt(states, events, k, r);
  }

  /** After LogoutAll or ResetPassword, each stored session of the user goes back to a login
      whose Create step came after the bulk delete. */
  lemma OnlyLaterLoginsSurvive(states: seq<State>, events: seq<Event>, i: nat, j: nat, user: string, h: Hash)
    requires Run(states, events) && i < j < |states|
    requires Revokes(states[i], events[i], user, "")
    requires h in states[j].store && states[j].store[h].user == user
    ensures Founded(states[j].issued) && h in states[j].issued
    ensures Lineage(states[j].issued, h) !! states[i].issued.Keys
    ensures exists k :: i < k < j && Creates(states[k], events[k], Root(states[j].issued, h))
  {
    Reachable(states, events, j);
    assert IsIssued(states[j].issued, h, states[j].store[h]);
    NoChainSurvives(states, events, i, j, user, "");
    LineageStable(states[j].issued, states[j].issued, h);
    assert "" !in states[j].issued;
    var r := Root(states[j].issued, h);
    assert states[i + 1].issued == states[i].issued;
    var k := LoginBetween(states, events, i + 1, j, r);
  }
}
