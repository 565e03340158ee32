/**
 What every step of the session protocol keeps: rows and cache entries agree with the issue
 history, rotation chains are linear and keep their owner, and every request's local
 variables agree with the history, however stale the cache entry they came from.
 */
module SessionInvariant {
  import opened Prelude
  import opened SessionCache
  import opened Sessions
  import opened SessionProtocol

  /** The hash a request has drawn but not yet stored. */
  function Pending(pc: Pc): Option<Hash> {
    match pc
    case LoginCreate(hash, _, _, _) => Some(hash)
    case RefreshRotate(_, _, hash, _, _, _) => Some(hash)
    case _ => None
  }

  function SpentBy(reply: Reply): Option<Hash> {
    if reply.Refreshed? then Some(reply.spent) else None
  }

  /** The token a request has successfully redeemed, from the rotation to its answer. */
  function Redeemed(pc: Pc): Option<Hash> {
    match pc
    case RefreshEvict(spent, _, _) => Some(spent)
    case CacheMeasure(_, _, reply) => SpentBy(reply)
    case CacheSet(_, _, _, reply) => SpentBy(reply)
    case Evict(_, reply) => SpentBy(reply)
    case Done(reply) => SpentBy(reply)
    case _ => None
  }

  predicate IsIssued(issued: History, h: Hash, sess: Session) {
    h in issued && issued[h].sess == sess
  }

  predicate IsChild(issued: History, h: Hash, parent: Hash) {
    h in issued && issued[h].parent == Some(parent)
  }

  predicate ReplyOk(issued: History, reply: Reply) {
    reply.Refreshed? ==> IsChild(issued, reply.hash, reply.spent)
  }

  /** What a request at `pc` may rely on, at every moment until its next call. */
  predicate PcOk(s: State, pc: Pc) {
    match pc
    case LoginCreate(hash, _, _, _) => hash in s.drawn && hash !in s.issued
    case RefreshLookup(_, _, start) => start <= s.now
    case RefreshLoad(_, _, start) => start <= s.now
    case RefreshCheck(spent, _, start, found) => start <= s.now && IsIssued(s.issued, spent, found)
    case RefreshGenerate(spent, _, start, found) =>
      start <= found.expiry && IsIssued(s.issued, spent, found)
    case RefreshRotate(spent, start, hash, user, _, _) =>
      && hash in s.drawn && hash !in s.issued
      && spent in s.issued && s.issued[spent].sess.user == user
      && start <= s.issued[spent].sess.expiry
    case RefreshEvict(spent, hash, sess) => IsIssued(s.issued, hash, sess) && IsChild(s.issued, hash, spent)
    case CacheMeasure(hash, sess, reply) => IsIssued(s.issued, hash, sess) && ReplyOk(s.issued, reply)
    case CacheSet(hash, sess, _, reply) => IsIssued(s.issued, hash, sess) && ReplyOk(s.issued, reply)
    case Evict(_, reply) => ReplyOk(s.issued, reply)
    case Done(reply) => ReplyOk(s.issued, reply)
    case _ => true
  }

  /** Issued tokens were drawn at random before, under session ids of their own. */
  ghost predicate Recorded(issued: History, drawn: set<Hash>, ids: set<string>) {
    && (forall h :: h in issued ==>
          h in drawn && issued[h].sess.id in ids && issued[h].born < |issued|)
    && (forall h, k :: h in issued && k in issued && issued[h].sess.id == issued[k].sess.id ==> h == k)
  }

  /** A parent was issued earlier, to the same user, and is stored no more. */
  ghost predicate Descends(issued: History, store: Table) {
    forall h, p :: IsChild(issued, h, p) ==>
      && p in issued && p !in store
      && issued[p].born < issued[h].born
      && issued[p].sess.user == issued[h].sess.user
  }

  /** No token has two children. */
  ghost predicate Unbranched(issued: History) {
    forall h, k, p :: IsChild(issued, h, p) && IsChild(issued, k, p) ==> h == k
  }

  ghost predicate HistoryOk(issued: History, drawn: set<Hash>, ids: set<string>, store: Table) {
    Recorded(issued, drawn, ids) && Descends(issued, store) && Unbranched(issued)
  }

  /** Rows and cache entries carry exactly what their token was issued with. */
  ghost predicate CopiesOk(issued: History, store: Table, cache: CacheMap) {
    && (forall h :: h in store ==> IsIssued(issued, h, store[h]))
    && (forall h :: h in cache ==> IsIssued(issued, h, cache[h].sess))
  }

  predicate Apart(a: Option<Hash>, b: Option<Hash>) {
    a.Some? ==> a != b
  }

  /** No two requests hold the same fresh hash, and no two have redeemed the same token. */
  ghost predicate ProcsApart(procs: map<Pid, Pc>) {
    forall p, q :: p in procs && q in procs && p != q ==>
      Apart(Pending(procs[p]), Pending(procs[q])) && Apart(Redeemed(procs[p]), Redeemed(procs[q]))
  }

  ghost predicate ProcsOk(s: State) {
    forall p :: p in s.procs ==> PcOk(s, s.procs[p])
  }

  ghost predicate Inv(s: State) {
    && "" !in s.drawn
    && HistoryOk(s.issued, s.drawn, s.ids, s.store)
    && CopiesOk(s.issued, s.store, s.cache)
    && ProcsOk(s)
    && ProcsApart(s.procs)
  }

  /** Time, randomness and history only grow, and rows appear only for newly issued tokens. */
  ghost predicate Grows(s: State, s': State) {
    && s.now <= s'.now && s.refreshTTL == s'.refreshTTL
    && s.drawn <= s'.drawn && s.ids <= s'.ids
    && (forall h :: h in s.issued ==> h in s'.issued && s'.issued[h] == s.issued[h])
    && (forall h :: h in s'.store ==> (h in s.store && s'.store[h] == s.store[h]) || h !in s.issued)
  }

  /** A request keeps what it relies on while others move, as long as nobody stores its hash. */
  lemma PcStays(s: State, s': State, pc: Pc)
    requires PcOk(s, pc) && Grows(s, s')
    requires Pending(pc).Some? ==> Pending(pc).value !in s'.issued
    ensures PcOk(s', pc)
  {
  }

  /** A call that issues nothing: rows and cache entries may go, and known entries may be
      cached. */
  ghost predicate Quiet(s: State, s': State) {
    && s' == s.(cache := s'.cache, store := s'.store, drawn := s'.drawn)
    && "" !in s'.drawn && s.drawn <= s'.drawn
    && (forall h :: h in s'.store ==> h in s.store && s'.store[h] == s.store[h])
    && (forall h :: h in s'.cache ==> IsIssued(s.issued, h, s'.cache[h].sess))
  }

  /** The new program counter redeems nothing new and holds no hash of another request. */
  predicate Continues(s: State, pc: Pc, pc': Pc) {
    && (Redeemed(pc') == None || Redeemed(pc') == Redeemed(pc))
    && (Pending(pc').Some? ==> Pending(pc').value !in s.drawn)
  }

  lemma ApartKept(s: State, p: Pid, pc': Pc)
    requires Inv(s) && p in s.procs && Continues(s, s.procs[p], pc')
    ensures ProcsApart(s.procs[p := pc'])
  {
    var procs' := s.procs[p := pc'];
    forall q | q in s.procs && q != p
      ensures Apart(Pending(pc'), Pending(s.procs[q])) && Apart(Pending(s.procs[q]), Pending(pc'))
    {
      assert PcOk(s, s.procs[q]);
    }
  }

  lemma QuietKeeps(s: State, s': State, p: Pid, pc': Pc)
    requires Inv(s) && p in s.procs && Quiet(s, s')
    requires PcOk(s', pc') && Continues(s, s.procs[p], pc')
    ensures Inv(s'.(procs := s.procs[p := pc'])) && Grows(s, s'.(procs := s.procs[p := pc']))
  {
    var t := s'.(procs := s.procs[p := pc']);
    ApartKept(s, p, pc');
    forall q | q in t.procs ensures PcOk(t, t.procs[q]) {
      if q != p { PcStays(s, t, s.procs[q]); }
    }
  }

  lemma OneMore(issued: History, hash: Hash, issue: Issue)
    requires hash !in issued
    ensures |issued[hash := issue]| == |issued| + 1
  {
    var issued' := issued[hash := issue];
    assert issued'.Keys == issued.Keys + {hash};
    assert |issued'| == |issued'.Keys|;
  }

  lemma RecordGrows(issued: History, drawn: set<Hash>, ids: set<string>, hash: Hash, issue: Issue)
    requires Recorded(issued, drawn, ids) && hash in drawn && hash !in issued
    requires issue.sess.id !in ids && issue.born == |issued|
    ensures Recorded(issued[hash := issue], drawn, ids + {issue.sess.id})
  {
    OneMore(issued, hash, issue);
  }

  lemma DescentGrows(issued: History, store: Table, hash: Hash, issue: Issue, store': Table)
    requires Descends(issued, store) && hash !in issued
    requires issue.parent.Some? ==>
               && issue.parent.value in issued && issue.parent.value !in store'
               && issued[issue.parent.value].sess.user == issue.sess.user
               && issued[issue.parent.value].born < issue.born
    requires forall h :: h in store' ==> h in store || h == hash
    ensures Descends(issued[hash := issue], store')
  {
    var issued' := issued[hash := issue];
    forall h, p | IsChild(issued', h, p)
      ensures p in issued' && p !in store' && issued'[p].born < issued'[h].born
      ensures issued'[p].sess.user == issued'[h].sess.user
    {
      if h != hash { assert IsChild(issued, h, p); }
    }
  }

  lemma StaysUnbranched(issued: History, store: Table, hash: Hash, issue: Issue)
    requires Unbranched(issued) && Descends(issued, store) && hash !in issued
    requires issue.parent.Some? ==> issue.parent.value in store
    ensures Unbranched(issued[hash := issue])
  {
    var issued' := issued[hash := issue];
    forall h, k, p | IsChild(issued', h, p) && IsChild(issued', k, p) ensures h == k {
      if h != hash { assert IsChild(issued, h, p); }
      if k != hash { assert IsChild(issued, k, p); }
    }
  }

  /** Adding a token to the history, as a login's or as the only child of a token that has
      just left the table. */
  lemma HistoryGrows(issued: History, drawn: set<Hash>, ids: set<string>, store: Table,
                     hash: Hash, sess: Session, parent: Option<Hash>, store': Table)
    requires HistoryOk(issued, drawn, ids, store)
    requires hash in drawn && hash !in issued && sess.id !in ids
    requires parent.Some? ==>
               && parent.value in issued && parent.value in store && parent.value !in store'
               && issued[parent.value].sess.user == sess.user
    requires forall h :: h in store' ==> h in store || h == hash
    ensures HistoryOk(issued[hash := Issue(sess, parent, |issued|)], drawn, ids + {sess.id}, store')
  {
    var issue := Issue(sess, parent, |issued|);
    RecordGrows(issued, drawn, ids, hash, issue);
    DescentGrows(issued, store, hash, issue, store');
    StaysUnbranched(issued, store, hash, issue);
  }

  lemma CopiesGrow(issued: History, store: Table, cache: CacheMap,
                   hash: Hash, issue: Issue, store': Table)
    requires CopiesOk(issued, store, cache) && hash !in issued
    requires forall h :: h in store' ==>
               if h == hash then store'[h] == issue.sess else h in store && store'[h] == store[h]
    ensures CopiesOk(issued[hash := issue], store', cache)
  {
    var issued' := issued[hash := issue];
    forall h | h in store' ensures IsIssued(issued', h, store'[h]) {
      if h != hash { assert IsIssued(issued, h, store[h]); }
    }
    forall h | h in cache ensures IsIssued(issued', h, cache[h].sess) {
      assert IsIssued(issued, h, cache[h].sess);
    }
  }

  /** Issuing a request's pending hash, as a login's row or as the successor of a row that
      leaves the table. */
  lemma IssueKeepsHistory(s: State, hash: Hash, sess: Session, parent: Option<Hash>, store': Table)
    requires Inv(s) && hash in s.drawn && hash !in s.issued && sess.id !in s.ids
    requires parent.Some? ==> parent.value in s.store && s.store[parent.value].user == sess.user
    requires store' == if parent.None? then s.store[hash := sess]
                       else Rotated(s.store, parent.value, hash, sess)
    ensures var s' := Issued(s.(store := store'), hash, sess, parent);
            && HistoryOk(s'.issued, s'.drawn, s'.ids, s'.store)
            && CopiesOk(s'.issued, s'.store, s'.cache)
            && Grows(s, s')
  {
    CopiesGrow(s.issued, s.store, s.cache, hash, Issue(sess, parent, |s.issued|), store');
    assert parent.Some? ==> IsIssued(s.issued, parent.value, s.store[parent.value]);
    HistoryGrows(s.issued, s.drawn, s.ids, s.store, hash, sess, parent, store');
  }

  lemma IssueKeeps(s: State, p: Pid, sess: Session, parent: Option<Hash>, store': Table, pc': Pc)
    requires Inv(s) && p in s.procs && sess.id !in s.ids
    requires Pending(s.procs[p]).Some?
    requires parent.Some? ==> parent.value in s.store && s.store[parent.value].user == sess.user
    requires store' == if parent.None? then s.store[Pending(s.procs[p]).value := sess]
                       else Rotated(s.store, parent.value, Pending(s.procs[p]).value, sess)
    requires Pending(pc') == None && Redeemed(pc') == parent
    requires PcOk(Issued(s.(store := store'), Pending(s.procs[p]).value, sess, parent), pc')
    ensures var s' := Issued(s.(store := store'), Pending(s.procs[p]).value, sess, parent);
            var t := s'.(procs := s.procs[p := pc']);
            Inv(t) && Grows(s, t)
  {
    var hash := Pending(s.procs[p]).value;
    var s' := Issued(s.(store := store'), hash, sess, parent);
    assert PcOk(s, s.procs[p]);
    IssueKeepsHistory(s, hash, sess, parent, store');
    OthersStay(s, s', p, pc');
    RedeemerIsAlone(s, p, parent, pc');
  }

  /** The other requests are not disturbed by one that stores its own pending hash. */
  lemma OthersStay(s: State, s': State, p: Pid, pc': Pc)
    requires ProcsOk(s) && ProcsApart(s.procs) && p in s.procs && Grows(s, s') && PcOk(s', pc')
    requires Pending(s.procs[p]).Some? && s'.issued.Keys == s.issued.Keys + {Pending(s.procs[p]).value}
    ensures ProcsOk(s'.(procs := s.procs[p := pc']))
  {
    var t := s'.(procs := s.procs[p := pc']);
    forall q | q in t.procs ensures PcOk(t, t.procs[q]) {
      if q != p {
        assert Apart(Pending(s.procs[p]), Pending(s.procs[q]));
        PcStays(s, t, s.procs[q]);
      }
    }
  }

  /** Whoever redeems a stored token is the only request to have redeemed it. */
  lemma RedeemerIsAlone(s: State, p: Pid, parent: Option<Hash>, pc': Pc)
    requires ProcsOk(s) && ProcsApart(s.procs) && Descends(s.issued, s.store) && p in s.procs
    requires parent.Some? ==> parent.value in s.store
    requires Pending(pc') == None && Redeemed(pc') == parent
    ensures ProcsApart(s.procs[p := pc'])
  {
    forall q | q in s.procs && q != p ensures Apart(parent, Redeemed(s.procs[q])) {
      assert PcOk(s, s.procs[q]);
    }
  }

  /** A call that stores the request's pending hash. */
  predicate Issues(s: State, pc: Pc, c: Choice) {
    c.ok && (pc.LoginCreate? || (pc.RefreshRotate? && pc.spent in s.store))
  }

  /** What a call may rely on, apart from the shape of the history. */
  ghost predicate CallReady(s: State, pc: Pc, c: Choice) {
    && "" !in s.drawn && (DrawsHash(pc) ==> c.hash != "" && c.hash !in s.drawn)
    && (forall h :: h in s.issued ==> h in s.drawn)
    && CopiesOk(s.issued, s.store, s.cache) && PcOk(s, pc)
  }

  /** A call that issues nothing is quiet and leads to a program counter whose expectations
      hold. */
  ghost predicate QuietCall(s: State, pc: Pc, r: (State, Pc)) {
    Quiet(s, r.0) && PcOk(r.0, r.1) && Continues(s, pc, r.1)
  }

  lemma LoginIsQuiet(s: State, pc: Pc, c: Choice)
    requires CallReady(s, pc, c) && InLogin(pc) && !Issues(s, pc, c)
    ensures QuietCall(s, pc, LoginCall(s, pc, c))
  {
  }

  lemma RefreshIsQuiet(s: State, pc: Pc, c: Choice)
    requires CallReady(s, pc, c) && InRefresh(pc) && !Issues(s, pc, c)
    ensures QuietCall(s, pc, RefreshCall(s, pc, c))
  {
  }

  lemma RevokeIsQuiet(s: State, pc: Pc, c: Choice)
    requires CallReady(s, pc, c) && InRevoke(pc)
    ensures QuietCall(s, pc, RevokeCall(s, pc, c))
  {
  }

  lemma CacheIsQuiet(s: State, pc: Pc, c: Choice)
    requires CallReady(s, pc, c) && !InLogin(pc) && !InRefresh(pc) && !InRevoke(pc)
    ensures QuietCall(s, pc, CacheCall(s, pc, c))
  {
  }

  lemma CallIsQuiet(s: State, pc: Pc, c: Choice)
    requires CallReady(s, pc, c) && !Issues(s, pc, c)
    ensures QuietCall(s, pc, Call(s, pc, c))
  {
    if InLogin(pc) { LoginIsQuiet(s, pc, c); }
    else if InRefresh(pc) { RefreshIsQuiet(s, pc, c); }
    else if InRevoke(pc) { RevokeIsQuiet(s, pc, c); }
    else { CacheIsQuiet(s, pc, c); }
  }

  lemma CreateKeeps(s: State, p: Pid, c: Choice)
    requires Inv(s) && Enabled(s, Act(p, c)) && s.procs[p].LoginCreate? && c.ok
    ensures Inv(Apply(s, Act(p, c))) && Grows(s, Apply(s, Act(p, c)))
  {
    var (s', pc') := LoginCall(s, s.procs[p], c);
    IssueKeeps(s, p, pc'.sess, None, s'.store, pc');
  }

  lemma RotateKeeps(s: State, p: Pid, c: Choice)
    requires Inv(s) && Enabled(s, Act(p, c)) && s.procs[p].RefreshRotate? && c.ok
    requires s.procs[p].spent in s.store
    ensures Inv(Apply(s, Act(p, c))) && Grows(s, Apply(s, Act(p, c)))
  {
    var pc := s.procs[p];
    var (s', pc') := RefreshCall(s, pc, c);
    assert PcOk(s, pc) && IsIssued(s.issued, pc.spent, s.store[pc.spent]);
    IssueKeeps(s, p, pc'.sess, Some(pc.spent), s'.store, pc');
  }

  lemma ActKeeps(s: State, p: Pid, c: Choice)
    requires Inv(s) && Enabled(s, Act(p, c))
    ensures Inv(Apply(s, Act(p, c))) && Grows(s, Apply(s, Act(p, c)))
  {
    if Issues(s, s.procs[p], c) {
      if s.procs[p].LoginCreate? { CreateKeeps(s, p, c); } else { RotateKeeps(s, p, c); }
    } else {
      CallIsQuiet(s, s.procs[p], c);
      QuietKeeps(s, Call(s, s.procs[p], c).0, p, Call(s, s.procs[p], c).1);
    }
  }

  lemma OutsideKeeps(s: State, e: Event)
    requires Inv(s) && Enabled(s, e) && !e.Act?
    ensures Inv(Apply(s, e)) && Grows(s, Apply(s, e))
  {
    match e
    case Tick(now) => TickKeeps(s, now);
    case Drop(hash) => DropKeeps(s, hash);
    case Begin(p, pc) => BeginKeeps(s, p, pc);
  }

  lemma TickKeeps(s: State, now: Time)
    requires Inv(s) && s.now <= now
    ensures Inv(s.(now := now)) && Grows(s, s.(now := now))
  {
    var t := s.(now := now);
    forall q | q in s.procs ensures PcOk(t, s.procs[q]) {
      PcStays(s, t, s.procs[q]);
    }
  }

  lemma DropKeeps(s: State, hash: Hash)
    requires Inv(s)
    ensures var t := s.(cache := s.cache - {hash});
            Inv(t) && Grows(s, t)
  {
    var t := s.(cache := s.cache - {hash});
    forall q | q in s.procs ensures PcOk(t, s.procs[q]) {
      PcStays(s, t, s.procs[q]);
    }
  }

  lemma BeginKeeps(s: State, p: Pid, pc: Pc)
    requires Inv(s) && p !in s.procs && IsEntry(s, pc)
    ensures var t := s.(procs := s.procs[p := pc]);
            Inv(t) && Grows(s, t)
  {
    var t := s.(procs := s.procs[p := pc]);
    forall q | q in s.procs ensures PcOk(t, s.procs[q]) {
      PcStays(s, t, s.procs[q]);
    }
  }

  lemma StepKeeps(s: State, e: Event)
    requires Inv(s) && Enabled(s, e)
    ensures Inv(Apply(s, e)) && Grows(s, Apply(s, e))
  {
    if e.Act? {
      ActKeeps(s, e.p, e.c);
    } else {
      OutsideKeeps(s, e);
    }
  }

  /** Every state of every run satisfies the invariant. */
  lemma {:induction false} Reachable(states: seq<State>, events: seq<Event>, i: nat)
    requires Run(states, events) && i < |states|
    ensures Inv(states[i])
  {
    if i > 0 {
      Reachable(states, events, i - 1);
      StepKeeps(states[i - 1], events[i - 1]);
    }
  }

  /** The history only grows along a run. */
  lemma {:induction false} RunGrows(states: seq<State>, events: seq<Event>, i: nat, j: nat)
    requires Run(states, events) && i <= j < |states|
    ensures states[i].issued.Keys <= states[j].issued.Keys
    ensures forall h :: h in states[i].issued ==> states[j].issued[h] == states[i].issued[h]
    ensures forall h :: h in states[i].issued && h !in states[i].store ==> h !in states[j].store
    decreases j - i
  {
    if i < j {
      RunGrows(states, events, i, j - 1);
      Reachable(states, events, j - 1);
      StepKeeps(states[j - 1], events[j - 1]);
    }
  }
}
