/** Every request of the session protocol ends, after a bounded number of its own calls. */
module SessionProgress {
  import opened Prelude
  import opened Sessions
  import opened SessionProtocol

  /** How far a request still has to go, apart from the cache entries it has yet to evict. */
  function Stage(pc: Pc): nat {
    match pc
    case Done(_) => 0
    case Evict(_, _) => 1
    case CacheSet(_, _, _, _) => 1
    case CacheMeasure(_, _, _) => 2
    case LoginCreate(_, _, _, _) => 3
    case LoginGenerate(_, _) => 4
    case RefreshEvict(_, _, _) => 3
    case RefreshRotate(_, _, _, _, _, _) => 4
    case ExpiredDelete(_) => 4
    case RefreshGenerate(_, _, _, _) => 5
    case RefreshCheck(_, _, _, _) => 6
    case RefreshLoad(_, _, _) => 7
    case RefreshLookup(_, _, _) => 8
    case LogoutDelete(_) => 3
    case LogoutLookup(_) => 4
    case BulkDelete(_, _, _) => 2
    case RevokeDelete(_, _) => 3
  }

  function ToEvict(pc: Pc): nat {
    if pc.Evict? then |pc.hashes| else 0
  }

  /** A bound on the calls a request has left. */
  function Left(pc: Pc): nat {
    Stage(pc) + ToEvict(pc)
  }

  /** The rows a bulk delete lists for eviction. */
  function Lists(pc: Pc, c: Choice): nat {
    if pc.BulkDelete? && c.ok then |c.order| else 0
  }

  /** A call brings its request closer to the answer. */
  ghost predicate Closer(pc: Pc, c: Choice, pc': Pc) {
    Left(pc') < Left(pc) + Lists(pc, c) && (pc.Evict? || Stage(pc') < Stage(pc))
  }

  lemma LoginCloser(s: State, pc: Pc, c: Choice)
    requires InLogin(pc)
    ensures Closer(pc, c, LoginCall(s, pc, c).1)
  {
  }

  lemma RefreshCloser(s: State, pc: Pc, c: Choice)
    requires InRefresh(pc)
    ensures Closer(pc, c, RefreshCall(s, pc, c).1)
  {
  }

  lemma RevokeCloser(s: State, pc: Pc, c: Choice)
    requires InRevoke(pc)
    ensures Closer(pc, c, RevokeCall(s, pc, c).1)
  {
  }

  lemma CacheCloser(s: State, pc: Pc, c: Choice)
    requires InCache(pc) && !pc.Done?
    ensures Closer(pc, c, CacheCall(s, pc, c).1)
  {
  }

  /** Every call, whatever the environment decides, brings its request closer to its answer. */
  lemma CallAdvances(s: State, pc: Pc, c: Choice)
    requires !pc.Done?
    ensures Closer(pc, c, Call(s, pc, c).1)
  {
    if InLogin(pc) {
      LoginCloser(s, pc, c);
    } else if InRefresh(pc) {
      RefreshCloser(s, pc, c);
    } else if InRevoke(pc) {
      RevokeCloser(s, pc, c);
    } else {
      CacheCloser(s, pc, c);
    }
  }

  /** The calls a request has made in the first steps of a run. */
  function Calls(events: seq<Event>, i: nat, p: Pid): nat
    requires i <= |events|
  {
    if i == 0 then 0
    else Calls(events, i - 1, p) + if events[i - 1].Act? && events[i - 1].p == p then 1 else 0
  }

  /** The rows it has listed for eviction. */
  function Listed(states: seq<State>, events: seq<Event>, i: nat, p: Pid): nat
    requires i <= |events| <= |states|
  {
    if i == 0 then 0
    else
      var s, e := states[i - 1], events[i - 1];
      Listed(states, events, i - 1, p)
      + if e.Act? && e.p == p && p in s.procs then Lists(s.procs[p], e.c) else 0
  }

  /** In every interleaving, a request makes at most eight calls, and one more for every row that
      its bulk delete revoked. Once it has made them all, it is answered. */
  lemma {:induction false} CallsAreBounded(states: seq<State>, events: seq<Event>, i: nat, p: Pid)
    requires Run(states, events) && i < |states|
    ensures p !in states[i].procs ==> Calls(events, i, p) == 0
    ensures p in states[i].procs ==>
              Calls(events, i, p) + Left(states[i].procs[p]) <= 8 + Listed(states, events, i, p)
    ensures Calls(events, i, p) <= 8 + Listed(states, events, i, p)
  {
    if i > 0 {
      CallsAreBounded(states, events, i - 1, p);
      var s, e := states[i - 1], events[i - 1];
      if e.Act? { CallAdvances(s, s.procs[e.p], e.c); }
    }
  }

  /** What a request lists are the rows its bulk delete revoked. */
  lemma ListsRevoked(s: State, e: Event)
    requires Enabled(s, e) && e.Act? && s.procs[e.p].BulkDelete? && e.c.ok
    ensures var pc := s.procs[e.p];
            Lists(pc, e.c) == |Revoked(s.store, pc.user, pc.keep)|
  {
    var pc := s.procs[e.p];
    EnumerationFacts(e.c.order, Revoked(s.store, pc.user, pc.keep));
  }
}
