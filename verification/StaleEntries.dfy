/**
 Stale cache entries do arise when requests interleave: a login that is overtaken between
 its store write and its cache write leaves one behind. (That they never matter is proved in
 SessionSafety and SessionCoherence.)
 */
module StaleEntries {
  import opened Prelude
  import opened Sessions
  import opened SessionCache
  import opened SessionProtocol

  /** Some run ends in state `s`. */
  ghost predicate CanReach(s: State) {
    exists states, events :: Run(states, events) && states[|events|] == s
  }

  lemma Start(s: State)
    requires Init(s)
    ensures CanReach(s)
  {
    var states: seq<State>, events: seq<Event> := [s], [];
    assert Run(states, events) && states[|events|] == s;
  }

  lemma Then(s: State, e: Event, t: State)
    requires CanReach(s) && Enabled(s, e) && t == Apply(s, e)
    ensures CanReach(t)
  {
    var states, events :| Run(states, events) && states[|events|] == s;
    var states', events' := states + [t], events + [e];
    assert Run(states', events') && states'[|events'|] == t;
  }

  /** A login that is alone and has stored nothing yet. */
  function Drawn(h: Hash, sess: Session): State {
    State(0, sess.expiry, map[], map[], map[0 := LoginCreate(h, sess.user, sess.device, sess.expiry)],
          map[], {h}, {})
  }

  lemma LoginDraws(h: Hash, sess: Session)
    requires h != ""
    ensures CanReach(Drawn(h, sess))
  {
    var s := State(0, sess.expiry, map[], map[], map[], map[], {}, {});
    Start(s);
    var t := s.(procs := map[0 := LoginGenerate(sess.user, sess.device)]);
    Then(s, Begin(0, LoginGenerate(sess.user, sess.device)), t);
    Then(t, Act(0, Choice(true, h, sess.id, [])), Drawn(h, sess));
  }

  /** The session has been stored but not cached; the requests are at `pcs`. */
  function At(h: Hash, sess: Session, store: Table, pcs: map<Pid, Pc>): State {
    State(0, sess.expiry, store, map[], pcs, map[h := Issue(sess, None, 0)], {h}, {sess.id})
  }

  /** The login is about to write the cache; another request is at `pc`. */
  function Stored(h: Hash, sess: Session, store: Table, pc: Pc): State {
    At(h, sess, store, map[0 := CacheSet(h, sess, sess.expiry, LoggedIn(h)), 1 := pc])
  }

  lemma LoginCreates(h: Hash, sess: Session, k: Hash)
    requires h != "" && k !in {h, ""}
    ensures CanReach(At(h, sess, map[h := sess], map[0 := CacheMeasure(h, sess, LoggedIn(h))]))
  {
    LoginDraws(h, sess);
    Then(Drawn(h, sess), Act(0, Choice(true, k, sess.id, [])),
         At(h, sess, map[h := sess], map[0 := CacheMeasure(h, sess, LoggedIn(h))]));
  }

  lemma LoginMeasures(h: Hash, sess: Session, k: Hash, j: string)
    requires h != "" && sess.expiry > 0 && k !in {h, ""} && j != sess.id
    ensures CanReach(At(h, sess, map[h := sess], map[0 := CacheSet(h, sess, sess.expiry, LoggedIn(h))]))
  {
    LoginCreates(h, sess, k);
    Then(At(h, sess, map[h := sess], map[0 := CacheMeasure(h, sess, LoggedIn(h))]),
         Act(0, Choice(true, k, j, [])),
         At(h, sess, map[h := sess], map[0 := CacheSet(h, sess, sess.expiry, LoggedIn(h))]));
  }

  lemma LogoutAllDeletes(h: Hash, sess: Session, k: Hash, j: string)
    requires h != "" && sess.expiry > 0 && k !in {h, ""} && j != sess.id
    ensures CanReach(Stored(h, sess, map[], Evict([h], RevokedAll(1))))
  {
    LoginMeasures(h, sess, k, j);
    var pc := BulkDelete(sess.user, "", ByLogoutAll);
    var s := Stored(h, sess, map[h := sess], pc);
    Then(At(h, sess, map[h := sess], map[0 := CacheSet(h, sess, sess.expiry, LoggedIn(h))]), Begin(1, pc), s);
    assert Revoked(s.store, sess.user, "") == {h};
    Then(s, Act(1, Choice(true, k, j, [h])), Stored(h, sess, map[], Evict([h], RevokedAll(1))));
  }

  lemma LogoutAllEvicts(h: Hash, sess: Session, k: Hash, j: string)
    requires h != "" && sess.expiry > 0 && k !in {h, ""} && j != sess.id
    ensures CanReach(Stored(h, sess, map[], Evict([], RevokedAll(1))))
  {
    LogoutAllDeletes(h, sess, k, j);
    var r := Stored(h, sess, map[], Evict([h], RevokedAll(1)));
    var s := Stored(h, sess, map[], Evict([], RevokedAll(1)));
    assert [h][1..] == [] && r.cache - {h} == s.cache;
    Then(r, Act(1, Choice(true, k, j, [])), s);
  }

  lemma LogoutAllAnswers(h: Hash, sess: Session, k: Hash, j: string)
    requires h != "" && sess.expiry > 0 && k !in {h, ""} && j != sess.id
    ensures CanReach(Stored(h, sess, map[], Done(RevokedAll(1))))
  {
    LogoutAllEvicts(h, sess, k, j);
    Then(Stored(h, sess, map[], Evict([], RevokedAll(1))), Act(1, Choice(true, k, j, [])),
         Stored(h, sess, map[], Done(RevokedAll(1))));
  }

  /** Whatever session a user logs in with, there is a run in which all requests have been
      answered, no call has failed, and the cache holds a live entry for it although it is no
      longer stored. */
  lemma StaleEntryArises(h: Hash, sess: Session)
    requires h != "" && sess.expiry > 0
    ensures exists s :: CanReach(s) && (forall p :: p in s.procs ==> s.procs[p].Done?)
                        && h !in s.store && Lookup(s.cache, h, s.now).1 == Some(sess)
  {
    var k, j := h + "'", sess.id + "'";
    assert |k| != |h| && |j| != |sess.id|;
    LogoutAllAnswers(h, sess, k, j);
    var s := Stored(h, sess, map[], Done(RevokedAll(1)));
    var e := Act(0, Choice(true, k, j, []));
    Then(s, e, Apply(s, e));
    assert CanReach(Apply(s, e)) && Lookup(Apply(s, e).cache, h, 0).1 == Some(sess);
  }
}
