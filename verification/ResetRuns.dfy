/** Runs of the reset protocol, built one step at a time. */
module ResetRuns {
  import opened Prelude
  import opened ResetStore
  import opened ResetProtocol

  ghost predicate CanReach(s: State) {
    exists states, events :: Run(states, events) && states[|events|] == s
  }

  lemma Then(s: State, e: Event, t: State)
    requires CanReach(s) && Enabled(s, e) && t == Apply(s, e)
    ensures CanReach(t)
  {
    var states, events :| Run(states, events) && states[|events|] == s;
    var states', events' := states + [t], events + [e];
    assert Run(states', events') && states'[|events'|] == t;
  }

  /** One more call of a request, in which nothing fails. */
  lemma Acts(s: State, p: Pid, token: Hash, t: State)
    requires CanReach(s) && Enabled(s, Act(p, true, token)) && t == Apply(s, Act(p, true, token))
    ensures CanReach(t)
  {
    Then(s, Act(p, true, token), t);
  }

  lemma CodeArises(backend: Backend, now: Time, email: string, user: string, code: Hash) returns (s: State)
    ensures CanReach(s) && s.log == [Saved(email, user, 1, code)]
    ensures s.otps == map[email := Otp(user, code, 0, now + TTL)] && s.saves == map[email := 1]
    ensures s.tokens == map[] && s.drawn == {} && s.procs.Keys == {0} && s.backend == backend && s.now == now
  {
    var s0 := State(now, backend, map[], map[], map[], {}, map[], map[], []);
    var none: seq<Event> := [];
    assert Run([s0], none) && [s0][|none|] == s0;
    var s1 := Apply(s0, Begin(0, RequestSave(email, user, code)));
    Then(s0, Begin(0, RequestSave(email, user, code)), s1);
    s := Apply(s1, Act(0, true, code));
    Acts(s1, 0, code, s);
  }

  /** For every token and user, in either store, a run leads to the token being live. */
  lemma TokenArises(backend: Backend, now: Time, email: string, user: string, code: Hash, h: Hash) returns (t: State)
    ensures CanReach(t)
    ensures t.log == [Saved(email, user, 1, code), Compared(email), Matched(email, user, 1, code)]
                     + [Issued(h, user, email, 1)]
    ensures t.tokens == map[h := ResetToken(user, email, now + TTL)] && t.backend == backend && t.now == now
    ensures t.procs.Keys == {0, 1}
  {
    var s := CodeArises(backend, now, email, user, code);
    t := Verifies(s, 1, true, email, s.otps[email], h);
  }

  lemma Finds(s: State, p: Pid, email: string, record: Otp, h: Hash) returns (t: State)
    requires CanReach(s) && p !in s.procs
    requires email in s.otps && s.otps[email] == record && record.expiresAt == s.now + TTL
    ensures CanReach(t)
    ensures t == s.(procs := s.procs[p := VerifyIncr(email, record.hash, record, Latest(s.saves, email))])
  {
    var s1 := Apply(s, Begin(p, VerifyGet(email, record.hash)));
    Then(s, Begin(p, VerifyGet(email, record.hash)), s1);
    t := Apply(s1, Act(p, true, h));
    Acts(s1, p, h, t);
    assert t.procs == s.procs[p := VerifyIncr(email, record.hash, record, Latest(s.saves, email))];
  }

  /** `record` is what the request read; the store may have counted attempts since. */
  lemma Matches(s: State, p: Pid, email: string, record: Otp, nth: nat, h: Hash) returns (t: State)
    requires CanReach(s) && p in s.procs && s.procs[p] == VerifyIncr(email, record.hash, record, nth)
    requires email in s.otps && s.otps[email].expiresAt == s.now + TTL && s.otps[email].attempts + 1 < MAX_ATTEMPTS
    ensures CanReach(t) && t.log == s.log + [Compared(email), Matched(email, record.user, nth, record.hash)]
    ensures t == s.(log := t.log, otps := s.otps[email := s.otps[email].(attempts := s.otps[email].attempts + 1)],
                    procs := s.procs[p := VerifyDelete(email, record.user, nth)])
  {
    t := Apply(s, Act(p, true, h));
    Acts(s, p, h, t);
  }

  /** The token is issued whether or not the code could be deleted. */
  lemma Issues(s: State, p: Pid, deleted: bool, email: string, user: string, nth: nat, h: Hash) returns (t: State)
    requires CanReach(s) && p in s.procs && s.procs[p] == VerifyDelete(email, user, nth) && h !in s.drawn
    ensures CanReach(t) && t.log == s.log + [Issued(h, user, email, nth)] && t.backend == s.backend && t.now == s.now
    ensures t.tokens == s.tokens[h := ResetToken(user, email, s.now + TTL)] && t.procs.Keys == s.procs.Keys
    ensures forall q :: q in s.procs && q != p ==> t.procs[q] == s.procs[q]
    ensures t.otps == (if deleted then s.otps - {email} else s.otps) && t.drawn == s.drawn + {h}
    ensures t.saves == s.saves
  {
    var s1 := Apply(s, Act(p, deleted, h));
    Then(s, Act(p, deleted, h), s1);
    t := Apply(s1, Act(p, true, h));
    Acts(s1, p, h, t);
  }

  /** VerifyResetCode with the right code, from start to end. */
  lemma Verifies(s: State, p: Pid, deleted: bool, email: string, record: Otp, h: Hash) returns (t: State)
    requires CanReach(s) && p !in s.procs && h !in s.drawn && record.attempts + 1 < MAX_ATTEMPTS
    requires email in s.otps && s.otps[email] == record && record.expiresAt == s.now + TTL
    ensures CanReach(t) && t.backend == s.backend && t.now == s.now
    ensures var nth := Latest(s.saves, email);
            t.log == s.log + [Compared(email), Matched(email, record.user, nth, record.hash)]
                     + [Issued(h, record.user, email, nth)]
    ensures t.tokens == s.tokens[h := ResetToken(record.user, email, s.now + TTL)]
    ensures t.drawn == s.drawn + {h} && t.saves == s.saves && t.procs.Keys == s.procs.Keys + {p}
    ensures !deleted ==> t.otps == s.otps[email := record.(attempts := record.attempts + 1)]
  {
    var nth := Latest(s.saves, email);
    var s1 := Finds(s, p, email, record, h);
    var s2 := Matches(s1, p, email, record, nth, h);
    t := Issues(s2, p, deleted, email, record.user, nth, h);
  }

  lemma BothRead(s: State, p: Pid, q: Pid, h: Hash) returns (t: State)
    requires CanReach(s) && p !in s.procs && q !in s.procs && p != q
    requires h in s.tokens && Live(s.backend, s.tokens[h].expiresAt, s.now)
    ensures CanReach(t) && t.log == s.log && p in t.procs && q in t.procs
    ensures t.procs[p] == t.procs[q] == ResetDelete(h, s.tokens[h].user)
  {
    var s1 := Apply(s, Begin(p, ResetGet(h)));
    Then(s, Begin(p, ResetGet(h)), s1);
    var s2 := Apply(s1, Begin(q, ResetGet(h)));
    Then(s1, Begin(q, ResetGet(h)), s2);
    var s3 := Apply(s2, Act(p, true, h));
    Acts(s2, p, h, s3);
    t := Apply(s3, Act(q, true, h));
    Acts(s3, q, h, t);
  }
}
