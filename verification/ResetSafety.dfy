/** Safety of the password-reset protocol over whole runs, in every interleaving. */
module ResetSafety {
  import opened Prelude
  import opened ResetStore
  import opened ResetProtocol

  /** How many codes were saved for an email. */
  function Saves(log: seq<Note>, email: string): nat {
    if log == [] then 0
    else
      var n := log[|log| - 1];
      Saves(log[..|log| - 1], email) + if n.Saved? && n.email == email then 1 else 0
  }

  /** How many times a code was compared for an email. */
  function Compares(log: seq<Note>, email: string): nat {
    if log == [] then 0
    else Compares(log[..|log| - 1], email) + if log[|log| - 1] == Compared(email) then 1 else 0
  }

  lemma CountMore(log: seq<Note>, n: Note, email: string)
    ensures Saves(log + [n], email) == Saves(log, email) + if n.Saved? && n.email == email then 1 else 0
    ensures Compares(log + [n], email) == Compares(log, email) + if n == Compared(email) then 1 else 0
  {
    assert (log + [n])[..|log|] == log;
  }

  /** The comparisons the stored code still allows. */
  function Left(otps: Otps, email: string): nat {
    if email in otps && otps[email].attempts < 4 then
      if otps[email].attempts < 0 then 4 else 4 - otps[email].attempts
    else 0
  }

  ghost predicate WithinBudget(s: State, email: string) {
    && (email in s.otps ==> s.otps[email].attempts >= 0)
    && Compares(s.log, email) + Left(s.otps, email) <= 4 * Saves(s.log, email)
  }

  /** What an increment does to the allowance: a comparison that follows uses up one. */
  lemma IncrSpends(b: Backend, otps: Otps, m: string, now: Time, email: string)
    requires email in otps ==> otps[email].attempts >= 0
    ensures var (otps', n) := IncrAttempts(b, otps, m, now);
            && (email in otps' ==> otps'[email].attempts >= 0)
            && Left(otps', email) + (if m == email && n.Some? && n.value < MAX_ATTEMPTS then 1 else 0)
               <= Left(otps, email)
  {
    if IncrAttempts(b, otps, m, now).1.Some? { IncrNeverExtends(b, otps, m, now); }
  }

  lemma IncrBudget(s: State, m: string, code: Hash, record: Otp, nth: nat, ok: bool, h: Hash, email: string)
    requires WithinBudget(s, email)
    ensures WithinBudget(CodeCall(s, VerifyIncr(m, code, record, nth), ok, h).0, email)
  {
    IncrSpends(s.backend, s.otps, m, s.now, email);
    CountTwo(s.log, m, record, nth, email);
  }

  lemma CountTwo(log: seq<Note>, m: string, record: Otp, nth: nat, email: string)
    ensures var compared := log + [Compared(m)];
            var matched := log + [Compared(m), Matched(m, record.user, nth, record.hash)];
            && Saves(compared, email) == Saves(matched, email) == Saves(log, email)
            && Compares(compared, email) == Compares(matched, email)
            && Compares(compared, email) == Compares(log, email) + if m == email then 1 else 0
  {
    CountMore(log, Compared(m), email);
    var compared, n := log + [Compared(m)], Matched(m, record.user, nth, record.hash);
    CountMore(compared, n, email);
    assert log + [Compared(m), n] == compared + [n];
  }

  lemma CodeCallBudget(s: State, pc: Pc, ok: bool, h: Hash, email: string)
    requires WithinBudget(s, email)
    requires !pc.ResetGet? && !pc.ResetDelete? && !pc.ResetUpdate? && !pc.Done? && !pc.VerifyIncr?
    ensures WithinBudget(CodeCall(s, pc, ok, h).0, email)
  {
    match pc
    case RequestSave(e, user, hash) => CountMore(s.log, Saved(e, user, Latest(s.saves, e) + 1, hash), email);
    case VerifySave(m, user, nth, hash) => CountMore(s.log, Issued(hash, user, m, nth), email);
    case _ =>
  }

  lemma StepBudget(s: State, e: Event, email: string)
    requires Enabled(s, e) && WithinBudget(s, email)
    ensures WithinBudget(Apply(s, e), email)
  {
    if e.Act? {
      var pc := s.procs[e.p];
      if pc.ResetGet? || pc.ResetDelete? || pc.ResetUpdate? || pc.Done? {
        if pc.ResetUpdate? { CountMore(s.log, Changed(pc.user, pc.hash), email); }
      } else if pc.VerifyIncr? {
        IncrBudget(s, pc.email, pc.code, pc.record, pc.nth, e.ok, e.hash, email);
      } else {
        CodeCallBudget(s, pc, e.ok, e.hash, email);
      }
    }
  }

  /** Whatever interleaves and whatever fails, deletes included, the codes compared for an
      email number at most four times the codes saved for it. */
  lemma {:induction false} CodeBudget(states: seq<State>, events: seq<Event>, i: nat, email: string)
    requires Run(states, events) && i < |states|
    ensures WithinBudget(states[i], email)
    ensures Compares(states[i].log, email) <= 4 * Saves(states[i].log, email)
  {
    if i > 0 {
      CodeBudget(states, events, i - 1, email);
      StepBudget(states[i - 1], events[i - 1], email);
    }
  }

  /** No code outlives its fifteen minutes, however often its attempts are counted. */
  ghost predicate InTime(s: State, email: string) {
    email in s.otps ==> email in s.savedAt && s.otps[email].expiresAt <= s.savedAt[email] + TTL
  }

  lemma StepInTime(s: State, e: Event, email: string)
    requires Enabled(s, e) && InTime(s, email)
    ensures InTime(Apply(s, e), email)
  {
    if e.Act? {
      var pc := s.procs[e.p];
      if pc.VerifyIncr? && IncrAttempts(s.backend, s.otps, pc.email, s.now).1.Some? {
        IncrNeverExtends(s.backend, s.otps, pc.email, s.now);
      }
    }
  }

  lemma {:induction false} AlwaysInTime(states: seq<State>, events: seq<Event>, i: nat, email: string)
    requires Run(states, events) && i < |states|
    ensures InTime(states[i], email)
  {
    if i > 0 {
      AlwaysInTime(states, events, i - 1, email);
      StepInTime(states[i - 1], events[i - 1], email);
    }
  }

  /** Only a verification that counts an attempt compares. */
  lemma ComparesStep(s: State, e: Event, email: string)
    requires Enabled(s, e)
    ensures Compares(Apply(s, e).log, email) == Compares(s.log, email)
            || (e.Act? && e.ok && s.procs[e.p].VerifyIncr? && s.procs[e.p].email == email
                && IncrAttempts(s.backend, s.otps, email, s.now).1.Some?)
  {
    if e.Act? {
      var pc := s.procs[e.p];
      if pc.VerifyIncr? {
        ComparesOnIncr(s, pc.email, pc.code, pc.record, pc.nth, e.ok, e.hash, email);
      } else {
        ComparesNotElsewhere(s, pc, e.ok, e.hash, email);
      }
    }
  }

  lemma ComparesNotElsewhere(s: State, pc: Pc, ok: bool, h: Hash, email: string)
    requires !pc.VerifyIncr?
    ensures Compares(Call(s, pc, ok, h).0.log, email) == Compares(s.log, email)
  {
    match pc
    case RequestSave(m, user, hash) => CountMore(s.log, Saved(m, user, Latest(s.saves, m) + 1, hash), email);
    case VerifySave(m, user, nth, hash) => CountMore(s.log, Issued(hash, user, m, nth), email);
    case ResetUpdate(hash, user) => CountMore(s.log, Changed(user, hash), email);
    case _ =>
  }

  lemma ComparesOnIncr(s: State, m: string, code: Hash, record: Otp, nth: nat, ok: bool, h: Hash, email: string)
    ensures var s' := CodeCall(s, VerifyIncr(m, code, record, nth), ok, h).0;
            Compares(s'.log, email) == Compares(s.log, email)
            || (m == email && ok && IncrAttempts(s.backend, s.otps, m, s.now).1.Some?)
  {
    CountTwo(s.log, m, record, nth, email);
  }

  /** A code is only ever compared within fifteen minutes of the latest save for its email. */
  lemma ComparedInTime(states: seq<State>, events: seq<Event>, i: nat, email: string)
    requires Run(states, events) && i < |events|
    requires Compares(states[i + 1].log, email) > Compares(states[i].log, email)
    ensures email in states[i].savedAt && states[i].now <= states[i].savedAt[email] + TTL
  {
    AlwaysInTime(states, events, i, email);
    ComparesStep(states[i], events[i], email);
  }
}
