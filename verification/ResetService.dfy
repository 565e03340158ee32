/**
 The reset requests as the service writes them, over the in-memory store. Each is proved to do
 what its protocol steps do when no other request comes in between.
 */
module ResetService {
  import opened Prelude
  import opened ResetStore
  import opened ResetProtocol

  /** The next call of a request that runs on its own, at this time; `ok` tells whether it
      succeeds. */
  function Next(r: (State, Pc), now: Time, ok: bool, token: Hash): (State, Pc) {
    Call(r.0.(now := now), r.1, ok, token)
  }

  /** Which store calls of a verification succeed. */
  datatype Answers = Answers(read: bool, counted: bool, deleted: bool, saved: bool)

  /** VerifyResetCode's first two calls: read the code and count an attempt. */
  function Counting(s: State, email: string, code: Hash, token: Hash, t0: Time, t1: Time, a: Answers): (State, Pc) {
    Next(Next((s, VerifyGet(email, code)), t0, a.read, token), t1, a.counted, token)
  }

  /** Its other two: delete the code and store the token. */
  function Granting(r: (State, Pc), token: Hash, t1: Time, t2: Time, a: Answers): (State, Pc) {
    Next(Next(r, t1, a.deleted, token), t2, a.saved, token)
  }

  function Verification(s: State, email: string, code: Hash, token: Hash, t0: Time, t1: Time, t2: Time, a: Answers)
    : (State, Pc)
  {
    Granting(Counting(s, email, code, token, t0, t1, a), token, t1, t2, a)
  }

  /** The code is stored, live at both readings, and has attempts left. */
  predicate Open(s: State, email: string, t0: Time, t1: Time) {
    && email in s.otps
    && Live(s.backend, s.otps[email].expiresAt, t0) && Live(s.backend, s.otps[email].expiresAt, t1)
    && (s.backend == InRedis ==> s.otps[email].expiresAt - t1 >= MILLISECOND)
    && s.otps[email].attempts + 1 < MAX_ATTEMPTS
  }

  lemma CountingExactly(s: State, email: string, code: Hash, token: Hash, t0: Time, t1: Time, a: Answers)
    ensures var (s', pc) := Counting(s, email, code, token, t0, t1, a);
            && s'.tokens == s.tokens
            && (pc.VerifyDelete? <==> a.read && a.counted && Open(s, email, t0, t1) && s.otps[email].hash == code)
            && (pc.VerifyDelete? ==>
                  && pc == VerifyDelete(email, s.otps[email].user, Latest(s.saves, email))
                  && s'.otps - {email} == s.otps - {email})
            && (pc.VerifyDelete? || pc == VerifyBlock(email)
                || pc == Done(Failed(Unauthenticated)) || pc == Done(Failed(Internal)))
  {
    var read := Next((s, VerifyGet(email, code)), t0, a.read, token);
    assert read.1.VerifyIncr? ==> read.0.otps == s.otps && read.1.record == s.otps[email];
  }

  /** In either store, a token is issued exactly when a live code with attempts left is given
      back and the store answers; the token then stands for the code's user, and the code is gone
      if it could be deleted. */
  lemma TokenIssuedExactly(s: State, email: string, code: Hash, token: Hash, t0: Time, t1: Time, t2: Time, a: Answers)
    ensures var (s', pc) := Verification(s, email, code, token, t0, t1, t2, a);
            && (pc == Done(TokenIssued(token)) <==>
                  a.read && a.counted && a.saved && Open(s, email, t0, t1) && s.otps[email].hash == code)
            && (pc == Done(TokenIssued(token)) ==>
                  && (a.deleted ==> s'.otps == s.otps - {email})
                  && s'.tokens == s.tokens[token := ResetToken(s.otps[email].user, email, t2 + TTL)])
            && (pc != Done(TokenIssued(token)) ==>
                  (pc == Done(Failed(Unauthenticated)) || pc == Done(Failed(Internal))) && s'.tokens == s.tokens)
  {
    CountingExactly(s, email, code, token, t0, t1, a);
  }

  /** Internal is the answer exactly when a store call that was reached failed, other than the
      delete. */
  lemma InternalExactly(s: State, email: string, code: Hash, token: Hash, t0: Time, t1: Time, t2: Time, a: Answers)
    ensures Verification(s, email, code, token, t0, t1, t2, a).1 == Done(Failed(Internal))
       <==> || !a.read
            || (email in s.otps && Live(s.backend, s.otps[email].expiresAt, t0) && !a.counted)
            || (a.counted && Open(s, email, t0, t1) && s.otps[email].hash == code && !a.saved)
  {
    CountingExactly(s, email, code, token, t0, t1, a);
    CountingInternal(s, email, code, token, t0, t1, a);
    GrantingInternal(Counting(s, email, code, token, t0, t1, a), email, token, t1, t2, a);
  }

  lemma CountingInternal(s: State, email: string, code: Hash, token: Hash, t0: Time, t1: Time, a: Answers)
    ensures Counting(s, email, code, token, t0, t1, a).1 == Done(Failed(Internal))
       <==> !a.read || (email in s.otps && Live(s.backend, s.otps[email].expiresAt, t0) && !a.counted)
  {
  }

  lemma GrantingInternal(r: (State, Pc), email: string, token: Hash, t1: Time, t2: Time, a: Answers)
    requires r.1.Done? || r.1 == VerifyBlock(email) || r.1.VerifyDelete?
    ensures Granting(r, token, t1, t2, a).1 == Done(Failed(Internal))
       <==> r.1 == Done(Failed(Internal)) || (r.1.VerifyDelete? && !a.saved)
  {
  }

  class ResetService {
    const store: MemoryResetStore

    /** The store holds what the protocol state says. */
    ghost predicate Holds(s: State)
      reads store
    {
      s.backend == InMemory && s.otps == store.otps && s.tokens == store.resetTokens
    }

    constructor ()
      ensures fresh(store) && store.otps == map[] && store.resetTokens == map[]
    {
      store := new MemoryResetStore();
    }

    /** An unknown email gets the same answer as a known one. `user` is its id, if it has one; the
        flags say whether the lookup, the drawing of the code and the save succeed. */
    method RequestPasswordReset(ghost s: State, email: string, valid: bool, lookedUp: bool, user: Option<string>,
                                generated: bool, saved: bool, hash: Hash, now: Time) returns (code: Code)
      requires Holds(s)
      modifies store
      ensures code == if !valid then InvalidArgument
                      else if !lookedUp then Internal
                      else if user == None then OK
                      else if !generated || !saved then Internal else OK
      ensures valid && lookedUp && user.Some? && generated ==>
                var (s', pc) := Next((s, RequestSave(email, user.value, hash)), now, saved, hash);
                Holds(s') && pc == Done(if code == OK then CodeSent else Failed(code))
      ensures !(valid && lookedUp && user.Some? && generated) ==> Holds(s)
    {
      if !valid { return InvalidArgument; }
      if !lookedUp { return Internal; }
      if user == None { return OK; }
      if !generated { return Internal; }
      if !saved { return Internal; }
      store.SaveOTP(user.value, email, hash, now);
      code := OK;
    }

    /** The first half of VerifyResetCode: reads the code and counts an attempt against it, or says
        why not. */
    method CountAttempt(ghost s: State, email: string, ghost code: Hash, ghost token: Hash, t0: Time, t1: Time,
                        a: Answers)
      returns (record: Option<Otp>, attempts: int, err: Code)
      requires Holds(s)
      modifies store
      ensures var (s', pc) := Counting(s, email, code, token, t0, t1, a);
              && Holds(s')
              && pc == if record == None then Done(Failed(err))
                       else if attempts >= MAX_ATTEMPTS then VerifyBlock(email)
                       else if code != record.value.hash then Done(Failed(Unauthenticated))
                       else VerifyDelete(email, record.value.user, Latest(s.saves, email))
    {
      if !a.read { return None, 0, Internal; }
      record := store.GetOTP(email, t0);
      if record == None { return None, 0, Unauthenticated; }
      if !a.counted { return None, 0, Internal; }
      var counted := store.IncrOTPAttempts(email, t1);
      if counted == None { return None, 0, Unauthenticated; }
      attempts, err := counted.value, OK;
    }

    method VerifyResetCode(ghost s: State, email: string, valid: bool, code: Hash, token: Hash,
                           t0: Time, t1: Time, t2: Time, a: Answers) returns (reply: Reply)
      requires Holds(s)
      modifies store
      ensures !valid ==> Holds(s) && reply == Failed(InvalidArgument)
      ensures valid ==>
                var (s', pc) := Verification(s, email, code, token, t0, t1, t2, a);
                Holds(s') && pc == Done(reply)
    {
      if !valid { return Failed(InvalidArgument); }
      var record, attempts, err := CountAttempt(s, email, code, token, t0, t1, a);
      if record == None { return Failed(err); }
      if attempts >= MAX_ATTEMPTS {
        if a.deleted { store.DeleteOTP(email); }
        return Failed(Unauthenticated);
      }
      if code != record.value.hash { return Failed(Unauthenticated); }
      reply := Grant(Counting(s, email, code, token, t0, t1, a), email, record.value.user, token, t1, t2, a);
    }

    /** The second half, once the code has matched: deletes it and stores the token. */
    method Grant(ghost r: (State, Pc), email: string, user: string, token: Hash, ghost t1: Time, t2: Time, a: Answers)
      returns (reply: Reply)
      requires Holds(r.0) && r.1.VerifyDelete? && r.1.email == email && r.1.user == user
      modifies store
      ensures var (s', pc) := Granting(r, token, t1, t2, a);
              Holds(s') && pc == Done(reply)
    {
      if a.deleted { store.DeleteOTP(email); }
      if !a.saved { return Failed(Internal); }
      store.SaveResetToken(token, user, email, t2);
      reply := TokenIssued(token);
    }

    /** ResetPassword up to the point where the password is written: a live token gives its user
        and is gone afterwards. */
    method RedeemToken(ghost s: State, hash: Hash, now: Time, read: bool, deleted: bool)
      returns (user: Option<string>, err: Code)
      requires Holds(s)
      modifies store
      ensures var (s', pc) := Next(Next((s, ResetGet(hash)), now, read, hash), now, deleted, hash);
              && Holds(s')
              && pc == match user case Some(u) => ResetUpdate(hash, u) case None => Done(Failed(err))
      ensures user.Some? <==> read && deleted && hash in s.tokens && now <= s.tokens[hash].expiresAt
      ensures user.Some? ==> user.value == s.tokens[hash].user
      ensures user.Some? ==> store.resetTokens == s.tokens - {hash} && store.otps == s.otps
      ensures user == None ==>
                var dead := hash !in s.tokens || now > s.tokens[hash].expiresAt;
                err == if read && dead then Unauthenticated else Internal
    {
      if !read { return None, Internal; }
      var record := store.GetResetToken(hash, now);
      if record == None { return None, Unauthenticated; }
      if !deleted { return None, Internal; }
      store.DeleteResetToken(hash);
      return Some(record.value.user), OK;
    }
  }
}
