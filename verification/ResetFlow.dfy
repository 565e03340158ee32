/** Password reset from start to end, one request at a time and with the store answering. */
module ResetFlow {
  import opened Prelude
  import opened ResetStore
  import opened ResetProtocol
  import opened ResetService

  const AllWell := Answers(true, true, true, true)

  /** One call of VerifyResetCode: the code given and the times of its store calls. */
  datatype Guess = Guess(code: Hash, token: Hash, readAt: Time, countedAt: Time, savedAt: Time)

  function Try(s: State, email: string, g: Guess): (State, Pc) {
    Verification(s, email, g.code, g.token, g.readAt, g.countedAt, g.savedAt, AllWell)
  }

  function AfterGuesses(s: State, email: string, gs: seq<Guess>): State {
    if gs == [] then s else Try(AfterGuesses(s, email, gs[..|gs| - 1]), email, gs[|gs| - 1]).0
  }

  /** The state once RequestPasswordReset has saved a code. */
  function Requested(s: State, email: string, user: string, hash: Hash, now: Time): State {
    Next((s, RequestSave(email, user, hash)), now, true, hash).0
  }

  /** Guesses follow one another. */
  predicate Ordered(gs: seq<Guess>) {
    && (forall i :: 0 <= i < |gs| ==> gs[i].readAt <= gs[i].countedAt)
    && (forall i, j :: 0 <= i < j < |gs| ==> gs[i].countedAt <= gs[j].readAt)
  }

  /** The Redis script finds less than a millisecond left of the code, and gives it up. */
  predicate Dying(b: Backend, e: Otp, last: Option<Time>) {
    b == InRedis && last.Some? && e.expiresAt < last.value + MILLISECOND
  }

  /** The code with n wrong guesses counted, and at most a millisecond of its life lost to each. */
  predicate Worn(b: Backend, e: Otp, user: string, deadline: Time, n: nat) {
    && e.user == user && e.attempts == n <= 4
    && deadline - n * MILLISECOND <= e.expiresAt <= deadline && (b == InMemory ==> e.expiresAt == deadline)
  }

  /** The last guess came early enough for the code to have been there. */
  predicate Early(b: Backend, deadline: Time, n: nat, last: Option<Time>) {
    last.Some? ==> if b == InMemory then last.value <= deadline else last.value + n * MILLISECOND <= deadline
  }

  /** What n wrong guesses leave of a code: it is still there after up to four of them in time. */
  predicate Left(b: Backend, otps: Otps, email: string, user: string, hash: Hash, deadline: Time, n: nat,
                 last: Option<Time>)
  {
    && (email in otps ==>
          otps[email].hash == hash && (Worn(b, otps[email], user, deadline, n) || Dying(b, otps[email], last)))
    && (n <= 4 && Early(b, deadline, n, last) ==> email in otps && Worn(b, otps[email], user, deadline, n))
  }

  /** The codes after a wrong guess at one of them. */
  function Refused(b: Backend, otps: Otps, email: string, t0: Time, t1: Time): Otps {
    if email !in otps || !Live(b, otps[email].expiresAt, t0) then otps - {email}
    else
      var (otps', n) := IncrAttempts(b, otps, email, t1);
      if n.Some? && n.value >= MAX_ATTEMPTS then otps' - {email} else otps'
  }

  /** A wrong guess yields nothing but the news that it was wrong. */
  lemma WrongGuessRefused(s: State, email: string, g: Guess)
    requires email in s.otps ==> s.otps[email].hash != g.code
    ensures var (s', pc) := Try(s, email, g);
            && pc == Done(ResetProtocol.Failed(Unauthenticated))
            && s'.otps == Refused(s.backend, s.otps, email, g.readAt, g.countedAt)
            && s'.tokens == s.tokens && s'.backend == s.backend
  {
    var read := Next((s, VerifyGet(email, g.code)), g.readAt, true, g.token);
    assert read.1.VerifyIncr? ==> read.0.otps == s.otps && read.1.record == s.otps[email];
  }

  /** It costs one attempt, or the code. */
  lemma RefusalWears(b: Backend, otps: Otps, email: string, user: string, hash: Hash, deadline: Time, n: nat,
                     last: Option<Time>, t0: Time, t1: Time)
    requires Left(b, otps, email, user, hash, deadline, n, last) && t0 <= t1 && (last.Some? ==> last.value <= t0)
    ensures Left(b, Refused(b, otps, email, t0, t1), email, user, hash, deadline, n + 1, Some(t1))
  {
    if IncrAttempts(b, otps, email, t1).1.Some? { IncrNeverExtends(b, otps, email, t1); }
  }

  lemma GuessWears(s: State, email: string, user: string, hash: Hash, deadline: Time, n: nat, last: Option<Time>,
                   g: Guess)
    requires Left(s.backend, s.otps, email, user, hash, deadline, n, last) && g.code != hash
    requires g.readAt <= g.countedAt && (last.Some? ==> last.value <= g.readAt)
    ensures var s' := Try(s, email, g).0;
            && Left(s'.backend, s'.otps, email, user, hash, deadline, n + 1, Some(g.countedAt))
            && s'.tokens == s.tokens && s'.backend == s.backend
  {
    WrongGuessRefused(s, email, g);
    RefusalWears(s.backend, s.otps, email, user, hash, deadline, n, last, g.readAt, g.countedAt);
  }

  function LastOf(gs: seq<Guess>): Option<Time> {
    if gs == [] then None else Some(gs[|gs| - 1].countedAt)
  }

  lemma OrderedBefore(gs: seq<Guess>, n: nat)
    requires Ordered(gs) && n <= |gs|
    ensures Ordered(gs[..n]) && (0 < n < |gs| ==> LastOf(gs[..n]).value <= gs[n].readAt)
  {
  }

  /** Wrong guesses at a code, one by one. */
  lemma {:induction false} GuessesWear(s: State, email: string, user: string, hash: Hash, deadline: Time,
                                       gs: seq<Guess>)
    requires Left(s.backend, s.otps, email, user, hash, deadline, 0, None)
    requires Ordered(gs) && forall i :: 0 <= i < |gs| ==> gs[i].code != hash
    ensures var s' := AfterGuesses(s, email, gs);
            && Left(s'.backend, s'.otps, email, user, hash, deadline, |gs|, LastOf(gs))
            && s'.tokens == s.tokens && s'.backend == s.backend
  {
    if gs != [] {
      var init, g := gs[..|gs| - 1], gs[|gs| - 1];
      OrderedBefore(gs, |gs| - 1);
      GuessesWear(s, email, user, hash, deadline, init);
      GuessWears(AfterGuesses(s, email, init), email, user, hash, deadline, |init|, LastOf(init), g);
    }
  }

  lemma Requesting(s: State, email: string, user: string, hash: Hash, now: Time)
    ensures var s' := Requested(s, email, user, hash, now);
            && Left(s'.backend, s'.otps, email, user, hash, now + TTL, 0, None)
            && s'.tokens == s.tokens && s'.backend == s.backend
  {
  }

  /** What the right code yields after wrong guesses. */
  ghost predicate Yields(s: State, s': State, pc: Pc, email: string, user: string, deadline: Time, n: nat, g: Guess) {
    var issued := pc == Done(TokenIssued(g.token));
    && (issued ==> n < 4 && Live(s.backend, deadline, g.countedAt))
    && (n < 4 && s.backend == InMemory && g.countedAt <= deadline ==> issued)
    && (n < 4 && s.backend == InRedis && g.countedAt + 5 * MILLISECOND <= deadline ==> issued)
    && (issued ==> s'.tokens == s.tokens[g.token := ResetToken(user, email, g.savedAt + TTL)] && email !in s'.otps)
    && (!issued ==> pc == Done(ResetProtocol.Failed(Unauthenticated)) && s'.tokens == s.tokens)
  }

  /** The code works exactly as promised: after any number of wrong guesses, the right code yields a
      token for the user only if fewer than four guesses came before it and its fifteen minutes are
      not over; and it does so then, in the in-memory store to the last moment, in Redis up to the
      five milliseconds that counting can cost. */
  lemma CodeWorksExactly(s: State, email: string, user: string, hash: Hash, now: Time, gs: seq<Guess>, g: Guess)
    requires Ordered(gs + [g]) && g.code == hash && forall i :: 0 <= i < |gs| ==> gs[i].code != hash
    ensures var (s', pc) := Try(AfterGuesses(Requested(s, email, user, hash, now), email, gs), email, g);
            Yields(s, s', pc, email, user, now + TTL, |gs|, g)
  {
    var all := gs + [g];
    OrderedBefore(all, |gs|);
    assert all[..|gs|] == gs && all[|gs|] == g;
    Requesting(s, email, user, hash, now);
    RightAfterWrong(Requested(s, email, user, hash, now), email, user, hash, now + TTL, gs, g);
  }

  lemma RightAfterWrong(s: State, email: string, user: string, hash: Hash, deadline: Time, gs: seq<Guess>, g: Guess)
    requires Left(s.backend, s.otps, email, user, hash, deadline, 0, None)
    requires Ordered(gs) && g.readAt <= g.countedAt && (gs != [] ==> LastOf(gs).value <= g.readAt)
    requires g.code == hash && forall i :: 0 <= i < |gs| ==> gs[i].code != hash
    ensures var (s', pc) := Try(AfterGuesses(s, email, gs), email, g);
            Yields(s, s', pc, email, user, deadline, |gs|, g)
  {
    GuessesWear(s, email, user, hash, deadline, gs);
    var s1 := AfterGuesses(s, email, gs);
    RightGuess(s1, email, g);
    OpenExactly(s1, email, user, hash, deadline, |gs|, LastOf(gs), g);
  }

  lemma RightGuess(s: State, email: string, g: Guess)
    requires email in s.otps ==> s.otps[email].hash == g.code
    ensures var (s', pc) := Try(s, email, g);
            var issued := pc == Done(TokenIssued(g.token));
            && (issued <==> Open(s, email, g.readAt, g.countedAt))
            && (issued ==> s'.tokens == s.tokens[g.token := ResetToken(s.otps[email].user, email, g.savedAt + TTL)]
                           && email !in s'.otps)
            && (!issued ==> pc == Done(ResetProtocol.Failed(Unauthenticated)) && s'.tokens == s.tokens)
  {
    TokenIssuedExactly(s, email, g.code, g.token, g.readAt, g.countedAt, g.savedAt, AllWell);
    NeverInternal(s, email, g);
  }

  lemma NeverInternal(s: State, email: string, g: Guess)
    ensures Try(s, email, g).1 != Done(ResetProtocol.Failed(Internal))
  {
  }

  lemma OpenExactly(s: State, email: string, user: string, hash: Hash, deadline: Time, n: nat, last: Option<Time>,
                    g: Guess)
    requires Left(s.backend, s.otps, email, user, hash, deadline, n, last) && g.readAt <= g.countedAt
    requires last.Some? ==> last.value <= g.readAt
    ensures Open(s, email, g.readAt, g.countedAt) ==>
              n < 4 && Live(s.backend, deadline, g.countedAt) && s.otps[email].user == user
    ensures n < 4 && s.backend == InMemory && g.countedAt <= deadline ==> Open(s, email, g.readAt, g.countedAt)
    ensures n < 4 && s.backend == InRedis && g.countedAt + 5 * MILLISECOND <= deadline ==>
              Open(s, email, g.readAt, g.countedAt)
  {
  }

  /** The token works exactly for its fifteen minutes, for the user it was issued to, and once. */
  lemma TokenWorksExactly(s: State, token: Hash, user: string, email: string, savedAt: Time, readAt: Time, later: Time)
    requires token in s.tokens && s.tokens[token] == ResetToken(user, email, savedAt + TTL)
    ensures var read := Next((s, ResetGet(token)), readAt, true, token);
            var deleted := Next(read, readAt, true, token);
            var written := Next(deleted, readAt, true, token);
            && (written.1 == Done(PasswordReset(token)) <==> Live(s.backend, savedAt + TTL, readAt))
            && (written.1 == Done(PasswordReset(token)) ==>
                  && written.0.log == s.log + [Changed(user, token)]
                  && Next((written.0, ResetGet(token)), later, true, token).1
                     == Done(ResetProtocol.Failed(Unauthenticated)))
  {
  }
}
