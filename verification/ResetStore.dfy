/** One-time codes and reset tokens: the in-memory store and the Redis increment script. */
module ResetStore {
  import opened Prelude

  datatype Otp = Otp(user: string, hash: Hash, attempts: int, expiresAt: Time)
  datatype ResetToken = ResetToken(user: string, email: string, expiresAt: Time)

  type Otps = map<string, Otp>
  type Tokens = map<Hash, ResetToken>

  /** How long codes and tokens live. */
  const TTL: int := 15 * 60 * SECOND

  /** The two implementations differ in when an entry is gone and in how it is rewritten. */
  datatype Backend = InMemory | InRedis

  predicate Live(b: Backend, deadline: Time, now: Time) {
    if b.InMemory? then now <= deadline else now < deadline
  }

  function SavedOtp(otps: Otps, email: string, user: string, hash: Hash, now: Time): Otps {
    otps[email := Otp(user, hash, 0, now + TTL)]
  }

  /** GetOTP: an expired code is removed on the way. */
  function ReadOtp(b: Backend, otps: Otps, email: string, now: Time): (Otps, Option<Otp>) {
    if email in otps && Live(b, otps[email].expiresAt, now) then (otps, Some(otps[email]))
    else (otps - {email}, None)
  }

  /** IncrOTPAttempts. The script rewrites the record with the milliseconds it had left, and
      gives up when there are none; the in-memory store keeps the deadline. */
  function IncrAttempts(b: Backend, otps: Otps, email: string, now: Time): (Otps, Option<int>) {
    if email !in otps || !Live(b, otps[email].expiresAt, now) then (otps - {email}, None)
    else
      var e := otps[email].(attempts := otps[email].attempts + 1);
      match b
      case InMemory => (otps[email := e], Some(e.attempts))
      case InRedis =>
        var pttl := (e.expiresAt - now) / MILLISECOND;
        if pttl <= 0 then (otps, None)
        else (otps[email := e.(expiresAt := now + pttl * MILLISECOND)], Some(e.attempts))
  }

  function SavedToken(tokens: Tokens, hash: Hash, user: string, email: string, now: Time): Tokens {
    tokens[hash := ResetToken(user, email, now + TTL)]
  }

  function ReadToken(b: Backend, tokens: Tokens, hash: Hash, now: Time): (Tokens, Option<ResetToken>) {
    if hash in tokens && Live(b, tokens[hash].expiresAt, now) then (tokens, Some(tokens[hash]))
    else (tokens - {hash}, None)
  }

  /** Incrementing never extends the life of a code, and counts exactly one attempt. */
  lemma IncrNeverExtends(b: Backend, otps: Otps, email: string, now: Time)
    requires IncrAttempts(b, otps, email, now).1.Some?
    ensures var (otps', n) := IncrAttempts(b, otps, email, now);
            && email in otps && email in otps' && Live(b, otps[email].expiresAt, now)
            && n == Some(otps[email].attempts + 1)
            && otps' == otps[email := otps[email].(attempts := n.value, expiresAt := otps'[email].expiresAt)]
            && otps[email].expiresAt - MILLISECOND < otps'[email].expiresAt <= otps[email].expiresAt
  {
  }

  /** The in-memory store. Records are values; Go copies them in and out of its maps. */
  class MemoryResetStore {
    var otps: Otps
    var resetTokens: Tokens

    constructor ()
      ensures otps == map[] && resetTokens == map[]
    {
      otps, resetTokens := map[], map[];
    }

    method SaveOTP(user: string, email: string, hash: Hash, now: Time)
      modifies this
      ensures otps == SavedOtp(old(otps), email, user, hash, now) && resetTokens == old(resetTokens)
    {
      otps := otps[email := Otp(user, hash, 0, now + TTL)];
    }

    method GetOTP(email: string, now: Time) returns (r: Option<Otp>)
      modifies this
      ensures (otps, r) == ReadOtp(InMemory, old(otps), email, now) && resetTokens == old(resetTokens)
    {
      if email !in otps || now > otps[email].expiresAt {
        otps := otps - {email};
        return None;
      }
      r := Some(otps[email]);
    }

    method IncrOTPAttempts(email: string, now: Time) returns (r: Option<int>)
      modifies this
      ensures (otps, r) == IncrAttempts(InMemory, old(otps), email, now) && resetTokens == old(resetTokens)
    {
      if email !in otps || now > otps[email].expiresAt {
        otps := otps - {email};
        return None;
      }
      var e := otps[email];
      e := e.(attempts := e.attempts + 1);
      otps := otps[email := e];
      r := Some(e.attempts);
    }

    method DeleteOTP(email: string)
      modifies this
      ensures otps == old(otps) - {email} && resetTokens == old(resetTokens)
    {
      otps := otps - {email};
    }

    method SaveResetToken(hash: Hash, user: string, email: string, now: Time)
      modifies this
      ensures resetTokens == SavedToken(old(resetTokens), hash, user, email, now) && otps == old(otps)
    {
      resetTokens := resetTokens[hash := ResetToken(user, email, now + TTL)];
    }

    method GetResetToken(hash: Hash, now: Time) returns (r: Option<ResetToken>)
      modifies this
      ensures (resetTokens, r) == ReadToken(InMemory, old(resetTokens), hash, now) && otps == old(otps)
    {
      if hash !in resetTokens || now > resetTokens[hash].expiresAt {
        resetTokens := resetTokens - {hash};
        return None;
      }
      r := Some(resetTokens[hash]);
    }

    method DeleteResetToken(hash: Hash)
      modifies this
      ensures resetTokens == old(resetTokens) - {hash} && otps == old(otps)
    {
      resetTokens := resetTokens - {hash};
    }
  }
}
