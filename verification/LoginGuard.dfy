/** Login up to its session: the guard, the password check, and what each tells the other. */
module LoginGuard {
  import opened Prelude
  import opened Redis
  import opened Base64
  import opened BruteForce
  import opened BruteForceFallback
  import opened Accounts

  /** What a login meets: whether its input is valid, whether the guard reaches Redis and the user
      store answers, and what becomes of the Redis calls that follow. */
  datatype Env = Env(valid: bool, up: bool, stored: bool, recorded: Calls, cleared: bool, now: Time)

  class LoginService {
    const accounts: AccountService
    const guard: Guard

    constructor (accounts: AccountService, guard: Guard)
      ensures this.accounts == accounts && this.guard == guard
    {
      this.accounts, this.guard := accounts, guard;
    }

    ghost predicate Valid()
      reads this, accounts, accounts.store, accounts.store.Repr, guard, guard.local.Values
    {
      && accounts.Valid() && guard.Valid()
      && guard !in accounts.store.Repr && guard.redis !in accounts.store.Repr
      && forall e :: e in guard.local.Values ==> e !in accounts.store.Repr
    }

    /** The email is locked, by the source of knowledge that can be reached. */
    ghost predicate IsLocked(email: string, env: Env)
      reads guard, guard.redis, guard.local.Values
    {
      if env.up then Locked(guard.redis.db, email, env.now) else env.now < guard.RecordOf(email).lockedUntil
    }

    /** The password is the one set most recently for the email. */
    ghost predicate IsRight(email: string, password: seq<Byte>)
      reads accounts
    {
      email in accounts.last && SameKey(accounts.kdf, password, accounts.last[email])
    }

    /** Who is turned away before any guess counts, and why; the others have a wrong or the right
        password. A locked email is turned away before its password is looked at. */
    method Admit(email: string, password: seq<Byte>, env: Env) returns (refusal: Option<Code>, right: bool)
      requires Valid()
      modifies guard
      ensures Valid() && guard.redis.db == old(guard.redis.db)
      ensures (forall f :: guard.RecordOf(f) == old(guard.RecordOf(f)))
      ensures fresh(guard.local.Values - old(guard.local.Values))
      ensures refusal == if !env.valid then Some(InvalidArgument)
                         else if old(IsLocked(email, env)) then Some(ResourceExhausted)
                         else if !env.stored then Some(Internal)
                         else if email !in accounts.last then Some(Unauthenticated)
                         else None
      ensures refusal == None ==> (right <==> IsRight(email, password))
    {
      right := false;
      if !env.valid { return Some(InvalidArgument), false; }
      var locked := guard.IsLocked(email, env.now, env.up);
      if locked { return Some(ResourceExhausted), false; }
      if !env.stored { return Some(Internal), false; }
      var checked := accounts.CheckPassword(email, password);
      if checked == None { return Some(Unauthenticated), false; }
      return None, checked.value;
    }

    /** A wrong password is counted, and locks when it is counted once too often. */
    method Punish(email: string, env: Env) returns (code: Code)
      requires Valid()
      modifies guard, guard.redis, guard.local.Values
      ensures guard.Valid() && accounts.Valid()
      ensures env.recorded.counted ==>
                var (db, locked) := FailedWith(old(guard.redis.db), email, guard.pol, env.now, env.recorded);
                guard.redis.db == db && code == if locked == Some(true) then ResourceExhausted else Unauthenticated
      ensures !env.recorded.counted ==>
                var (e, locked) := RecordFailed(old(guard.RecordOf(email)), env.now, guard.pol);
                guard.RecordOf(email) == e && code == if locked then ResourceExhausted else Unauthenticated
    {
      var wasLocked := guard.RecordFailure(email, env.now, env.recorded);
      code := if wasLocked == Some(true) then ResourceExhausted else Unauthenticated;
    }

    /** The right password clears what was counted: all attempts are there again. */
    method Clear(email: string, env: Env)
      requires Valid()
      modifies guard, guard.redis
      ensures guard.Valid() && accounts.Valid() && guard.RecordOf(email) == NoRecord
      ensures env.cleared ==> Remaining(guard.redis.db, email, guard.pol, env.now) == guard.pol.maxAttempts
      ensures !env.cleared ==> guard.redis.db == old(guard.redis.db)
    {
      guard.Reset(email, env.cleared);
      if env.cleared { RemainingAfterReset(old(guard.redis.db), email, guard.pol, env.now); }
    }

    /** Login answers OK exactly for the right password of an email that is not locked. A locked
        email, an unknown one and a failing store leave the guard as it was. */
    method Authenticate(email: string, password: seq<Byte>, env: Env) returns (code: Code)
      requires Valid()
      modifies guard, guard.redis, guard.local.Values
      ensures accounts.Valid() && guard.Valid()
      ensures code == OK <==> env.valid && !old(IsLocked(email, env)) && env.stored && old(IsRight(email, password))
      ensures env.valid && old(IsLocked(email, env)) ==> code == ResourceExhausted
      ensures !env.valid || old(IsLocked(email, env)) || !env.stored || email !in old(accounts.last) ==>
                guard.redis.db == old(guard.redis.db)
      ensures env.valid && !old(IsLocked(email, env)) && env.stored && email in old(accounts.last)
              && !old(IsRight(email, password)) && env.recorded == Calls(true, true, true) ==>
                && guard.redis.db == Failed(old(guard.redis.db), email, guard.pol, env.now).0
                && code == if Failed(old(guard.redis.db), email, guard.pol, env.now).1 then ResourceExhausted
                           else Unauthenticated
      ensures code == OK && env.cleared ==>
                Remaining(guard.redis.db, email, guard.pol, env.now) == guard.pol.maxAttempts
    {
      var refusal, right := Admit(email, password, env);
      if refusal.Some? { return refusal.value; }
      if !right {
        code := Punish(email, env);
      } else {
        Clear(email, env);
        code := OK;
      }
    }
  }
}
