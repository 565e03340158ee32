/**
 The brute-force guard: failed logins counted per email in Redis, with an in-process record
 per email as a fallback while Redis cannot be reached.
 */
module BruteForce {
  import opened Prelude
  import opened Redis

  datatype Policy = Policy(maxAttempts: int, window: int, lockoutTTL: int)

  function AttemptsKey(email: string): string { "bf:attempts:" + email }
  function LockedKey(email: string): string { "bf:locked:" + email }

  /** Keys of different emails and of different kinds never coincide. */
  lemma KeysApart(email: string, other: string)
    ensures AttemptsKey(email) != LockedKey(other)
    ensures email != other ==> AttemptsKey(email) != AttemptsKey(other) && LockedKey(email) != LockedKey(other)
  {
    assert AttemptsKey(email)[3] == 'a' && LockedKey(other)[3] == 'l';
    assert AttemptsKey(email)[12..] == email && AttemptsKey(other)[12..] == other;
    assert LockedKey(email)[10..] == email && LockedKey(other)[10..] == other;
  }

  /** RecordFailure with Redis up: counts, and at the threshold swaps the counter for a lock. */
  function Failed(db: Db, email: string, pol: Policy, now: Time): (Db, bool) {
    var (db', count) := Incr(db, AttemptsKey(email), pol.window / SECOND, now);
    if count >= pol.maxAttempts then
      (Put(db', LockedKey(email), 1, pol.lockoutTTL, now) - {AttemptsKey(email)}, true)
    else (db', false)
  }

  /** What happens to the three Redis calls of RecordFailure. */
  datatype Calls = Calls(counted: bool, written: bool, deleted: bool)

  /** RecordFailure when the lock or the deletion of the counter may fail: the answer is None for
      an error. Without a lock the counter stays, at or above the threshold. */
  function FailedWith(db: Db, email: string, pol: Policy, now: Time, c: Calls): (Db, Option<bool>)
    requires c.counted
    ensures c.written && c.deleted ==>
              FailedWith(db, email, pol, now, c) == (Failed(db, email, pol, now).0, Some(Failed(db, email, pol, now).1))
  {
    var (db', count) := Incr(db, AttemptsKey(email), pol.window / SECOND, now);
    if count < pol.maxAttempts then (db', Some(false))
    else if !c.written then (db', None)
    else
      var db'' := Put(db', LockedKey(email), 1, pol.lockoutTTL, now);
      (if c.deleted then db'' - {AttemptsKey(email)} else db'', Some(true))
  }

  predicate Locked(db: Db, email: string, now: Time) {
    Live(db, LockedKey(email), now)
  }

  /** AttemptsRemaining with Redis up. */
  function Remaining(db: Db, email: string, pol: Policy, now: Time): int {
    if Locked(db, email, now) then 0
    else
      match Read(db, AttemptsKey(email), now)
      case None => pol.maxAttempts
      case Some(count) => if count < pol.maxAttempts then pol.maxAttempts - count else 0
  }

  /** The in-process record of one email; its zero value is that of Go's time.Time. */
  datatype Record = Record(count: int, windowEnd: Time, lockedUntil: Time)

  const NoRecord := Record(0, 0, 0)

  function RecordFailed(e: Record, now: Time, pol: Policy): (Record, bool) {
    var current := if now > e.windowEnd then Record(0, now + pol.window, e.lockedUntil) else e;
    if current.count + 1 >= pol.maxAttempts then
      (Record(0, current.windowEnd, now + pol.lockoutTTL), true)
    else (current.(count := current.count + 1), false)
  }

  /** AttemptsRemaining while Redis is down. */
  function RecordRemaining(e: Record, now: Time, pol: Policy): int {
    if now < e.lockedUntil then 0
    else if e.count < pol.maxAttempts then pol.maxAttempts - e.count else 0
  }

  class LocalEntry {
    var count: int
    var windowEnd: Time
    var lockedUntil: Time

    constructor ()
      ensures Value() == NoRecord
    {
      count, windowEnd, lockedUntil := 0, 0, 0;
    }

    function Value(): Record
      reads this
    {
      Record(count, windowEnd, lockedUntil)
    }

    predicate IsLocked(now: Time)
      reads this
    {
      now < lockedUntil
    }

    method RecordFailure(now: Time, pol: Policy) returns (locked: bool)
      modifies this
      ensures (Value(), locked) == RecordFailed(old(Value()), now, pol)
    {
      if now > windowEnd {
        count := 0;
        windowEnd := now + pol.window;
      }
      count := count + 1;
      if count >= pol.maxAttempts {
        lockedUntil := now + pol.lockoutTTL;
        count := 0;
        return true;
      }
      return false;
    }
  }

  class Guard {
    const redis: Server
    const pol: Policy
    var local: map<string, LocalEntry>

    constructor (redis: Server, pol: Policy)
      ensures Valid() && this.redis == redis && this.pol == pol && local == map[]
    {
      this.redis, this.pol, local := redis, pol, map[];
    }

    /** Each email has an entry of its own. */
    ghost predicate Valid()
      reads this
    {
      forall e, f :: e in local && f in local && e != f ==> local[e] != local[f]
    }

    /** The in-process records; an email without an entry counts as one with a zero entry. */
    ghost function RecordOf(email: string): Record
      reads this, local.Values
    {
      if email in local then local[email].Value() else NoRecord
    }

    method GetLocalEntry(email: string) returns (e: LocalEntry)
      requires Valid()
      modifies this
      ensures Valid() && email in local && local[email] == e
      ensures local.Keys == old(local.Keys) + {email} && fresh(local.Values - old(local.Values))
      ensures forall f :: RecordOf(f) == old(RecordOf(f))
    {
      if email !in local {
        e := new LocalEntry();
        local := local[email := e];
      }
      e := local[email];
    }

    method IsLocked(email: string, now: Time, up: bool) returns (locked: bool)
      requires Valid()
      modifies this
      ensures Valid() && (forall f :: RecordOf(f) == old(RecordOf(f)))
      ensures fresh(local.Values - old(local.Values))
      ensures locked == if up then Locked(redis.db, email, now) else now < RecordOf(email).lockedUntil
    {
      if !up {
        var e := GetLocalEntry(email);
        return e.IsLocked(now);
      }
      return Live(redis.db, LockedKey(email), now);
    }

    /** Answers None when the lock could not be written; a failed delete is ignored. */
    method RecordFailure(email: string, now: Time, c: Calls) returns (locked: Option<bool>)
      requires Valid()
      modifies this, redis, local.Values
      ensures Valid()
      ensures c.counted ==> (redis.db, locked) == FailedWith(old(redis.db), email, pol, now, c)
      ensures c.counted ==> forall f :: RecordOf(f) == old(RecordOf(f))
      ensures !c.counted ==> redis.db == old(redis.db)
      ensures !c.counted ==> locked.Some?
                             && (RecordOf(email), locked.value) == RecordFailed(old(RecordOf(email)), now, pol)
      ensures !c.counted ==> forall f :: f != email ==> RecordOf(f) == old(RecordOf(f))
    {
      if !c.counted {
        var e := GetLocalEntry(email);
        var wasLocked := e.RecordFailure(now, pol);
        return Some(wasLocked);
      }
      var count := redis.IncrExpire(AttemptsKey(email), pol.window / SECOND, now);
      if count >= pol.maxAttempts {
        if !c.written { return None; }
        redis.Set(LockedKey(email), 1, pol.lockoutTTL, now);
        if c.deleted { redis.Del({AttemptsKey(email)}); }
        return Some(true);
      }
      return Some(false);
    }

    method Reset(email: string, up: bool)
      requires Valid()
      modifies this, redis
      ensures Valid() && RecordOf(email) == NoRecord
      ensures forall f :: f != email ==> RecordOf(f) == old(RecordOf(f))
      ensures redis.db == if up then old(redis.db) - {AttemptsKey(email), LockedKey(email)} else old(redis.db)
    {
      if up { redis.Del({AttemptsKey(email), LockedKey(email)}); }
      local := local - {email};
    }

    method AttemptsRemaining(email: string, now: Time, up: bool) returns (r: int)
      requires Valid()
      modifies this
      ensures Valid() && (forall f :: RecordOf(f) == old(RecordOf(f)))
      ensures r == if up then Remaining(redis.db, email, pol, now)
                   else RecordRemaining(RecordOf(email), now, pol)
    {
      var locked := IsLocked(email, now, up);
      if locked { return 0; }
      if !up {
        var e := GetLocalEntry(email);
        return if pol.maxAttempts - e.count > 0 then pol.maxAttempts - e.count else 0;
      }
      var count := Read(redis.db, AttemptsKey(email), now);
      if count == None { return pol.maxAttempts; }
      r := if pol.maxAttempts - count.value > 0 then pol.maxAttempts - count.value else 0;
    }
  }
}
