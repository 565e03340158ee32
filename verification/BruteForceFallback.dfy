/** The in-process fallback in closed form, and the forecasts of AttemptsRemaining. */
module BruteForceFallback {
  import opened Prelude
  import opened Redis
  import opened BruteForce
  import opened BruteForceBound

  /** The record of an email after failures at these times. */
  function RecordAfter(e: Record, ts: seq<Time>, pol: Policy): Record {
    if ts == [] then e
    else RecordFailed(RecordAfter(e, ts[..|ts| - 1], pol), ts[|ts| - 1], pol).0
  }

  /** Whether the i-th failure locks. */
  predicate LocksAt(e: Record, ts: seq<Time>, pol: Policy, i: nat)
    requires i < |ts|
  {
    RecordFailed(RecordAfter(e, ts[..i], pol), ts[i], pol).1
  }

  /** The failure that opened the window the i-th one falls into: the first failure after the
      end of the previous window. */
  function Opener(ts: seq<Time>, window: int, i: nat): (o: nat)
    requires i < |ts|
    ensures o <= i
  {
    if i == 0 then 0
    else
      var o := Opener(ts, window, i - 1);
      if ts[i] > ts[o] + window then i else o
  }

  /** The place of the i-th failure in its window, counted from 1. */
  function Place(ts: seq<Time>, window: int, i: nat): (k: nat)
    requires i < |ts|
    ensures k >= 1
  {
    i - Opener(ts, window, i) + 1
  }

  lemma ModUnique(x: nat, q: nat, r: nat, cap: nat)
    requires r < cap && x == q * cap + r
    ensures x % cap == r
  {
    var d := x / cap - q;
    assert d * cap == r - x % cap;
    assert d >= 1 ==> d * cap >= cap;
    assert d <= -1 ==> d * cap <= 0 - cap;
  }

  lemma ModStep(k: nat, cap: nat)
    requires cap >= 1
    ensures (k + 1) % cap == if k % cap + 1 == cap then 0 else k % cap + 1
  {
    var q, r := k / cap, k % cap;
    if r + 1 == cap {
      assert k + 1 == (q + 1) * cap;
      ModUnique(k + 1, q + 1, 0, cap);
    } else {
      ModUnique(k + 1, q, r + 1, cap);
    }
  }

  /** The k-th failure of a window locks exactly when the cap divides k; the record counts the
      failures since the last multiple and keeps the end of the window. */
  lemma {:induction false} FallbackClosedForm(ts: seq<Time>, pol: Policy, i: nat)
    requires i < |ts| && forall j :: 0 <= j < |ts| ==> ts[j] > 0
    ensures LocksAt(NoRecord, ts, pol, i) <==> Place(ts, pol.window, i) % Cap(pol) == 0
    ensures var e := RecordAfter(NoRecord, ts[..i + 1], pol);
            && e.count == Place(ts, pol.window, i) % Cap(pol) < Cap(pol)
            && e.windowEnd == ts[Opener(ts, pol.window, i)] + pol.window
  {
    var e := RecordAfter(NoRecord, ts[..i], pol);
    assert ts[..i + 1][..i] == ts[..i];
    if i > 0 {
      FallbackClosedForm(ts, pol, i - 1);
      ModStep(Place(ts, pol.window, i - 1), Cap(pol));
    }
    ModStep(0, Cap(pol));
  }

  /** The lockout deadline the first `n` failures leave: that of the last one whose place is a
      multiple of the cap. */
  function LockEnd(ts: seq<Time>, pol: Policy, n: nat): Time
    requires n <= |ts|
  {
    if n == 0 then 0
    else if Place(ts, pol.window, n - 1) % Cap(pol) == 0 then ts[n - 1] + pol.lockoutTTL
    else LockEnd(ts, pol, n - 1)
  }

  lemma {:induction false} LockedUntilClosedForm(ts: seq<Time>, pol: Policy, n: nat)
    requires n <= |ts| && forall j :: 0 <= j < |ts| ==> ts[j] > 0
    ensures RecordAfter(NoRecord, ts[..n], pol).lockedUntil == LockEnd(ts, pol, n)
  {
    if n > 0 {
      LockedUntilClosedForm(ts, pol, n - 1);
      FallbackClosedForm(ts, pol, n - 1);
      assert ts[..n][..n - 1] == ts[..n - 1];
    }
  }

  lemma {:induction false} LockEndBound(ts: seq<Time>, pol: Policy, n: nat, t: Time)
    requires n <= |ts| && pol.lockoutTTL >= 0 && t >= 0
    requires forall i :: 0 <= i < n ==> ts[i] <= t
    ensures LockEnd(ts, pol, n) <= t + pol.lockoutTTL
  {
    if n > 0 { LockEndBound(ts, pol, n - 1, t); }
  }

  /** With a clock that does not run backwards, a lock is never shortened. */
  lemma LockNeverShortened(ts: seq<Time>, pol: Policy, n: nat)
    requires n < |ts| && pol.lockoutTTL >= 0
    requires forall j :: 0 <= j < |ts| ==> ts[j] > 0
    requires forall i, j :: 0 <= i < j < |ts| ==> ts[i] <= ts[j]
    ensures RecordAfter(NoRecord, ts[..n], pol).lockedUntil <= RecordAfter(NoRecord, ts[..n + 1], pol).lockedUntil
  {
    LockedUntilClosedForm(ts, pol, n);
    LockedUntilClosedForm(ts, pol, n + 1);
    LockEndBound(ts, pol, n, ts[n]);
  }

  /** From a record, failures inside one window count up without locking below the cap. */
  lemma {:induction false} CountsUp(e: Record, ts: seq<Time>, pol: Policy, i: nat)
    requires e.count >= 0 && i < |ts| && forall j, k :: 0 <= j < k < |ts| ==> ts[j] <= ts[k]
    requires var late := ts[0] > e.windowEnd;
             && (forall j :: 0 <= j < |ts| ==> ts[j] <= if late then ts[0] + pol.window else e.windowEnd)
             && (if late then 0 else e.count) + i < pol.maxAttempts
    ensures var late := ts[0] > e.windowEnd;
            var r := RecordAfter(e, ts[..i], pol);
            && (i == 0 ==> r == e)
            && (i > 0 ==>
                  && r.count == (if late then 0 else e.count) + i
                  && r.windowEnd == if late then ts[0] + pol.window else e.windowEnd)
            && (LocksAt(e, ts, pol, i) <==> (if late then 0 else e.count) + i + 1 == pol.maxAttempts)
  {
    if i > 0 {
      CountsUp(e, ts, pol, i - 1);
      assert ts[..i][..i - 1] == ts[..i - 1];
    }
  }

  /** The forecast of AttemptsRemaining while Redis is down. If it answers r > 0 and the next r
      failures fall into one window, then exactly the r-th of them locks if and only if the
      count it read is zero or still belongs to that window: the code does not look at the
      window's end. */
  lemma FallbackForecast(e: Record, pol: Policy, now: Time, ts: seq<Time>)
    requires e.count >= 0 && RecordRemaining(e, now, pol) == |ts| > 0
    requires forall j, k :: 0 <= j < k < |ts| ==> ts[j] <= ts[k]
    requires forall j :: 0 <= j < |ts| ==>
               now <= ts[j] <= if ts[0] > e.windowEnd then ts[0] + pol.window else e.windowEnd
    ensures (forall i :: 0 <= i < |ts| ==> (LocksAt(e, ts, pol, i) <==> i == |ts| - 1))
       <==> (e.count == 0 || ts[0] <= e.windowEnd)
  {
    forall i | 0 <= i < |ts|
      ensures LocksAt(e, ts, pol, i) <==>
                (if ts[0] > e.windowEnd then 0 else e.count) + i + 1 == pol.maxAttempts
    {
      CountsUp(e, ts, pol, i);
    }
    assert LocksAt(e, ts, pol, |ts| - 1) <==>
             (if ts[0] > e.windowEnd then 0 else e.count) + |ts| == pol.maxAttempts;
  }

  /** Failures at one moment, below the cap. */
  lemma {:induction false} SteadyFailures(t: Time, pol: Policy, n: nat)
    requires t > 0 && pol.window >= 0 && 1 <= n < pol.maxAttempts
    ensures RecordAfter(NoRecord, seq(n, _ => t), pol) == Record(n, t + pol.window, 0)
  {
    var ts := seq(n, _ => t);
    var init := seq(n - 1, _ => t);
    assert ts[..n - 1] == init;
    if n > 1 { SteadyFailures(t, pol, n - 1); }
  }

  /** A stale count misleads the forecast, under every policy that allows a failure: after all
      but one of the failures that lock, and once their window is over, AttemptsRemaining
      announces a lock at the next failure, and that failure does not lock. */
  lemma StaleCountMisleads(t: Time, pol: Policy, now: Time)
    requires t > 0 && pol.window >= 0 && pol.maxAttempts >= 2 && now > t + pol.window
    ensures var e := RecordAfter(NoRecord, seq(pol.maxAttempts - 1, _ => t), pol);
            RecordRemaining(e, now, pol) == 1 && !RecordFailed(e, now, pol).1
  {
    SteadyFailures(t, pol, pol.maxAttempts - 1);
  }

  /** The database after failures of one email at these times. */
  function DbAfter(db: Db, email: string, pol: Policy, ts: seq<Time>): Db {
    if ts == [] then db
    else Failed(DbAfter(db, email, pol, ts[..|ts| - 1]), email, pol, ts[|ts| - 1]).0
  }

  predicate DbLocksAt(db: Db, email: string, pol: Policy, ts: seq<Time>, i: nat)
    requires i < |ts|
  {
    Failed(DbAfter(db, email, pol, ts[..i]), email, pol, ts[i]).1
  }

  /** The next failures fall inside the current window: before the running counter expires, or
      within the window the first of them opens. */
  predicate InWindow(db: Db, email: string, pol: Policy, now: Time, ts: seq<Time>) {
    var a := AttemptsKey(email);
    forall j :: 0 <= j < |ts| ==>
      && now <= ts[j]
      && if Live(db, a, now) then Live(db, a, ts[j])
         else !Live(db, a, ts[j]) && ts[j] < ts[0] + pol.window / SECOND * SECOND
  }

  lemma {:induction false} DbCountsUp(db: Db, email: string, pol: Policy, now: Time, ts: seq<Time>, i: nat)
    requires i < |ts| && InWindow(db, email, pol, now, ts)
    requires forall j, k :: 0 <= j < k < |ts| ==> ts[j] <= ts[k]
    requires var a := AttemptsKey(email);
             var c := if Live(db, a, now) then db[a].value else 0;
             (Live(db, a, now) ==> c >= 1) && c + i < pol.maxAttempts
    ensures var a := AttemptsKey(email);
            var live := Live(db, a, now);
            var c := if live then db[a].value else 0;
            var db' := DbAfter(db, email, pol, ts[..i]);
            && (i == 0 ==> db' == db)
            && (i > 0 ==> a in db' && db'[a] == Entry(c + i, if live then db[a].expiresAt
                                                            else Some(ts[0] + pol.window / SECOND * SECOND)))
            && (DbLocksAt(db, email, pol, ts, i) <==> c + i + 1 == pol.maxAttempts)
  {
    if i > 0 {
      DbCountsUp(db, email, pol, now, ts, i - 1);
      assert ts[..i][..i - 1] == ts[..i - 1];
    }
  }

  /** The forecast of AttemptsRemaining with Redis up: if it answers r > 0 and the next r
      failures fall inside the current window, exactly the r-th of them locks. */
  lemma Forecast(db: Db, email: string, pol: Policy, now: Time, ts: seq<Time>)
    requires Remaining(db, email, pol, now) == |ts| > 0 && InWindow(db, email, pol, now, ts)
    requires forall j, k :: 0 <= j < k < |ts| ==> ts[j] <= ts[k]
    requires Live(db, AttemptsKey(email), now) ==> db[AttemptsKey(email)].value >= 1
    ensures forall i :: 0 <= i < |ts| ==> (DbLocksAt(db, email, pol, ts, i) <==> i == |ts| - 1)
  {
    forall i | 0 <= i < |ts| ensures DbLocksAt(db, email, pol, ts, i) <==> i == |ts| - 1 {
      DbCountsUp(db, email, pol, now, ts, i);
    }
  }

  /** The counter as it stands: what is counted in the window that is open, if one is. */
  function Standing(db: Db, email: string, now: Time): int {
    if Live(db, AttemptsKey(email), now) then db[AttemptsKey(email)].value else 0
  }

  /** The forecast the other way round. For an email that is not locked and below the threshold, the
      answer is r exactly if of r failures inside the current window the last one, and no other,
      locks. */
  lemma ForecastExactly(db: Db, email: string, pol: Policy, now: Time, ts: seq<Time>)
    requires pol.maxAttempts >= 1 && !Locked(db, email, now) && Standing(db, email, now) < pol.maxAttempts
    requires Live(db, AttemptsKey(email), now) ==> db[AttemptsKey(email)].value >= 1
    requires ts != [] && InWindow(db, email, pol, now, ts) && forall j, k :: 0 <= j < k < |ts| ==> ts[j] <= ts[k]
    ensures Remaining(db, email, pol, now) == |ts|
       <==> (forall i :: 0 <= i < |ts| ==> (DbLocksAt(db, email, pol, ts, i) <==> i == |ts| - 1))
  {
    var left := pol.maxAttempts - Standing(db, email, now);
    forall i | 0 <= i < |ts| && i < left ensures DbLocksAt(db, email, pol, ts, i) <==> i == left - 1 {
      DbCountsUp(db, email, pol, now, ts, i);
    }
    assert left < |ts| ==> DbLocksAt(db, email, pol, ts, left - 1);
    assert left > |ts| ==> !DbLocksAt(db, email, pol, ts, |ts| - 1);
  }

  /** No attempts are left exactly if the email is locked or its running counter has reached the
      threshold. */
  lemma NoneLeftExactly(db: Db, email: string, pol: Policy, now: Time)
    requires pol.maxAttempts >= 1
    ensures Remaining(db, email, pol, now) == 0
       <==> Locked(db, email, now) || Standing(db, email, now) >= pol.maxAttempts
    ensures Remaining(db, email, pol, now) >= 0
  {
  }

  /** Failures of an email below the threshold touch its lock no more than others'. */
  lemma {:induction false} DbSparesLock(db: Db, email: string, pol: Policy, now: Time, ts: seq<Time>, at: Time)
    requires InWindow(db, email, pol, now, ts) && forall j, k :: 0 <= j < k < |ts| ==> ts[j] <= ts[k]
    requires !Live(db, AttemptsKey(email), now) && |ts| < pol.maxAttempts
    ensures Locked(DbAfter(db, email, pol, ts), email, at) == Locked(db, email, at)
  {
    if ts != [] {
      var init := ts[..|ts| - 1];
      assert forall j :: 0 <= j < |init| ==> init[j] == ts[j];
      DbSparesLock(db, email, pol, now, init, at);
      DbCountsUp(db, email, pol, now, ts, |ts| - 1);
      KeysApart(email, email);
    }
  }

  /** After k failures in the window that the first of them opened, and while it lasts, all but k
      attempts remain; with none, all of them do. */
  lemma RemainingAfter(db: Db, email: string, pol: Policy, now: Time, ts: seq<Time>, later: Time)
    requires InWindow(db, email, pol, now, ts) && forall j, k :: 0 <= j < k < |ts| ==> ts[j] <= ts[k]
    requires !Live(db, AttemptsKey(email), now) && |ts| < pol.maxAttempts && now <= later
    requires !Locked(db, email, later)
    requires ts != [] ==> ts[|ts| - 1] <= later < ts[0] + pol.window / SECOND * SECOND
    ensures Remaining(DbAfter(db, email, pol, ts), email, pol, later) == pol.maxAttempts - |ts|
  {
    DbSparesLock(db, email, pol, now, ts, later);
    if ts != [] {
      DbCountsUp(db, email, pol, now, ts, |ts| - 1);
    }
  }

  /** RecordFailure reports an error exactly if it should have locked and could not write the lock. */
  lemma LockFailsExactly(db: Db, email: string, pol: Policy, now: Time, c: Calls)
    requires c.counted && (Live(db, AttemptsKey(email), now) ==> db[AttemptsKey(email)].value >= 1)
    ensures FailedWith(db, email, pol, now, c).1 == None
       <==> !c.written && Standing(db, email, now) + 1 >= pol.maxAttempts
    ensures FailedWith(db, email, pol, now, c).1 == Some(true)
       <==> c.written && Standing(db, email, now) + 1 >= pol.maxAttempts
  {
  }

  /** A lock that could not be written is written at the next failure of the window. */
  lemma UnwrittenLockIsRetried(db: Db, email: string, pol: Policy, now: Time, c: Calls, later: Time, c': Calls)
    requires c.counted && c'.counted && c'.written && now <= later
    requires Live(db, AttemptsKey(email), now) ==> db[AttemptsKey(email)].value >= 1
    requires FailedWith(db, email, pol, now, c).1 == None
    requires Live(FailedWith(db, email, pol, now, c).0, AttemptsKey(email), later)
    ensures var (db', locked) := FailedWith(FailedWith(db, email, pol, now, c).0, email, pol, later, c');
            locked == Some(true) && (pol.lockoutTTL > 0 ==> Locked(db', email, later))
  {
    KeysApart(email, email);
  }

  /** Resetting an email gives it all its attempts back. */
  lemma RemainingAfterReset(db: Db, email: string, pol: Policy, now: Time)
    ensures Remaining(db - {AttemptsKey(email), LockedKey(email)}, email, pol, now) == pol.maxAttempts
  {
  }

  /** While Redis is down: after any failures, the answer is zero up to the end of the last lock, and
      then what is missing from the failures of the last window to the next multiple of the cap. */
  lemma RecordRemainingAfter(ts: seq<Time>, pol: Policy, now: Time)
    requires pol.maxAttempts >= 1 && forall j :: 0 <= j < |ts| ==> ts[j] > 0
    ensures RecordRemaining(RecordAfter(NoRecord, ts, pol), now, pol)
         == if now < LockEnd(ts, pol, |ts|) then 0
            else if ts == [] then pol.maxAttempts
            else pol.maxAttempts - Place(ts, pol.window, |ts| - 1) % pol.maxAttempts
  {
    LockedUntilClosedForm(ts, pol, |ts|);
    assert ts[..|ts|] == ts;
    if ts != [] { FallbackClosedForm(ts, pol, |ts| - 1); }
  }
}
