/** How many passwords the guard lets an attacker try, with Redis up. */
module BruteForceBound {
  import opened Prelude
  import opened Redis
  import opened BruteForce

  /** One login with a wrong password for a registered email. */
  datatype Try = Try(email: string, at: Time)

  /** Login's use of the guard: a locked email is turned away before the password check. */
  function Attempt(db: Db, pol: Policy, t: Try): Db {
    if Locked(db, t.email, t.at) then db else Failed(db, t.email, pol, t.at).0
  }

  function After(db: Db, pol: Policy, ts: seq<Try>): Db {
    if ts == [] then db else Attempt(After(db, pol, ts[..|ts| - 1]), pol, ts[|ts| - 1])
  }

  /** The number of passwords checked for one email. */
  function Checks(db: Db, pol: Policy, ts: seq<Try>, email: string): nat {
    if ts == [] then 0
    else
      var init, t := ts[..|ts| - 1], ts[|ts| - 1];
      Checks(db, pol, init, email)
      + if t.email == email && !Locked(After(db, pol, init), email, t.at) then 1 else 0
  }

  /** The attempts come in order, between `lo` and `hi`. */
  predicate Timely(ts: seq<Try>, lo: Time, hi: Time) {
    && (forall i :: 0 <= i < |ts| ==> lo <= ts[i].at <= hi)
    && (forall i, j :: 0 <= i < j < |ts| ==> ts[i].at <= ts[j].at)
  }

  /** A policy that asks for no failure at all locks at the first one. */
  function Cap(pol: Policy): nat {
    if pol.maxAttempts < 1 then 1 else pol.maxAttempts
  }

  /** The shorter of the counting window, in whole seconds, and the lockout. */
  function Period(pol: Policy): int {
    var window := pol.window / SECOND * SECOND;
    if window < pol.lockoutTTL then window else pol.lockoutTTL
  }

  /** Bookkeeping of the proof: `rounds` counters have been opened since `t0`, the last one at
      `start`; each was opened at least one period after the one before and counted at most
      `Cap` checks. */
  ghost predicate Paced(db: Db, pol: Policy, email: string, t0: Time, checks: nat, rounds: nat, start: Time) {
    var a, l, cap := AttemptsKey(email), LockedKey(email), Cap(pol);
    if rounds == 0 then checks == 0
    else
      && start >= t0 + (rounds - 1) * Period(pol)
      && if a in db then
           && 1 <= db[a].value < cap
           && db[a].expiresAt == Some(start + pol.window / SECOND * SECOND)
           && checks <= cap * (rounds - 1) + db[a].value
         else
           && l in db && db[l].expiresAt.Some? && db[l].expiresAt.value >= start + pol.lockoutTTL
           && checks <= cap * rounds
  }

  /** What a check for the email does to its two keys. */
  lemma FailedKeys(db: Db, email: string, pol: Policy, now: Time)
    requires pol.window >= SECOND && pol.lockoutTTL > 0
    requires Live(db, AttemptsKey(email), now) ==> db[AttemptsKey(email)].value >= 1
    ensures var a, l := AttemptsKey(email), LockedKey(email);
            var db' := Failed(db, email, pol, now).0;
            var live := Live(db, a, now);
            var count := if live then db[a].value + 1 else 1;
            if count >= pol.maxAttempts then a !in db' && l in db' && db'[l].expiresAt == Some(now + pol.lockoutTTL)
            else
              && a in db'
              && db'[a] == Entry(count, if live then db[a].expiresAt else Some(now + pol.window / SECOND * SECOND))
  {
    KeysApart(email, email);
  }

  /** An attempt on another email leaves the keys of this one alone. */
  lemma OthersApart(db: Db, pol: Policy, t: Try, email: string)
    requires t.email != email
    ensures var db' := Attempt(db, pol, t);
            && (AttemptsKey(email) in db' <==> AttemptsKey(email) in db)
            && (AttemptsKey(email) in db ==> db'[AttemptsKey(email)] == db[AttemptsKey(email)])
            && (LockedKey(email) in db' <==> LockedKey(email) in db)
            && (LockedKey(email) in db ==> db'[LockedKey(email)] == db[LockedKey(email)])
  {
    KeysApart(email, t.email);
    KeysApart(t.email, email);
  }

  /** A check while the current counter is alive stays in its round. */
  lemma SameRound(db: Db, pol: Policy, email: string, now: Time, t0: Time, checks: nat, rounds: nat, start: Time)
    requires pol.window >= SECOND && pol.lockoutTTL > 0
    requires Paced(db, pol, email, t0, checks, rounds, start) && rounds > 0 && start <= now
    requires Live(db, AttemptsKey(email), now)
    ensures Paced(Failed(db, email, pol, now).0, pol, email, t0, checks + 1, rounds, start)
  {
    FailedKeys(db, email, pol, now);
    assert Cap(pol) * rounds == Cap(pol) * (rounds - 1) + Cap(pol);
  }

  /** A check without a live counter opens a round, at least one period after the last. */
  lemma NewRound(db: Db, pol: Policy, email: string, now: Time, t0: Time, checks: nat, rounds: nat, start: Time)
    requires pol.window >= SECOND && pol.lockoutTTL > 0
    requires Paced(db, pol, email, t0, checks, rounds, start) && t0 <= now
    requires !Live(db, AttemptsKey(email), now) && !Locked(db, email, now)
    ensures Paced(Failed(db, email, pol, now).0, pol, email, t0, checks + 1, rounds + 1, now)
  {
    FailedKeys(db, email, pol, now);
    var cap := Cap(pol);
    if rounds > 0 {
      assert checks <= cap * rounds by {
        assert cap * rounds == cap * (rounds - 1) + cap;
      }
      assert now >= start + Period(pol);
      assert rounds * Period(pol) == (rounds - 1) * Period(pol) + Period(pol);
    }
    assert cap * (rounds + 1) == cap * rounds + cap;
  }

  lemma PacedStep(db: Db, pol: Policy, t: Try, email: string, t0: Time, checks: nat, rounds: nat, start: Time)
    returns (rounds': nat, start': Time)
    requires pol.window >= SECOND && pol.lockoutTTL > 0
    requires Paced(db, pol, email, t0, checks, rounds, start) && t0 <= t.at
    requires if rounds == 0 then !Live(db, AttemptsKey(email), t0) else start <= t.at
    ensures var checked := t.email == email && !Locked(db, email, t.at);
            Paced(Attempt(db, pol, t), pol, email, t0, if checked then checks + 1 else checks, rounds', start')
    ensures if rounds' == 0 then !Live(Attempt(db, pol, t), AttemptsKey(email), t0) else start' <= t.at
  {
    rounds', start' := rounds, start;
    if t.email != email {
      OthersApart(db, pol, t, email);
    } else if !Locked(db, email, t.at) {
      if Live(db, AttemptsKey(email), t.at) {
        SameRound(db, pol, email, t.at, t0, checks, rounds, start);
      } else {
        NewRound(db, pol, email, t.at, t0, checks, rounds, start);
        rounds', start' := rounds + 1, t.at;
      }
    }
  }

  /** The bookkeeping can be kept up along any sequence of attempts on any emails. */
  lemma {:induction false} PacedAlways(db: Db, pol: Policy, ts: seq<Try>, email: string, t0: Time)
    returns (rounds: nat, start: Time)
    requires pol.window >= SECOND && pol.lockoutTTL > 0
    requires forall i, j :: 0 <= i < j < |ts| ==> ts[i].at <= ts[j].at
    requires forall i :: 0 <= i < |ts| ==> t0 <= ts[i].at
    requires !Live(db, AttemptsKey(email), t0)
    ensures Paced(After(db, pol, ts), pol, email, t0, Checks(db, pol, ts, email), rounds, start)
    ensures if rounds == 0 then !Live(After(db, pol, ts), AttemptsKey(email), t0)
            else ts != [] && start <= ts[|ts| - 1].at
  {
    if ts == [] {
      rounds, start := 0, t0;
    } else {
      var init, t := ts[..|ts| - 1], ts[|ts| - 1];
      rounds, start := PacedAlways(db, pol, init, email, t0);
      rounds, start := PacedStep(After(db, pol, init), pol, t, email, t0,
                                 Checks(db, pol, init, email), rounds, start);
    }
  }

  lemma ScaledBound(cap: nat, n: nat, m: int, t: int)
    requires m > 0 && n * m <= t
    ensures cap * (n + 1) <= cap * (t / m + 1)
  {
    assert n <= t / m by {
      assert t < (t / m + 1) * m;
      assert n * m < (t / m + 1) * m ==> n < t / m + 1;
    }
    assert 0 <= cap * (t / m - n) == cap * (t / m + 1) - cap * (n + 1);
  }

  lemma RoundsBound(cap: nat, checks: nat, rounds: nat, m: int, T: nat)
    requires m > 0
    requires if rounds == 0 then checks == 0 else checks <= cap * rounds && (rounds - 1) * m <= T
    ensures checks <= cap * (T / m + 1)
  {
    if rounds > 0 { ScaledBound(cap, rounds - 1, m, T); } else { ScaledBound(cap, 0, m, T); }
  }

  lemma PacedTotal(db: Db, pol: Policy, email: string, t0: Time, checks: nat, rounds: nat, start: Time, T: nat)
    requires pol.window >= SECOND && pol.lockoutTTL > 0
    requires Paced(db, pol, email, t0, checks, rounds, start) && (rounds > 0 ==> start <= t0 + T)
    ensures checks <= Cap(pol) * (T / Period(pol) + 1)
  {
    if rounds > 0 {
      assert Cap(pol) * rounds == Cap(pol) * (rounds - 1) + Cap(pol);
    }
    RoundsBound(Cap(pol), checks, rounds, Period(pol), T);
  }

  /** Within time T of the first failure, with no counter running before it, at most
      Cap * (T / Period + 1) passwords are checked for one email, whatever attempts are made on
      it and on others, and at whatever times. */
  lemma GuessesAreBounded(db: Db, pol: Policy, ts: seq<Try>, email: string, t0: Time, T: nat)
    requires pol.window >= SECOND && pol.lockoutTTL > 0
    requires Timely(ts, t0, t0 + T) && !Live(db, AttemptsKey(email), t0)
    ensures Checks(db, pol, ts, email) <= Cap(pol) * (T / Period(pol) + 1)
  {
    var rounds, start := PacedAlways(db, pol, ts, email, t0);
    PacedTotal(After(db, pol, ts), pol, email, t0, Checks(db, pol, ts, email), rounds, start, T);
  }

  /** Repeated addition, to keep the proofs below linear. */
  function Times(r: nat, x: nat): nat {
    if r == 0 then 0 else Times(r - 1, x) + x
  }

  lemma {:induction false} TimesIsProduct(r: nat, x: nat)
    ensures Times(r, x) == r * x
  {
    if r > 0 { TimesIsProduct(r - 1, x); }
  }

  function Volley(email: string, at: Time, k: nat): seq<Try> {
    seq(k, _ => Try(email, at))
  }

  /** The fastest attack: volleys of `Cap` attempts, one lockout apart. */
  function Volleys(email: string, pol: Policy, t0: Time, r: nat): seq<Try>
    requires pol.lockoutTTL > 0
  {
    if r == 0 then []
    else Volleys(email, pol, t0, r - 1) + Volley(email, t0 + Times(r - 1, pol.lockoutTTL), Cap(pol))
  }

  lemma {:induction false} VolleyTimes(email: string, pol: Policy, t0: Time, r: nat)
    requires pol.lockoutTTL > 0
    ensures Timely(Volleys(email, pol, t0, r + 1), t0, t0 + Times(r, pol.lockoutTTL))
  {
    var before, now := Volleys(email, pol, t0, r), t0 + Times(r, pol.lockoutTTL);
    if r > 0 {
      VolleyTimes(email, pol, t0, r - 1);
      assert Timely(before, t0, now);
    }
    assert Timely(before + Volley(email, now, Cap(pol)), t0, now);
  }

  lemma {:induction false} Compose(db: Db, pol: Policy, ts: seq<Try>, us: seq<Try>, email: string)
    ensures After(db, pol, ts + us) == After(After(db, pol, ts), pol, us)
    ensures Checks(db, pol, ts + us, email) == Checks(db, pol, ts, email) + Checks(After(db, pol, ts), pol, us, email)
  {
    if us == [] {
      assert ts + us == ts;
    } else {
      Compose(db, pol, ts, us[..|us| - 1], email);
      assert (ts + us)[..|ts + us| - 1] == ts + us[..|us| - 1];
    }
  }

  lemma FailedSparesLock(db: Db, email: string, pol: Policy, now: Time)
    requires !Failed(db, email, pol, now).1
    ensures Live(Failed(db, email, pol, now).0, LockedKey(email), now) <==> Live(db, LockedKey(email), now)
  {
    KeysApart(email, email);
  }

  /** The two keys of the email once `k` attempts of a volley at `now` have been made. */
  ghost predicate MidVolley(db: Db, email: string, pol: Policy, now: Time, k: nat) {
    var a, l := AttemptsKey(email), LockedKey(email);
    if k >= Cap(pol) then a !in db && l in db && db[l].expiresAt == Some(now + pol.lockoutTTL)
    else
      && !Locked(db, email, now)
      && if k == 0 then a !in db
         else a in db && db[a] == Entry(k, Some(now + pol.window / SECOND * SECOND))
  }

  lemma VolleyStep(db: Db, email: string, pol: Policy, now: Time, k: nat)
    requires pol.window >= SECOND && pol.lockoutTTL > 0 && k < Cap(pol)
    requires MidVolley(db, email, pol, now, k)
    ensures !Locked(db, email, now) && MidVolley(Attempt(db, pol, Try(email, now)), email, pol, now, k + 1)
  {
    FailedKeys(db, email, pol, now);
    if !Failed(db, email, pol, now).1 { FailedSparesLock(db, email, pol, now); }
  }

  /** One lockout after a full volley the email is as new. */
  lemma LockExpires(db: Db, email: string, pol: Policy, now: Time)
    requires MidVolley(db, email, pol, now, Cap(pol))
    ensures MidVolley(db, email, pol, now + pol.lockoutTTL, 0)
  {
  }

  lemma {:induction false} VolleyChecks(db: Db, email: string, pol: Policy, now: Time, k: nat)
    requires pol.window >= SECOND && pol.lockoutTTL > 0 && k <= Cap(pol)
    requires MidVolley(db, email, pol, now, 0)
    ensures Checks(db, pol, Volley(email, now, k), email) == k
    ensures MidVolley(After(db, pol, Volley(email, now, k)), email, pol, now, k)
  {
    if k > 0 {
      VolleyChecks(db, email, pol, now, k - 1);
      var ts := Volley(email, now, k);
      assert ts[..|ts| - 1] == Volley(email, now, k - 1);
      VolleyStep(After(db, pol, ts[..|ts| - 1]), email, pol, now, k - 1);
    }
  }

  /** Every attempt of the attack reaches the password check. */
  lemma {:induction false} VolleysCheck(db: Db, email: string, pol: Policy, t0: Time, r: nat)
    requires pol.window >= SECOND && pol.lockoutTTL > 0
    requires MidVolley(db, email, pol, t0, 0)
    ensures Checks(db, pol, Volleys(email, pol, t0, r), email) == Times(r, Cap(pol))
    ensures MidVolley(After(db, pol, Volleys(email, pol, t0, r)), email, pol, t0 + Times(r, pol.lockoutTTL), 0)
  {
    if r > 0 {
      VolleysCheck(db, email, pol, t0, r - 1);
      var ts, now := Volleys(email, pol, t0, r - 1), t0 + Times(r - 1, pol.lockoutTTL);
      assert Volleys(email, pol, t0, r) == ts + Volley(email, now, Cap(pol));
      NextVolley(db, email, pol, ts, now);
    }
  }

  lemma NextVolley(db: Db, email: string, pol: Policy, ts: seq<Try>, now: Time)
    requires pol.window >= SECOND && pol.lockoutTTL > 0
    requires MidVolley(After(db, pol, ts), email, pol, now, 0)
    ensures var us := ts + Volley(email, now, Cap(pol));
            && Checks(db, pol, us, email) == Checks(db, pol, ts, email) + Cap(pol)
            && MidVolley(After(db, pol, us), email, pol, now + pol.lockoutTTL, 0)
  {
    VolleyChecks(After(db, pol, ts), email, pol, now, Cap(pol));
    Compose(db, pol, ts, Volley(email, now, Cap(pol)), email);
    LockExpires(After(db, pol, ts + Volley(email, now, Cap(pol))), email, pol, now);
  }

  /** The bound cannot be improved when the lockout is no longer than the window: for every n,
      some attack reaches it exactly within n lockouts of its first failure. */
  lemma BoundIsTight(email: string, pol: Policy, t0: Time, n: nat) returns (ts: seq<Try>)
    requires pol.window >= SECOND && 0 < pol.lockoutTTL <= pol.window / SECOND * SECOND
    ensures Timely(ts, t0, t0 + n * Period(pol))
    ensures Checks(map[], pol, ts, email) == Cap(pol) * (n * Period(pol) / Period(pol) + 1)
  {
    ts := Attack(email, pol, t0, n);
    TimesIsProduct(n, Period(pol));
    TightArithmetic(n, Cap(pol), Period(pol));
  }

  lemma Attack(email: string, pol: Policy, t0: Time, n: nat) returns (ts: seq<Try>)
    requires pol.window >= SECOND && pol.lockoutTTL > 0
    ensures Timely(ts, t0, t0 + Times(n, pol.lockoutTTL))
    ensures Checks(map[], pol, ts, email) == Times(n + 1, Cap(pol))
  {
    ts := Volleys(email, pol, t0, n + 1);
    VolleyTimes(email, pol, t0, n);
    VolleysCheck(map[], email, pol, t0, n + 1);
  }

  lemma TightArithmetic(n: nat, cap: nat, m: int)
    requires m > 0
    ensures Times(n + 1, cap) == cap * (n * m / m + 1)
  {
    TimesIsProduct(n, cap);
    var d := n * m / m - n;
    assert d * m == 0 - n * m % m;
    assert d >= 1 ==> d * m >= m;
    assert d <= -1 ==> d * m <= 0 - m;
  }
}
