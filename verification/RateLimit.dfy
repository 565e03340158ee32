/** The fixed-window rate limiter. */
module RateLimit {
  import opened Prelude
  import opened Redis
  import opened Text

  datatype Limit = Limit(limit: int, window: int)

  /** Windows of a second or more, the domain of the limiter's guarantees. */
  predicate LongEnough(lim: Limit) {
    lim.window >= SECOND
  }

  /** Seconds from Go's zero time to the Unix epoch. */
  const UNIX_EPOCH: int := 62_135_596_800

  /** time.Truncate: down to a multiple of the window; a non-positive window changes nothing. */
  function Truncated(now: Time, window: int): Time {
    if window <= 0 then now else now / window * window
  }

  function WindowStart(now: Time, window: int): int {
    Truncated(now, window) / SECOND - UNIX_EPOCH
  }

  function RedisKey(key: string, windowStart: int): string {
    "rl:" + key + ":" + Decimal(windowStart)
  }

  function KeyAt(lim: Limit, key: string, now: Time): string {
    RedisKey(key, WindowStart(now, lim.window))
  }

  /** Twice the window, in whole seconds; Go's division truncates toward zero. */
  function TtlSeconds(lim: Limit): int {
    if lim.window >= 0 then lim.window * 2 / SECOND else -(-lim.window * 2 / SECOND)
  }

  /** A Redis call succeeds, is lost on the way there, or is lost on the way back. */
  datatype Fault = Up | LostRequest | LostReply

  /** The verdict of one call, and whether the check itself failed (failing open). */
  datatype Verdict = Allowed | Refused | FailedOpen

  function Check(db: Db, lim: Limit, key: string, now: Time, fault: Fault): (Db, Verdict) {
    var (db', count) := Incr(db, KeyAt(lim, key, now), TtlSeconds(lim), now);
    match fault
    case Up => (db', if count <= lim.limit then Allowed else Refused)
    case LostRequest => (db, FailedOpen)
    case LostReply => (db', FailedOpen)
  }

  class Limiter {
    const redis: Server
    const lim: Limit

    constructor (redis: Server, lim: Limit)
      ensures this.redis == redis && this.lim == lim
    {
      this.redis, this.lim := redis, lim;
    }

    method Allow(key: string, now: Time, fault: Fault) returns (v: Verdict)
      modifies redis
      ensures (redis.db, v) == Check(old(redis.db), lim, key, now, fault)
    {
      var windowStart := WindowStart(now, lim.window);
      var redisKey := RedisKey(key, windowStart);
      if fault == LostRequest { return FailedOpen; }
      var count := redis.IncrExpire(redisKey, TtlSeconds(lim), now);
      if fault == LostReply { return FailedOpen; }
      return if count <= lim.limit then Allowed else Refused;
    }
  }

  lemma NoColon(n: int)
    ensures ':' !in Decimal(n)
  {
    var s := Decimal(n);
    forall i | 0 <= i < |s| ensures s[i] != ':' {
      if n < 0 && i > 0 { assert s[i] == Digits(-n)[i - 1]; }
    }
  }

  /** Counters of different keys or different windows never share a Redis key, even when the
      keys contain colons themselves. */
  lemma KeysApart(key: string, start: int, key': string, start': int)
    ensures RedisKey(key, start) == RedisKey(key', start') <==> key == key' && start == start'
  {
    if RedisKey(key, start) == RedisKey(key', start') {
      NoColon(start);
      NoColon(start');
      var a, b := "rl:" + key, "rl:" + key';
      assert RedisKey(key, start) == a + [':'] + Decimal(start);
      assert RedisKey(key', start') == b + [':'] + Decimal(start');
      TailsAgree(a, b, ':', Decimal(start), Decimal(start'));
      assert a[3..] == key && b[3..] == key';
      DecimalInjective(start, start');
    }
  }

  /** The number of the aligned window a time falls into. */
  function WindowOf(lim: Limit, now: Time): int
    requires lim.window > 0
  {
    now / lim.window
  }

  lemma SecondsApart(a: int, b: int)
    requires a + SECOND <= b
    ensures a / SECOND < b / SECOND
  {
  }

  lemma {:induction false} AtLeastOne(d: int, w: int)
    requires d >= 1 && w >= 0
    ensures d * w >= w
  {
    if d > 1 {
      AtLeastOne(d - 1, w);
      assert d * w == (d - 1) * w + w;
    }
  }

  lemma MultiplesApart(j: int, k: int, w: int)
    requires j < k && w >= SECOND
    ensures j * w + SECOND <= k * w
  {
    var d := k - j;
    AtLeastOne(d, w);
    assert k * w == (j + d) * w == j * w + d * w;
  }

  /** Windows of a second or more are told apart by the second they start at. */
  lemma StartsApart(lim: Limit, s: Time, t: Time)
    requires LongEnough(lim)
    ensures WindowStart(s, lim.window) == WindowStart(t, lim.window) <==> WindowOf(lim, s) == WindowOf(lim, t)
  {
    var w, j, k := lim.window, s / lim.window, t / lim.window;
    if j < k {
      MultiplesApart(j, k, w);
      SecondsApart(j * w, k * w);
    } else if k < j {
      MultiplesApart(k, j, w);
      SecondsApart(k * w, j * w);
    }
  }

  /** Shorter ones are not: exactly the windows of a second or more have counters of their own. */
  lemma CountersApartExactly(lim: Limit)
    requires lim.window > 0
    ensures (forall s, t :: WindowStart(s, lim.window) == WindowStart(t, lim.window) ==>
               WindowOf(lim, s) == WindowOf(lim, t))
       <==> LongEnough(lim)
  {
    if LongEnough(lim) {
      forall s, t | WindowStart(s, lim.window) == WindowStart(t, lim.window)
        ensures WindowOf(lim, s) == WindowOf(lim, t)
      {
        StartsApart(lim, s, t);
      }
    } else {
      var w := lim.window;
      assert w / w == 1 && 0 / w == 0;
      assert WindowStart(0, w) == WindowStart(w, w) && WindowOf(lim, 0) != WindowOf(lim, w);
    }
  }

  /** The counter of one key and window holds `n` and outlives the window's end `hi`. */
  ghost predicate Counted(db: Db, rkey: string, n: nat, hi: Time) {
    if n == 0 then rkey !in db
    else rkey in db && db[rkey].value == n && db[rkey].expiresAt.Some? && db[rkey].expiresAt.value >= hi
  }

  /** An increment inside the window adds one: twice the window never expires a counter
      within its window. */
  lemma CountOne(db: Db, rkey: string, n: nat, seconds: int, now: Time, hi: Time)
    requires Counted(db, rkey, n, hi) && now < hi <= now + seconds * SECOND
    ensures Incr(db, rkey, seconds, now).1 == n + 1
    ensures Counted(Incr(db, rkey, seconds, now).0, rkey, n + 1, hi)
  {
  }

  lemma CountOther(db: Db, rkey: string, n: nat, hi: Time, other: string, seconds: int, now: Time)
    requires Counted(db, rkey, n, hi) && other != rkey
    ensures Counted(Incr(db, other, seconds, now).0, rkey, n, hi)
  {
  }

  lemma NextMultiple(x: int, w: int)
    requires w > 0
    ensures x < (x / w + 1) * w <= x + w
  {
    var q := x / w;
    assert x == q * w + x % w;
    assert (q + 1) * w == q * w + w;
  }

  lemma TtlIsLong(lim: Limit)
    requires LongEnough(lim)
    ensures lim.window <= TtlSeconds(lim) * SECOND <= 2 * lim.window
  {
  }

  /** A counter lives until its window is over, and no longer than two windows. */
  lemma TtlCovers(lim: Limit, now: Time)
    requires LongEnough(lim)
    ensures now < (WindowOf(lim, now) + 1) * lim.window <= now + TtlSeconds(lim) * SECOND <= now + 2 * lim.window
  {
    NextMultiple(now, lim.window);
    TtlIsLong(lim);
  }

  /** Below half a second it does not even live until the next call: with no counter of its key
      and window yet, a call is allowed, and leaves none behind. */
  lemma TinyWindowsNeverRefuse(db: Db, lim: Limit, key: string, now: Time, later: Time)
    requires 0 < lim.window * 2 < SECOND && lim.limit >= 1 && now <= later
    requires !Live(db, KeyAt(lim, key, now), now)
    ensures Check(db, lim, key, now, Up).1 == Allowed
    ensures !Live(Check(db, lim, key, now, Up).0, KeyAt(lim, key, now), later)
  {
  }

  /** A call to the limiter. */
  datatype Query = Query(key: string, at: Time, fault: Fault)

  function After(db: Db, lim: Limit, qs: seq<Query>): Db {
    if qs == [] then db
    else
      var q := qs[|qs| - 1];
      Check(After(db, lim, qs[..|qs| - 1]), lim, q.key, q.at, q.fault).0
  }

  function VerdictAt(db: Db, lim: Limit, qs: seq<Query>, i: nat): Verdict
    requires i < |qs|
  {
    Check(After(db, lim, qs[..i]), lim, qs[i].key, qs[i].at, qs[i].fault).1
  }

  predicate SameCounter(lim: Limit, q: Query, key: string, window: int)
    requires lim.window > 0
  {
    q.key == key && WindowOf(lim, q.at) == window
  }

  /** The calls for one key in one aligned window that reached Redis. */
  function Reached(lim: Limit, qs: seq<Query>, key: string, window: int): nat
    requires lim.window > 0
  {
    if qs == [] then 0
    else
      var q := qs[|qs| - 1];
      Reached(lim, qs[..|qs| - 1], key, window)
      + if SameCounter(lim, q, key, window) && q.fault != LostRequest then 1 else 0
  }

  /** Before the run, no counter of this key and window exists. */
  predicate Unused(db: Db, lim: Limit, key: string, at: Time) {
    KeyAt(lim, key, at) !in db
  }

  /** One query counts for its own key and window and for no other. */
  lemma QueryCounts(db: Db, lim: Limit, q: Query, key: string, at: Time, n: nat)
    requires LongEnough(lim)
    requires Counted(db, KeyAt(lim, key, at), n, (WindowOf(lim, at) + 1) * lim.window)
    ensures var same := SameCounter(lim, q, key, WindowOf(lim, at));
            var (db', v) := Check(db, lim, q.key, q.at, q.fault);
            && Counted(db', KeyAt(lim, key, at), if same && q.fault != LostRequest then n + 1 else n,
                       (WindowOf(lim, at) + 1) * lim.window)
            && (same && q.fault == Up ==> v == if n < lim.limit then Allowed else Refused)
  {
    var rkey, hi := KeyAt(lim, key, at), (WindowOf(lim, at) + 1) * lim.window;
    KeysApart(key, WindowStart(at, lim.window), q.key, WindowStart(q.at, lim.window));
    StartsApart(lim, at, q.at);
    TtlCovers(lim, q.at);
    if SameCounter(lim, q, key, WindowOf(lim, at)) {
      CountOne(db, rkey, n, TtlSeconds(lim), q.at, hi);
    } else {
      CountOther(db, rkey, n, hi, KeyAt(lim, q.key, q.at), TtlSeconds(lim), q.at);
    }
  }

  lemma {:induction false} CounterIsExact(db: Db, lim: Limit, qs: seq<Query>, key: string, at: Time)
    requires LongEnough(lim) && Unused(db, lim, key, at)
    ensures Counted(After(db, lim, qs), KeyAt(lim, key, at), Reached(lim, qs, key, WindowOf(lim, at)),
                    (WindowOf(lim, at) + 1) * lim.window)
  {
    if qs != [] {
      var init, q := qs[..|qs| - 1], qs[|qs| - 1];
      CounterIsExact(db, lim, init, key, at);
      QueryCounts(After(db, lim, init), lim, q, key, at, Reached(lim, init, key, WindowOf(lim, at)));
    }
  }

  /** A call that gets its answer is allowed if and only if fewer than `limit` calls for its key
      reached Redis before it in its aligned window. */
  lemma AllowedExactly(db: Db, lim: Limit, qs: seq<Query>, i: nat)
    requires LongEnough(lim) && i < |qs| && qs[i].fault == Up
    requires Unused(db, lim, qs[i].key, qs[i].at)
    ensures VerdictAt(db, lim, qs, i) == Allowed
       <==> Reached(lim, qs[..i], qs[i].key, WindowOf(lim, qs[i].at)) < lim.limit
  {
    var q := qs[i];
    CounterIsExact(db, lim, qs[..i], q.key, q.at);
    QueryCounts(After(db, lim, qs[..i]), lim, q, q.key, q.at, Reached(lim, qs[..i], q.key, WindowOf(lim, q.at)));
  }

  predicate GrantedLast(db: Db, lim: Limit, qs: seq<Query>)
    requires qs != []
  {
    VerdictAt(db, lim, qs, |qs| - 1) == Allowed
  }

  /** The calls allowed for one key in one aligned window. */
  function Granted(db: Db, lim: Limit, qs: seq<Query>, key: string, window: int): nat
    requires lim.window > 0
  {
    if qs == [] then 0
    else
      Granted(db, lim, qs[..|qs| - 1], key, window)
      + if SameCounter(lim, qs[|qs| - 1], key, window) && GrantedLast(db, lim, qs) then 1 else 0
  }

  function Quota(lim: Limit): nat { if lim.limit < 0 then 0 else lim.limit }

  function Min(a: nat, b: nat): nat { if a < b then a else b }

  /** At most `limit` calls are allowed per key and aligned window; without Redis failures it is
      exactly the first min(n, limit) of the n calls made. */
  lemma {:induction false} WindowTotal(db: Db, lim: Limit, qs: seq<Query>, key: string, at: Time)
    requires LongEnough(lim) && Unused(db, lim, key, at)
    ensures Granted(db, lim, qs, key, WindowOf(lim, at)) <= Min(Reached(lim, qs, key, WindowOf(lim, at)), Quota(lim))
    ensures (forall q :: q in qs && SameCounter(lim, q, key, WindowOf(lim, at)) ==> q.fault == Up) ==>
              Granted(db, lim, qs, key, WindowOf(lim, at)) == Min(Reached(lim, qs, key, WindowOf(lim, at)), Quota(lim))
  {
    if qs != [] {
      var init, q, window := qs[..|qs| - 1], qs[|qs| - 1], WindowOf(lim, at);
      WindowTotal(db, lim, init, key, at);
      assert forall r :: r in init ==> r in qs;
      if SameCounter(lim, q, key, window) {
        CounterIsExact(db, lim, init, key, at);
        QueryCounts(After(db, lim, init), lim, q, key, at, Reached(lim, init, key, window));
      }
    }
  }

  /** The calls allowed for one key in the interval [from, from + window). */
  function GrantedWithin(db: Db, lim: Limit, qs: seq<Query>, key: string, from: Time): nat {
    if qs == [] then 0
    else
      var q := qs[|qs| - 1];
      GrantedWithin(db, lim, qs[..|qs| - 1], key, from)
      + if q.key == key && from <= q.at < from + lim.window && GrantedLast(db, lim, qs) then 1 else 0
  }

  /** An interval of one window length meets at most two aligned windows. */
  lemma TwoWindows(lim: Limit, from: Time, t: Time)
    requires lim.window > 0 && from <= t < from + lim.window
    ensures WindowOf(lim, t) == WindowOf(lim, from) || WindowOf(lim, t) == WindowOf(lim, from) + 1
  {
    var w, a, b := lim.window, from / lim.window, t / lim.window;
    assert from == a * w + from % w && t == b * w + t % w;
    assert b <= a - 1 ==> b * w <= (a - 1) * w == a * w - w;
    assert b >= a + 2 ==> b * w >= (a + 2) * w == a * w + 2 * w;
  }

  lemma {:induction false} IntervalSplits(db: Db, lim: Limit, qs: seq<Query>, key: string, from: Time)
    requires lim.window > 0
    ensures var w := WindowOf(lim, from);
            GrantedWithin(db, lim, qs, key, from) <= Granted(db, lim, qs, key, w) + Granted(db, lim, qs, key, w + 1)
  {
    if qs != [] {
      IntervalSplits(db, lim, qs[..|qs| - 1], key, from);
      var q := qs[|qs| - 1];
      if from <= q.at < from + lim.window { TwoWindows(lim, from, q.at); }
    }
  }

  lemma WindowQuota(db: Db, lim: Limit, qs: seq<Query>, key: string, at: Time, window: int)
    requires LongEnough(lim) && Unused(db, lim, key, at) && window == WindowOf(lim, at)
    ensures Granted(db, lim, qs, key, window) <= Quota(lim)
  {
    WindowTotal(db, lim, qs, key, at);
  }

  /** Hence no interval of one window length, aligned or not, sees more than twice the limit. */
  lemma TwiceTheLimit(db: Db, lim: Limit, qs: seq<Query>, key: string, from: Time)
    requires LongEnough(lim)
    requires Unused(db, lim, key, from) && Unused(db, lim, key, from + lim.window)
    ensures GrantedWithin(db, lim, qs, key, from) <= 2 * Quota(lim)
  {
    IntervalSplits(db, lim, qs, key, from);
    WindowQuota(db, lim, qs, key, from, WindowOf(lim, from));
    NextWindow(from, lim.window);
    WindowQuota(db, lim, qs, key, from + lim.window, WindowOf(lim, from) + 1);
  }

  lemma NextWindow(t: int, w: int)
    requires w > 0
    ensures (t + w) / w == t / w + 1
  {
    var d := (t + w) / w - t / w - 1;
    assert d * w == t % w - (t + w) % w;
    assert d >= 1 ==> d * w >= w;
    assert d <= -1 ==> d * w <= -w;
  }
}
