/** The rate-limiting interceptor: a global limiter and a stricter one for credential methods. */
module Interceptor {
  import opened Prelude
  import opened Redis
  import opened Text
  import opened RateLimit

  const Sensitive := {"Login", "Register", "ChangePassword", "RequestPasswordReset", "VerifyResetCode", "ResetPassword"}

  const AuthPrefix := "auth:"

  /** A request as the interceptor sees it: the clock readings of its two checks, and what
      happens to their Redis calls. */
  datatype Request = Request(
    ip: string, rpc: string, globalAt: Time, loginAt: Time, globalFault: Fault, loginFault: Fault)

  datatype Limits = Limits(global: Limit, login: Limit)

  function GlobalCheck(db: Db, ls: Limits, r: Request): (Db, Verdict) {
    Check(db, ls.global, r.ip, r.globalAt, r.globalFault)
  }

  function LoginCheck(db: Db, ls: Limits, r: Request): (Db, Verdict) {
    Check(db, ls.login, AuthPrefix + r.ip, r.loginAt, r.loginFault)
  }

  /** The request is passed on unless a check refuses it; failed checks let it through. */
  function Intercept(db: Db, ls: Limits, r: Request): (Db, bool) {
    var (db', v) := GlobalCheck(db, ls, r);
    if v == Refused then (db', false)
    else if r.rpc !in Sensitive then (db', true)
    else
      var (db'', v') := LoginCheck(db', ls, r);
      (db'', v' != Refused)
  }

  class RateLimiter {
    const global: Limiter
    const login: Limiter

    constructor (redis: Server, ls: Limits)
      ensures global.redis == login.redis == redis && global.lim == ls.global && login.lim == ls.login
    {
      global := new Limiter(redis, ls.global);
      login := new Limiter(redis, ls.login);
    }

    method Handle(r: Request) returns (handled: bool)
      requires global.redis == login.redis
      modifies global.redis
      ensures (global.redis.db, handled) == Intercept(old(global.redis.db), Limits(global.lim, login.lim), r)
    {
      var v := global.Allow(r.ip, r.globalAt, r.globalFault);
      if v == Refused { return false; }
      if r.rpc in Sensitive {
        v := login.Allow(AuthPrefix + r.ip, r.loginAt, r.loginFault);
        if v == Refused { return false; }
      }
      return true;
    }
  }

  /** An IP that cannot be mistaken for a key of the login limiter. */
  predicate PlainIP(ip: string) {
    !(AuthPrefix <= ip)
  }

  function After(db: Db, ls: Limits, rs: seq<Request>): Db {
    if rs == [] then db else Intercept(After(db, ls, rs[..|rs| - 1]), ls, rs[|rs| - 1]).0
  }

  predicate HandledLast(db: Db, ls: Limits, rs: seq<Request>)
    requires rs != []
  {
    Intercept(After(db, ls, rs[..|rs| - 1]), ls, rs[|rs| - 1]).1
  }

  /** Requests of one IP handled in one aligned window of the global limiter. */
  function Handled(db: Db, ls: Limits, rs: seq<Request>, ip: string, window: int): nat
    requires ls.global.window > 0
  {
    if rs == [] then 0
    else
      var r := rs[|rs| - 1];
      Handled(db, ls, rs[..|rs| - 1], ip, window)
      + if r.ip == ip && WindowOf(ls.global, r.globalAt) == window && HandledLast(db, ls, rs) then 1 else 0
  }

  /** Global checks of that IP and window that failed open. */
  function GlobalFailures(ls: Limits, rs: seq<Request>, ip: string, window: int): nat
    requires ls.global.window > 0
  {
    if rs == [] then 0
    else
      var r := rs[|rs| - 1];
      GlobalFailures(ls, rs[..|rs| - 1], ip, window)
      + if r.ip == ip && WindowOf(ls.global, r.globalAt) == window && r.globalFault != Up then 1 else 0
  }

  /** Credential requests of one IP handled in one aligned window of the login limiter. */
  function SensitiveHandled(db: Db, ls: Limits, rs: seq<Request>, ip: string, window: int): nat
    requires ls.login.window > 0
  {
    if rs == [] then 0
    else
      var r := rs[|rs| - 1];
      SensitiveHandled(db, ls, rs[..|rs| - 1], ip, window)
      + if r.ip == ip && r.rpc in Sensitive && WindowOf(ls.login, r.loginAt) == window && HandledLast(db, ls, rs)
        then 1 else 0
  }

  function LoginFailures(ls: Limits, rs: seq<Request>, ip: string, window: int): nat
    requires ls.login.window > 0
  {
    if rs == [] then 0
    else
      var r := rs[|rs| - 1];
      LoginFailures(ls, rs[..|rs| - 1], ip, window)
      + if r.ip == ip && r.rpc in Sensitive && WindowOf(ls.login, r.loginAt) == window && r.loginFault != Up
        then 1 else 0
  }

  /** A request moves the global counter of its own IP and window only. */
  lemma GlobalCounts(db: Db, ls: Limits, r: Request, ip: string, at: Time, n: nat)
    requires LongEnough(ls.global) && PlainIP(ip)
    requires Counted(db, KeyAt(ls.global, ip, at), n, (WindowOf(ls.global, at) + 1) * ls.global.window)
    ensures var same := r.ip == ip && WindowOf(ls.global, r.globalAt) == WindowOf(ls.global, at);
            var (db', handled) := Intercept(db, ls, r);
            && Counted(db', KeyAt(ls.global, ip, at), if same && r.globalFault != LostRequest then n + 1 else n,
                       (WindowOf(ls.global, at) + 1) * ls.global.window)
            && (same && r.globalFault == Up ==> (GlobalCheck(db, ls, r).1 == Refused <==> n >= ls.global.limit))
            && (same && r.globalFault == Up && handled ==> n < ls.global.limit)
  {
    var rkey, hi := KeyAt(ls.global, ip, at), (WindowOf(ls.global, at) + 1) * ls.global.window;
    QueryCounts(db, ls.global, Query(r.ip, r.globalAt, r.globalFault), ip, at, n);
    var db' := GlobalCheck(db, ls, r).0;
    var same := r.ip == ip && WindowOf(ls.global, r.globalAt) == WindowOf(ls.global, at);
    KeysApart(ip, WindowStart(at, ls.global.window), AuthPrefix + r.ip, WindowStart(r.loginAt, ls.login.window));
    CountOther(db', rkey, if same && r.globalFault != LostRequest then n + 1 else n, hi,
               KeyAt(ls.login, AuthPrefix + r.ip, r.loginAt), TtlSeconds(ls.login), r.loginAt);
  }

  /** A request moves the login counter of its own IP and window only. */
  lemma LoginCounts(db: Db, ls: Limits, r: Request, ip: string, at: Time, n: nat)
    requires LongEnough(ls.login) && PlainIP(r.ip)
    requires Counted(db, KeyAt(ls.login, AuthPrefix + ip, at), n, (WindowOf(ls.login, at) + 1) * ls.login.window)
    ensures var same := r.ip == ip && r.rpc in Sensitive && WindowOf(ls.login, r.loginAt) == WindowOf(ls.login, at);
            var checked := r.rpc in Sensitive && GlobalCheck(db, ls, r).1 != Refused;
            var (db', handled) := Intercept(db, ls, r);
            && Counted(db', KeyAt(ls.login, AuthPrefix + ip, at),
                       if same && checked && r.loginFault != LostRequest then n + 1 else n,
                       (WindowOf(ls.login, at) + 1) * ls.login.window)
            && (same && r.loginFault == Up ==> (handled <==> checked && n < ls.login.limit))
  {
    var rkey, hi := KeyAt(ls.login, AuthPrefix + ip, at), (WindowOf(ls.login, at) + 1) * ls.login.window;
    KeysApart(AuthPrefix + ip, WindowStart(at, ls.login.window), r.ip, WindowStart(r.globalAt, ls.global.window));
    CountOther(db, rkey, n, hi, KeyAt(ls.global, r.ip, r.globalAt), TtlSeconds(ls.global), r.globalAt);
    assert AuthPrefix + r.ip == AuthPrefix + ip ==> r.ip == ip by {
      assert (AuthPrefix + r.ip)[5..] == r.ip && (AuthPrefix + ip)[5..] == ip;
    }
    var q := Query(AuthPrefix + r.ip, r.loginAt, r.loginFault);
    QueryCounts(GlobalCheck(db, ls, r).0, ls.login, q, AuthPrefix + ip, at, n);
  }

  /** Per IP and aligned window, at most `limit` requests are handled, plus one for each failed
      global check. */
  lemma {:induction false} GlobalBound(db: Db, ls: Limits, rs: seq<Request>, ip: string, at: Time) returns (n: nat)
    requires LongEnough(ls.global) && PlainIP(ip) && Unused(db, ls.global, ip, at)
    ensures var window := WindowOf(ls.global, at);
            && Counted(After(db, ls, rs), KeyAt(ls.global, ip, at), n, (window + 1) * ls.global.window)
            && Handled(db, ls, rs, ip, window) <= Min(n, Quota(ls.global)) + GlobalFailures(ls, rs, ip, window)
  {
    if rs == [] {
      n := 0;
    } else {
      var init, r := rs[..|rs| - 1], rs[|rs| - 1];
      n := GlobalBound(db, ls, init, ip, at);
      GlobalCounts(After(db, ls, init), ls, r, ip, at, n);
      if r.ip == ip && WindowOf(ls.global, r.globalAt) == WindowOf(ls.global, at) && r.globalFault != LostRequest {
        n := n + 1;
      }
    }
  }

  /** Likewise for the credential methods and the stricter limiter. */
  lemma {:induction false} SensitiveBound(db: Db, ls: Limits, rs: seq<Request>, ip: string, at: Time) returns (n: nat)
    requires LongEnough(ls.login) && (forall r :: r in rs ==> PlainIP(r.ip))
    requires Unused(db, ls.login, AuthPrefix + ip, at)
    ensures var window := WindowOf(ls.login, at);
            && Counted(After(db, ls, rs), KeyAt(ls.login, AuthPrefix + ip, at), n, (window + 1) * ls.login.window)
            && SensitiveHandled(db, ls, rs, ip, window) <= Min(n, Quota(ls.login)) + LoginFailures(ls, rs, ip, window)
  {
    if rs == [] {
      n := 0;
    } else {
      var init, r := rs[..|rs| - 1], rs[|rs| - 1];
      assert forall q :: q in init ==> q in rs;
      n := SensitiveBound(db, ls, init, ip, at);
      var db' := After(db, ls, init);
      LoginCounts(db', ls, r, ip, at, n);
      if r.ip == ip && r.rpc in Sensitive && WindowOf(ls.login, r.loginAt) == WindowOf(ls.login, at)
         && GlobalCheck(db', ls, r).1 != Refused && r.loginFault != LostRequest {
        n := n + 1;
      }
    }
  }

  /** The two limits together, from a Redis that has not seen these windows before. */
  lemma LimitsHold(ls: Limits, rs: seq<Request>, ip: string, at: Time)
    requires LongEnough(ls.global) && LongEnough(ls.login)
    requires PlainIP(ip) && forall r :: r in rs ==> PlainIP(r.ip)
    ensures Handled(map[], ls, rs, ip, WindowOf(ls.global, at))
         <= Quota(ls.global) + GlobalFailures(ls, rs, ip, WindowOf(ls.global, at))
    ensures SensitiveHandled(map[], ls, rs, ip, WindowOf(ls.login, at))
         <= Quota(ls.login) + LoginFailures(ls, rs, ip, WindowOf(ls.login, at))
  {
    var _ := GlobalBound(map[], ls, rs, ip, at);
    var _ := SensitiveBound(map[], ls, rs, ip, at);
  }

  /** The entry chosen from X-Forwarded-For: the last one that is not blank, if there is one. */
  predicate LastNonBlank(parts: seq<string>, i: int) {
    0 <= i < |parts| && Trim(parts[i]) != "" && forall j :: i < j < |parts| ==> Trim(parts[j]) == ""
  }

  /** extractIP, given the header if there is one and the peer's address. */
  method ExtractIP(header: Option<string>, peer: string) returns (ip: string)
    ensures header == None ==> ip == peer
    ensures header.Some? ==>
              var parts := Split(header.value, ',');
              && (forall i :: LastNonBlank(parts, i) ==> ip == Trim(parts[i]))
              && ((forall i :: 0 <= i < |parts| ==> Trim(parts[i]) == "") ==> ip == peer)
  {
    if header.Some? {
      var parts := Split(header.value, ',');
      var i := |parts| - 1;
      while i >= 0
        invariant -1 <= i < |parts|
        invariant forall j :: i < j < |parts| ==> Trim(parts[j]) == ""
      {
        var part := Trim(parts[i]);
        if part != "" { return part; }
        i := i - 1;
      }
    }
    return peer;
  }

  /** What the proxy appends to the header decides: a client cannot choose its own IP, whatever
      it sends in the header. */
  lemma ProxyDecides(client: string, addr: string)
    requires addr != "" && ',' !in addr && !IsSpace(addr[0]) && !IsSpace(addr[|addr| - 1])
    ensures var parts := Split(client + "," + " " + addr, ',');
            |parts| > 0 && LastNonBlank(parts, |parts| - 1) && Trim(parts[|parts| - 1]) == addr
  {
    assert client + "," + " " + addr == client + [','] + (" " + addr);
    SplitLast(client, ',', " " + addr);
    TrimBlank(addr);
  }
}
