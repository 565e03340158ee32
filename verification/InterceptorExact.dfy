/** Which requests the interceptor lets through, exactly. */
module InterceptorExact {
  import opened Prelude
  import opened Redis
  import opened RateLimit
  import opened Interceptor

  predicate SameGlobal(ls: Limits, r: Request, ip: string, window: int)
    requires ls.global.window > 0
  {
    r.ip == ip && WindowOf(ls.global, r.globalAt) == window
  }

  predicate SameLogin(ls: Limits, r: Request, ip: string, window: int)
    requires ls.login.window > 0
  {
    r.ip == ip && r.rpc in Sensitive && WindowOf(ls.login, r.loginAt) == window
  }

  /** The requests of an IP and window whose global check reached Redis. */
  function GlobalReached(ls: Limits, rs: seq<Request>, ip: string, window: int): nat
    requires ls.global.window > 0
  {
    if rs == [] then 0
    else
      var r := rs[|rs| - 1];
      GlobalReached(ls, rs[..|rs| - 1], ip, window)
      + if SameGlobal(ls, r, ip, window) && r.globalFault != LostRequest then 1 else 0
  }

  /** The global limit is used up for request i, and Redis says so. */
  predicate GlobalRefuses(ls: Limits, rs: seq<Request>, i: nat)
    requires i < |rs| && ls.global.window > 0
  {
    && rs[i].globalFault == Up
    && GlobalReached(ls, rs[..i], rs[i].ip, WindowOf(ls.global, rs[i].globalAt)) >= ls.global.limit
  }

  /** The credential requests of an IP and window whose login check reached Redis. */
  function LoginReached(ls: Limits, rs: seq<Request>, ip: string, window: int): nat
    requires ls.global.window > 0 && ls.login.window > 0
  {
    if rs == [] then 0
    else
      var r := rs[|rs| - 1];
      LoginReached(ls, rs[..|rs| - 1], ip, window)
      + if SameLogin(ls, r, ip, window) && !GlobalRefuses(ls, rs, |rs| - 1) && r.loginFault != LostRequest then 1 else 0
  }

  /** The login limit is used up for request i, and Redis says so. */
  predicate LoginRefuses(ls: Limits, rs: seq<Request>, i: nat)
    requires i < |rs| && ls.global.window > 0 && ls.login.window > 0
  {
    && rs[i].rpc in Sensitive && rs[i].loginFault == Up
    && LoginReached(ls, rs[..i], rs[i].ip, WindowOf(ls.login, rs[i].loginAt)) >= ls.login.limit
  }

  /** No counter of these requests exists yet, and no IP can be mistaken for a login key. */
  ghost predicate Untouched(db: Db, ls: Limits, rs: seq<Request>) {
    forall r :: r in rs ==>
      PlainIP(r.ip) && Unused(db, ls.global, r.ip, r.globalAt) && Unused(db, ls.login, AuthPrefix + r.ip, r.loginAt)
  }

  lemma {:induction false} GlobalCounter(db: Db, ls: Limits, rs: seq<Request>, ip: string, at: Time)
    requires LongEnough(ls.global) && PlainIP(ip) && Unused(db, ls.global, ip, at)
    ensures var w := WindowOf(ls.global, at);
            Counted(Interceptor.After(db, ls, rs), KeyAt(ls.global, ip, at), GlobalReached(ls, rs, ip, w),
                    (w + 1) * ls.global.window)
  {
    if rs != [] {
      var init, r := rs[..|rs| - 1], rs[|rs| - 1];
      GlobalCounter(db, ls, init, ip, at);
      GlobalCounts(Interceptor.After(db, ls, init), ls, r, ip, at,
                   GlobalReached(ls, init, ip, WindowOf(ls.global, at)));
    }
  }

  /** The global check refuses a request if and only if it gets its answer and at least `limit`
      requests of its IP reached Redis before it in its window. */
  lemma GlobalExactly(db: Db, ls: Limits, rs: seq<Request>, i: nat)
    requires LongEnough(ls.global) && i < |rs| && PlainIP(rs[i].ip) && Unused(db, ls.global, rs[i].ip, rs[i].globalAt)
    ensures GlobalCheck(Interceptor.After(db, ls, rs[..i]), ls, rs[i]).1 == Refused <==> GlobalRefuses(ls, rs, i)
  {
    var r := rs[i];
    GlobalCounter(db, ls, rs[..i], r.ip, r.globalAt);
    GlobalCounts(Interceptor.After(db, ls, rs[..i]), ls, r, r.ip, r.globalAt,
                 GlobalReached(ls, rs[..i], r.ip, WindowOf(ls.global, r.globalAt)));
  }

  lemma UntouchedBefore(db: Db, ls: Limits, rs: seq<Request>, i: nat)
    requires i <= |rs| && Untouched(db, ls, rs)
    ensures Untouched(db, ls, rs[..i])
  {
    assert forall q :: q in rs[..i] ==> q in rs;
  }

  /** The login counter of an IP and window stands at n. */
  ghost predicate LoginStands(db: Db, ls: Limits, ip: string, at: Time, n: nat)
    requires ls.login.window > 0
  {
    Counted(db, KeyAt(ls.login, AuthPrefix + ip, at), n, (WindowOf(ls.login, at) + 1) * ls.login.window)
  }

  lemma LoginStep(db: Db, ls: Limits, r: Request, ip: string, at: Time, n: nat)
    requires LongEnough(ls.login) && PlainIP(r.ip) && LoginStands(db, ls, ip, at, n)
    ensures var counted := SameLogin(ls, r, ip, WindowOf(ls.login, at)) && GlobalCheck(db, ls, r).1 != Refused
                           && r.loginFault != LostRequest;
            LoginStands(Intercept(db, ls, r).0, ls, ip, at, if counted then n + 1 else n)
  {
    LoginCounts(db, ls, r, ip, at, n);
  }

  lemma LoginDecides(db: Db, ls: Limits, r: Request, n: nat)
    requires LongEnough(ls.login) && PlainIP(r.ip) && r.rpc in Sensitive && r.loginFault == Up
    requires LoginStands(db, ls, r.ip, r.loginAt, n)
    ensures Intercept(db, ls, r).1 <==> GlobalCheck(db, ls, r).1 != Refused && n < ls.login.limit
  {
    LoginCounts(db, ls, r, r.ip, r.loginAt, n);
  }

  lemma {:induction false} LoginCounter(db: Db, ls: Limits, rs: seq<Request>, ip: string, at: Time)
    requires LongEnough(ls.global) && LongEnough(ls.login) && Untouched(db, ls, rs)
    requires Unused(db, ls.login, AuthPrefix + ip, at)
    ensures LoginStands(Interceptor.After(db, ls, rs), ls, ip, at, LoginReached(ls, rs, ip, WindowOf(ls.login, at)))
  {
    if rs != [] {
      var init, r, n := rs[..|rs| - 1], rs[|rs| - 1], |rs| - 1;
      assert r in rs;
      UntouchedBefore(db, ls, rs, n);
      LoginCounter(db, ls, init, ip, at);
      GlobalExactly(db, ls, rs, n);
      LoginStep(Interceptor.After(db, ls, init), ls, r, ip, at, LoginReached(ls, init, ip, WindowOf(ls.login, at)));
    }
  }

  lemma LoginStandsAt(db: Db, ls: Limits, rs: seq<Request>, i: nat, n: nat)
    requires LongEnough(ls.global) && LongEnough(ls.login) && i < |rs| && Untouched(db, ls, rs)
    requires n == LoginReached(ls, rs[..i], rs[i].ip, WindowOf(ls.login, rs[i].loginAt))
    ensures PlainIP(rs[i].ip) && LoginStands(Interceptor.After(db, ls, rs[..i]), ls, rs[i].ip, rs[i].loginAt, n)
  {
    assert rs[i] in rs;
    UntouchedBefore(db, ls, rs, i);
    LoginCounter(db, ls, rs[..i], rs[i].ip, rs[i].loginAt);
  }

  lemma SensitiveExactly(db: Db, ls: Limits, rs: seq<Request>, i: nat, db': Db)
    requires LongEnough(ls.global) && LongEnough(ls.login) && i < |rs| && Untouched(db, ls, rs)
    requires rs[i].rpc in Sensitive && rs[i].loginFault == Up
    requires db' == Interceptor.After(db, ls, rs[..i])
    ensures Intercept(db', ls, rs[i]).1 <==> GlobalCheck(db', ls, rs[i]).1 != Refused && !LoginRefuses(ls, rs, i)
  {
    var n := LoginReached(ls, rs[..i], rs[i].ip, WindowOf(ls.login, rs[i].loginAt));
    LoginStandsAt(db, ls, rs, i, n);
    LoginDecides(db', ls, rs[i], n);
  }

  lemma OthersExactly(db: Db, ls: Limits, r: Request)
    requires r.rpc !in Sensitive || r.loginFault != Up
    ensures Intercept(db, ls, r).1 <==> GlobalCheck(db, ls, r).1 != Refused
  {
  }

  /** A request is handled if and only if neither limit is used up for it: Redis failures refuse
      nobody, and nothing else does. */
  lemma HandledExactly(db: Db, ls: Limits, rs: seq<Request>, i: nat)
    requires LongEnough(ls.global) && LongEnough(ls.login) && i < |rs| && Untouched(db, ls, rs)
    ensures Intercept(Interceptor.After(db, ls, rs[..i]), ls, rs[i]).1
       <==> !GlobalRefuses(ls, rs, i) && !LoginRefuses(ls, rs, i)
  {
    assert rs[i] in rs;
    GlobalExactly(db, ls, rs, i);
    if rs[i].rpc in Sensitive && rs[i].loginFault == Up {
      SensitiveExactly(db, ls, rs, i, Interceptor.After(db, ls, rs[..i]));
    } else {
      OthersExactly(Interceptor.After(db, ls, rs[..i]), ls, rs[i]);
    }
  }

  /** Without failures, exactly min(n, limit) of the n requests of an IP and window are handled, if
      none of them is for a credential method. */
  lemma {:induction false} HandledTotal(db: Db, ls: Limits, rs: seq<Request>, ip: string, at: Time)
    requires LongEnough(ls.global) && LongEnough(ls.login) && Untouched(db, ls, rs)
    requires forall r :: r in rs && SameGlobal(ls, r, ip, WindowOf(ls.global, at)) ==>
               r.globalFault == Up && r.rpc !in Sensitive
    ensures var w := WindowOf(ls.global, at);
            Handled(db, ls, rs, ip, w) == Min(GlobalReached(ls, rs, ip, w), Quota(ls.global))
  {
    if rs != [] {
      var init, r, w := rs[..|rs| - 1], rs[|rs| - 1], WindowOf(ls.global, at);
      UntouchedBefore(db, ls, rs, |rs| - 1);
      assert r in rs && forall q :: q in init ==> q in rs;
      HandledTotal(db, ls, init, ip, at);
      HandledExactly(db, ls, rs, |rs| - 1);
    }
  }

  /** Likewise for the requests to credential methods that pass the global check. */
  lemma {:induction false} SensitiveTotal(db: Db, ls: Limits, rs: seq<Request>, ip: string, at: Time)
    requires LongEnough(ls.global) && LongEnough(ls.login) && Untouched(db, ls, rs)
    requires forall r :: r in rs && SameLogin(ls, r, ip, WindowOf(ls.login, at)) ==> r.loginFault == Up
    ensures var w := WindowOf(ls.login, at);
            SensitiveHandled(db, ls, rs, ip, w) == Min(LoginReached(ls, rs, ip, w), Quota(ls.login))
  {
    if rs != [] {
      var init, r, w := rs[..|rs| - 1], rs[|rs| - 1], WindowOf(ls.login, at);
      UntouchedBefore(db, ls, rs, |rs| - 1);
      assert r in rs && forall q :: q in init ==> q in rs;
      SensitiveTotal(db, ls, init, ip, at);
      HandledExactly(db, ls, rs, |rs| - 1);
    }
  }

  /** An outage of Redis lets every request through, whatever was counted before. */
  lemma OutageRefusesNobody(db: Db, ls: Limits, r: Request)
    requires r.globalFault != Up && (r.rpc in Sensitive ==> r.loginFault != Up)
    ensures Intercept(db, ls, r).1
  {
  }
}
