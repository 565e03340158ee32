/**
 The guard when logins overlap. A login asks for the lock, checks the password, and then makes up
 to three more Redis calls: it counts the failure, writes the lock, deletes the counter. Other
 logins come in between.
 */
module BruteForceOverlap {
  import opened Prelude
  import opened Redis
  import opened BruteForce
  import B = BruteForceBound

  type Pid = nat

  /** The next Redis call of a login whose password was wrong. */
  datatype Stage = Counting | Locking | Clearing

  datatype Login = Login(email: string, stage: Stage)

  datatype State = State(db: Db, logins: map<Pid, Login>)

  /** A login arrives and asks for the lock, or makes its next call. */
  datatype Step = Enter(p: Pid, email: string, at: Time) | Call(p: Pid, at: Time)

  predicate Enabled(s: State, e: Step) {
    match e
    case Enter(p, _, _) => p !in s.logins
    case Call(p, _) => p in s.logins
  }

  function Apply(s: State, pol: Policy, e: Step): State
    requires Enabled(s, e)
  {
    match e
    case Enter(p, email, at) =>
      if Locked(s.db, email, at) then s else s.(logins := s.logins[p := Login(email, Counting)])
    case Call(p, at) =>
      var email := s.logins[p].email;
      match s.logins[p].stage
      case Counting =>
        var (db, count) := Incr(s.db, AttemptsKey(email), pol.window / SECOND, at);
        if count >= pol.maxAttempts then State(db, s.logins[p := Login(email, Locking)])
        else State(db, s.logins - {p})
      case Locking =>
        State(Put(s.db, LockedKey(email), 1, pol.lockoutTTL, at), s.logins[p := Login(email, Clearing)])
      case Clearing => State(s.db - {AttemptsKey(email)}, s.logins - {p})
  }

  ghost predicate Run(states: seq<State>, steps: seq<Step>, pol: Policy) {
    && |states| == |steps| + 1
    && states[0].logins == map[]
    && (forall i :: 0 <= i < |steps| ==>
          Enabled(states[i], steps[i]) && states[i + 1] == Apply(states[i], pol, steps[i]))
    && (forall i, j :: 0 <= i < j < |steps| ==> steps[i].at <= steps[j].at)
  }

  /** The login gets past the lock, so that its password is checked. */
  predicate Enters(s: State, e: Step, email: string) {
    e.Enter? && e.email == email && !Locked(s.db, email, e.at)
  }

  /** The passwords checked for an email in the first steps of a run. */
  function Checks(states: seq<State>, steps: seq<Step>, i: nat, email: string): nat
    requires i <= |steps| <= |states|
  {
    if i == 0 then 0
    else Checks(states, steps, i - 1, email) + if Enters(states[i - 1], steps[i - 1], email) then 1 else 0
  }

  /** What one email has to do with: its two keys and its logins in flight. */
  datatype View = View(counter: Option<Entry>, lock: Option<Entry>, flight: map<Pid, Stage>)

  function At(db: Db, key: string): Option<Entry> {
    if key in db then Some(db[key]) else None
  }

  function Flight(logins: map<Pid, Login>, email: string): map<Pid, Stage> {
    map p | p in logins && logins[p].email == email :: logins[p].stage
  }

  function ViewOf(s: State, email: string): View {
    View(At(s.db, AttemptsKey(email)), At(s.db, LockedKey(email)), Flight(s.logins, email))
  }

  predicate IsLive(o: Option<Entry>, now: Time) {
    o.Some? && (o.value.expiresAt == None || now < o.value.expiresAt.value)
  }

  /** The counter after one more failure. */
  function CountedOn(o: Option<Entry>, pol: Policy, now: Time): Entry {
    if IsLive(o, now) && o.value.value != 0 then Entry(o.value.value + 1, o.value.expiresAt)
    else Entry(1, Some(now + pol.window / SECOND * SECOND))
  }

  function Calls(v: View, pol: Policy, p: Pid, at: Time): View
    requires p in v.flight
  {
    match v.flight[p]
    case Counting =>
      var c := CountedOn(v.counter, pol, at);
      View(Some(c), v.lock, if c.value >= pol.maxAttempts then v.flight[p := Locking] else v.flight - {p})
    case Locking =>
      View(v.counter, Some(Entry(1, if pol.lockoutTTL > 0 then Some(at + pol.lockoutTTL) else None)),
           v.flight[p := Clearing])
    case Clearing => View(None, v.lock, v.flight - {p})
  }

  function Moves(v: View, pol: Policy, e: Step): View
    requires e.Call? ==> e.p in v.flight
  {
    match e
    case Enter(p, _, at) => if IsLive(v.lock, at) then v else v.(flight := v.flight[p := Counting])
    case Call(p, at) => Calls(v, pol, p, at)
  }

  /** The step is one of a login for this email. */
  predicate Concerns(s: State, e: Step, email: string)
    requires Enabled(s, e)
  {
    match e
    case Enter(_, m, _) => m == email
    case Call(p, _) => s.logins[p].email == email
  }

  lemma FlightMoves(logins: map<Pid, Login>, p: Pid, l: Login, email: string)
    ensures Flight(logins[p := l], email)
         == if l.email == email then Flight(logins, email)[p := l.stage] else Flight(logins, email) - {p}
    ensures Flight(logins - {p}, email) == Flight(logins, email) - {p}
  {
  }

  lemma CallViewed(s: State, pol: Policy, p: Pid, at: Time, email: string)
    requires p in s.logins && pol.window >= SECOND
    ensures var mine := s.logins[p].email == email;
            && (mine ==> p in ViewOf(s, email).flight)
            && ViewOf(Apply(s, pol, Call(p, at)), email)
               == if mine then Calls(ViewOf(s, email), pol, p, at) else ViewOf(s, email)
  {
    var m := s.logins[p].email;
    KeysApart(m, email);
    KeysApart(email, m);
    FlightMoves(s.logins, p, Login(m, Locking), email);
    FlightMoves(s.logins, p, Login(m, Clearing), email);
    var f := Flight(s.logins, email);
    assert m != email ==> f - {p} == f;
  }

  /** A step moves the view of the email it concerns and no other. */
  lemma StepViewed(s: State, pol: Policy, e: Step, email: string)
    requires Enabled(s, e) && pol.window >= SECOND
    ensures Concerns(s, e, email) ==> (e.Call? ==> e.p in ViewOf(s, email).flight)
    ensures ViewOf(Apply(s, pol, e), email)
         == if Concerns(s, e, email) then Moves(ViewOf(s, email), pol, e) else ViewOf(s, email)
  {
    if e.Call? {
      CallViewed(s, pol, e.p, e.at, email);
    } else {
      FlightMoves(s.logins, e.p, Login(e.email, Counting), email);
      var f := Flight(s.logins, email);
      assert e.email != email ==> f - {e.p} == f;
    }
  }

  function Waiting(flight: map<Pid, Stage>): set<Pid> {
    set p | p in flight && flight[p] == Counting
  }

  /** The failures a counter stands for that did not reach the threshold. */
  function Held(o: Option<Entry>, pol: Policy): nat {
    if o == None || o.value.value < 0 then 0
    else if o.value.value < B.Cap(pol) then o.value.value else B.Cap(pol) - 1
  }

  /** The failures below the threshold that giving up a counter this often can hide. */
  function Lost(pol: Policy, resets: nat): nat {
    (B.Cap(pol) - 1) * resets
  }

  lemma LostMore(pol: Policy, resets: nat)
    ensures Lost(pol, resets + 1) == Lost(pol, resets) + B.Cap(pol) - 1
  {
  }

  /** The most checks in one period, with n logins in flight. */
  function Quota(pol: Policy, n: nat): nat {
    (B.Cap(pol) - 1) * (n + 1) + n
  }

  /** Bookkeeping of the proof. Periods start at least `B.Period` apart, the current one at `start`;
      `done` failures were counted in earlier ones and `cur` in this one, `low` of them below the
      threshold; those of `high` reached it and have not locked yet. `elder` are the logins that were
      in flight when the period started. The counter was given up `resets` times, and was opened
      in this period if `renewed`. Once the lock is written, at `since`, the period is `shut`. */
  datatype Book = Book(rounds: nat, start: Time, done: nat, cur: nat, low: nat, high: set<Pid>, elder: set<Pid>,
                       resets: nat, renewed: bool, shut: bool, since: Time)

  ghost predicate CounterOk(v: View) {
    v.counter.Some? ==> v.counter.value.value >= 1 && v.counter.value.expiresAt.Some?
  }

  ghost predicate OpenBook(v: View, pol: Policy, n: nat, b: Book)
    requires CounterOk(v)
  {
    && b.elder <= v.flight.Keys && b.high <= v.flight.Keys
    && (forall p :: p in b.high ==> v.flight[p] == Locking)
    && (forall p :: p in v.flight && v.flight[p] == Clearing ==> p in b.elder)
    && b.resets + |b.elder| <= n - 1 + (if b.renewed then 1 else 0)
    && b.cur == b.low + |b.high|
    && b.low <= Lost(pol, b.resets) + Held(v.counter, pol)
    && (b.renewed && v.counter.Some? ==> v.counter.value.expiresAt.value >= b.start + pol.window / SECOND * SECOND)
  }

  ghost predicate ShutBook(v: View, pol: Policy, n: nat, b: Book) {
    && v.lock.Some? && v.lock.value.expiresAt.Some?
    && v.lock.value.expiresAt.value >= b.since + pol.lockoutTTL && b.since >= b.start
    && b.cur + |Waiting(v.flight)| <= Quota(pol, n)
  }

  ghost predicate Kept(v: View, pol: Policy, n: nat, t0: Time, now: Time, checks: nat, b: Book) {
    && CounterOk(v) && |v.flight| <= n
    && b.rounds >= 1 && t0 + (b.rounds - 1) * B.Period(pol) <= b.start <= now && b.since <= now
    && b.done <= Quota(pol, n) * (b.rounds - 1)
    && checks == b.done + b.cur + |Waiting(v.flight)|
    && if b.shut then ShutBook(v, pol, n, b) else OpenBook(v, pol, n, b)
  }

  lemma LowBound(cap: nat, resets: nat, n: nat, low: int, held: int)
    requires cap >= 1 && resets <= n && held <= cap - 1 && low <= (cap - 1) * resets + held
    ensures low <= (cap - 1) * (n + 1)
  {
    assert (cap - 1) * (n + 1) == (cap - 1) * resets + (cap - 1) * (n - resets) + (cap - 1);
    assert (cap - 1) * (n - resets) >= 0;
  }

  /** The logins that wait to count and those that wait to lock are different ones. */
  lemma DisjointParts(v: View, pol: Policy, n: nat, b: Book)
    requires CounterOk(v) && OpenBook(v, pol, n, b) && |v.flight| <= n
    ensures |b.high| + |Waiting(v.flight)| <= n
  {
    var w := Waiting(v.flight);
    assert b.high !! w;
    assert |b.high + w| == |b.high| + |w|;
    Smaller(b.high + w, v.flight.Keys);
    assert |v.flight.Keys| == |v.flight|;
  }

  lemma {:induction false} Smaller<T>(a: set<T>, b: set<T>)
    requires a <= b
    ensures |a| <= |b|
  {
    assert b == a + (b - a);
  }

  lemma OpenTotal(v: View, pol: Policy, n: nat, b: Book)
    requires n >= 1 && CounterOk(v) && OpenBook(v, pol, n, b) && |v.flight| <= n
    ensures b.cur + |Waiting(v.flight)| <= Quota(pol, n)
  {
    DisjointParts(v, pol, n, b);
    LowBound(B.Cap(pol), b.resets, n, b.low, Held(v.counter, pol));
  }

  lemma OneLess(q: nat, rounds: nat)
    ensures q * rounds == q * (rounds - 1) + q
  {
  }

  /** No period exceeds its quota. */
  lemma KeptTotal(v: View, pol: Policy, n: nat, t0: Time, now: Time, checks: nat, b: Book)
    requires n >= 1 && Kept(v, pol, n, t0, now, checks, b)
    ensures checks <= Quota(pol, n) * b.rounds
  {
    if !b.shut { OpenTotal(v, pol, n, b); }
    OneLess(Quota(pol, n), b.rounds);
  }

  lemma OneMorePeriod(b: Book, pol: Policy, n: nat)
    requires b.rounds >= 1 && b.done <= Quota(pol, n) * (b.rounds - 1) && b.cur <= Quota(pol, n)
    ensures b.done + b.cur <= Quota(pol, n) * b.rounds
    ensures b.rounds * B.Period(pol) == (b.rounds - 1) * B.Period(pol) + B.Period(pol)
  {
    OneLess(Quota(pol, n), b.rounds);
  }

  lemma WaitingMore(flight: map<Pid, Stage>, p: Pid)
    ensures p !in flight ==> |Waiting(flight[p := Counting])| == |Waiting(flight)| + 1
    ensures p in flight && flight[p] == Counting ==>
              |Waiting(flight - {p})| == |Waiting(flight[p := Locking])| == |Waiting(flight)| - 1
    ensures p in flight && flight[p] != Counting ==>
              |Waiting(flight - {p})| == |Waiting(flight[p := Clearing])| == |Waiting(flight)|
  {
    var w := Waiting(flight);
    if p !in flight {
      assert Waiting(flight[p := Counting]) == w + {p};
    } else if flight[p] == Counting {
      assert Waiting(flight - {p}) == Waiting(flight[p := Locking]) == w - {p};
    } else {
      assert Waiting(flight - {p}) == Waiting(flight[p := Clearing]) == w;
    }
  }

  lemma FlightSize(flight: map<Pid, Stage>, p: Pid, stage: Stage)
    ensures p !in flight ==> |flight[p := stage]| == |flight| + 1
    ensures p in flight ==> |flight[p := stage]| == |flight| && |flight - {p}| == |flight| - 1
    ensures |flight.Keys| == |flight|
  {
    assert flight[p := stage].Keys == flight.Keys + {p};
    assert (flight - {p}).Keys == flight.Keys - {p};
  }

  /** A login that gets past the lock: in the current period, or in a new one once a lock is over. */
  lemma EnterKeeps(v: View, pol: Policy, n: nat, t0: Time, now: Time, checks: nat, b: Book, p: Pid, at: Time)
    returns (b': Book)
    requires pol.window >= SECOND && pol.lockoutTTL > 0 && n >= 1
    requires Kept(v, pol, n, t0, now, checks, b) && now <= at && p !in v.flight && !IsLive(v.lock, at)
    requires |v.flight[p := Counting]| <= n
    ensures Kept(v.(flight := v.flight[p := Counting]), pol, n, t0, at, checks + 1, b')
  {
    WaitingMore(v.flight, p);
    FlightSize(v.flight, p, Counting);
    if b.shut {
      OneMorePeriod(b, pol, n);
      b' := Book(b.rounds + 1, at, b.done + b.cur, 0, 0, {}, v.flight.Keys, 0, false, false, at);
    } else {
      b' := b;
    }
  }

  /** The lock is written: nobody gets past it before it is over. */
  lemma LockKeeps(v: View, pol: Policy, n: nat, t0: Time, now: Time, checks: nat, b: Book, p: Pid, at: Time)
    returns (b': Book)
    requires pol.window >= SECOND && pol.lockoutTTL > 0 && n >= 1
    requires Kept(v, pol, n, t0, now, checks, b) && now <= at && p in v.flight && v.flight[p] == Locking
    ensures Kept(Calls(v, pol, p, at), pol, n, t0, at, checks, b')
  {
    WaitingMore(v.flight, p);
    FlightSize(v.flight, p, Clearing);
    if b.shut {
      b' := b;
    } else {
      OpenTotal(v, pol, n, b);
      b' := b.(shut := true, since := at);
    }
  }

  /** The counter is deleted: before the period's own lock, only by a login that is older. */
  lemma ClearKeeps(v: View, pol: Policy, n: nat, t0: Time, now: Time, checks: nat, b: Book, p: Pid, at: Time)
    returns (b': Book)
    requires pol.window >= SECOND && pol.lockoutTTL > 0 && n >= 1
    requires Kept(v, pol, n, t0, now, checks, b) && now <= at && p in v.flight && v.flight[p] == Clearing
    ensures Kept(Calls(v, pol, p, at), pol, n, t0, at, checks, b')
  {
    WaitingMore(v.flight, p);
    FlightSize(v.flight, p, Clearing);
    if b.shut {
      b' := b;
    } else {
      LostMore(pol, b.resets);
      b' := b.(resets := b.resets + 1, elder := b.elder - {p});
    }
  }

  /** The book after a failure counted in the open period. */
  function Entered(b: Book, p: Pid, below: bool): Book {
    if below then b.(cur := b.cur + 1, low := b.low + 1, elder := b.elder - {p})
    else b.(cur := b.cur + 1, high := b.high + {p})
  }

  lemma CountLive(v: View, pol: Policy, n: nat, b: Book, p: Pid, at: Time)
    requires CounterOk(v) && OpenBook(v, pol, n, b) && p in v.flight && v.flight[p] == Counting
    requires IsLive(v.counter, at)
    ensures var below := v.counter.value.value + 1 < pol.maxAttempts;
            CounterOk(Calls(v, pol, p, at)) && OpenBook(Calls(v, pol, p, at), pol, n, Entered(b, p, below))
  {
    assert p !in b.high;
    assert |b.elder - {p}| <= |b.elder|;
  }

  lemma CountFirst(v: View, pol: Policy, n: nat, b: Book, p: Pid, at: Time)
    requires CounterOk(v) && OpenBook(v, pol, n, b) && p in v.flight && v.flight[p] == Counting
    requires v.counter == None && b.start <= at
    ensures CounterOk(Calls(v, pol, p, at))
    ensures OpenBook(Calls(v, pol, p, at), pol, n, Entered(b.(renewed := true), p, 1 < pol.maxAttempts))
  {
    assert p !in b.high;
    var c := CountedOn(v.counter, pol, at);
    assert c == Entry(1, Some(at + pol.window / SECOND * SECOND));
    assert Held(Some(c), pol) == if 1 < pol.maxAttempts then 1 else 0;
    if 1 < pol.maxAttempts {
      assert |b.elder - {p}| <= |b.elder|;
    } else {
      assert |b.high + {p}| == |b.high| + 1;
    }
  }

  /** A counter that was opened before the period runs out: it counts as given up. */
  lemma RunsOut(v: View, pol: Policy, n: nat, b: Book)
    requires CounterOk(v) && OpenBook(v, pol, n, b) && v.counter.Some? && !b.renewed
    ensures OpenBook(v.(counter := None), pol, n, b.(resets := b.resets + 1, renewed := true))
  {
    LostMore(pol, b.resets);
  }

  /** A failure counted while the counter opened in this period has run out starts a new period. */
  lemma CountNext(v: View, pol: Policy, n: nat, t0: Time, now: Time, checks: nat, b: Book, p: Pid, at: Time)
    returns (b': Book)
    requires pol.window >= SECOND && pol.lockoutTTL > 0 && n >= 1
    requires Kept(v, pol, n, t0, now, checks, b) && now <= at && p in v.flight && v.flight[p] == Counting
    requires !b.shut && b.renewed && v.counter.Some? && !IsLive(v.counter, at)
    ensures Kept(Calls(v, pol, p, at), pol, n, t0, at, checks, b')
  {
    WaitingMore(v.flight, p);
    FlightSize(v.flight, p, Locking);
    OpenTotal(v, pol, n, b);
    OneMorePeriod(b, pol, n);
    assert |v.flight.Keys - {p}| == |v.flight| - 1;
    var below := 1 < pol.maxAttempts;
    b' := Book(b.rounds + 1, at, b.done + b.cur, 1, if below then 1 else 0, if below then {} else {p},
               v.flight.Keys - {p}, 0, true, false, at);
  }

  lemma CountKeeps(v: View, pol: Policy, n: nat, t0: Time, now: Time, checks: nat, b: Book, p: Pid, at: Time)
    returns (b': Book)
    requires pol.window >= SECOND && pol.lockoutTTL > 0 && n >= 1
    requires Kept(v, pol, n, t0, now, checks, b) && now <= at && p in v.flight && v.flight[p] == Counting
    ensures Kept(Calls(v, pol, p, at), pol, n, t0, at, checks, b')
  {
    WaitingMore(v.flight, p);
    FlightSize(v.flight, p, Locking);
    if b.shut {
      b' := b.(cur := b.cur + 1);
    } else if IsLive(v.counter, at) {
      CountLive(v, pol, n, b, p, at);
      b' := Entered(b, p, v.counter.value.value + 1 < pol.maxAttempts);
    } else if v.counter == None {
      CountFirst(v, pol, n, b, p, at);
      b' := Entered(b.(renewed := true), p, 1 < pol.maxAttempts);
    } else if !b.renewed {
      RunsOut(v, pol, n, b);
      CountFirst(v.(counter := None), pol, n, b.(resets := b.resets + 1, renewed := true), p, at);
      b' := Entered(b.(resets := b.resets + 1, renewed := true), p, 1 < pol.maxAttempts);
    } else {
      b' := CountNext(v, pol, n, t0, now, checks, b, p, at);
    }
  }

  lemma StepKeeps(v: View, pol: Policy, n: nat, t0: Time, now: Time, checks: nat, b: Book, e: Step) returns (b': Book)
    requires pol.window >= SECOND && pol.lockoutTTL > 0 && n >= 1
    requires Kept(v, pol, n, t0, now, checks, b) && now <= e.at
    requires if e.Enter? then e.p !in v.flight else e.p in v.flight
    requires |Moves(v, pol, e).flight| <= n
    ensures var checks' := if e.Enter? && !IsLive(v.lock, e.at) then checks + 1 else checks;
            Kept(Moves(v, pol, e), pol, n, t0, e.at, checks', b')
  {
    match e {
      case Enter(p, _, at) =>
        b' := b;
        if !IsLive(v.lock, at) { b' := EnterKeeps(v, pol, n, t0, now, checks, b, p, at); }
      case Call(p, at) =>
        match v.flight[p] {
          case Counting => b' := CountKeeps(v, pol, n, t0, now, checks, b, p, at);
          case Locking => b' := LockKeeps(v, pol, n, t0, now, checks, b, p, at);
          case Clearing => b' := ClearKeeps(v, pol, n, t0, now, checks, b, p, at);
        }
    }
  }

  ghost predicate Bookable(v: View, pol: Policy, n: nat, t0: Time, now: Time, checks: nat) {
    exists b :: Kept(v, pol, n, t0, now, checks, b)
  }

  lemma BookableAtStart(v: View, pol: Policy, n: nat, t0: Time)
    requires n >= 1 && v.counter == None && v.flight == map[]
    ensures Bookable(v, pol, n, t0, t0, 0)
  {
    var b := Book(1, t0, 0, 0, 0, {}, {}, 0, false, false, t0);
    assert Waiting(v.flight) == {};
    assert Kept(v, pol, n, t0, t0, 0, b);
  }

  lemma BookableLater(v: View, pol: Policy, n: nat, t0: Time, now: Time, later: Time, checks: nat)
    requires Bookable(v, pol, n, t0, now, checks) && now <= later
    ensures Bookable(v, pol, n, t0, later, checks)
  {
    var b :| Kept(v, pol, n, t0, now, checks, b);
    assert Kept(v, pol, n, t0, later, checks, b);
  }

  lemma BookableMoves(v: View, pol: Policy, n: nat, t0: Time, now: Time, checks: nat, e: Step)
    requires pol.window >= SECOND && pol.lockoutTTL > 0 && n >= 1
    requires Bookable(v, pol, n, t0, now, checks) && now <= e.at
    requires if e.Enter? then e.p !in v.flight else e.p in v.flight
    requires |Moves(v, pol, e).flight| <= n
    ensures var checks' := if e.Enter? && !IsLive(v.lock, e.at) then checks + 1 else checks;
            Bookable(Moves(v, pol, e), pol, n, t0, e.at, checks')
  {
    var b :| Kept(v, pol, n, t0, now, checks, b);
    var b' := StepKeeps(v, pol, n, t0, now, checks, b, e);
  }

  lemma BookableNext(s: State, pol: Policy, email: string, n: nat, t0: Time, now: Time, checks: nat, e: Step)
    requires pol.window >= SECOND && pol.lockoutTTL > 0 && n >= 1
    requires Bookable(ViewOf(s, email), pol, n, t0, now, checks) && now <= e.at && Enabled(s, e)
    requires |Flight(Apply(s, pol, e).logins, email)| <= n
    ensures var checks' := if Enters(s, e, email) then checks + 1 else checks;
            Bookable(ViewOf(Apply(s, pol, e), email), pol, n, t0, e.at, checks')
  {
    StepViewed(s, pol, e, email);
    if Concerns(s, e, email) {
      BookableMoves(ViewOf(s, email), pol, n, t0, now, checks, e);
    } else {
      BookableLater(ViewOf(s, email), pol, n, t0, now, e.at, checks);
    }
  }

  lemma PeriodsBound(q: nat, checks: nat, rounds: nat, m: int, t0: Time, start: Time, T: nat)
    requires m > 0 && rounds >= 1 && checks <= q * rounds && t0 + (rounds - 1) * m <= start <= t0 + T
    ensures checks <= q * (T / m + 1)
  {
    B.RoundsBound(q, checks, rounds, m, T);
  }

  lemma BookableTotal(v: View, pol: Policy, n: nat, t0: Time, now: Time, checks: nat, T: nat)
    requires pol.window >= SECOND && pol.lockoutTTL > 0 && n >= 1
    requires Bookable(v, pol, n, t0, now, checks) && now <= t0 + T
    ensures checks <= Quota(pol, n) * (T / B.Period(pol) + 1)
  {
    var b :| Kept(v, pol, n, t0, now, checks, b);
    KeptTotal(v, pol, n, t0, now, checks, b);
    PeriodsBound(Quota(pol, n), checks, b.rounds, B.Period(pol), t0, b.start, T);
  }

  /** At most n logins are in flight for the email, and all steps are taken from `t0` on. */
  ghost predicate Limited(states: seq<State>, steps: seq<Step>, email: string, n: nat, t0: Time) {
    && (forall j :: 0 <= j < |states| ==> |Flight(states[j].logins, email)| <= n)
    && (forall j :: 0 <= j < |steps| ==> t0 <= steps[j].at)
  }

  /** The time of the last of the first i steps. */
  function TimeAt(steps: seq<Step>, t0: Time, i: nat): Time
    requires i <= |steps|
  {
    if i == 0 then t0 else steps[i - 1].at
  }

  lemma RunStep(states: seq<State>, steps: seq<Step>, pol: Policy, email: string, n: nat, t0: Time, i: nat)
    requires Run(states, steps, pol) && Limited(states, steps, email, n, t0) && i < |steps|
    ensures Enabled(states[i], steps[i]) && states[i + 1] == Apply(states[i], pol, steps[i])
    ensures |Flight(Apply(states[i], pol, steps[i]).logins, email)| <= n && TimeAt(steps, t0, i) <= steps[i].at
  {
    assert |Flight(states[i + 1].logins, email)| <= n;
  }

  lemma BookableStep(states: seq<State>, steps: seq<Step>, pol: Policy, email: string, n: nat, t0: Time, i: nat)
    requires Run(states, steps, pol) && pol.window >= SECOND && pol.lockoutTTL > 0 && n >= 1 && i < |steps|
    requires Limited(states, steps, email, n, t0)
    requires Bookable(ViewOf(states[i], email), pol, n, t0, TimeAt(steps, t0, i), Checks(states, steps, i, email))
    ensures Bookable(ViewOf(states[i + 1], email), pol, n, t0, TimeAt(steps, t0, i + 1),
                     Checks(states, steps, i + 1, email))
  {
    RunStep(states, steps, pol, email, n, t0, i);
    var s, e, checks := states[i], steps[i], Checks(states, steps, i, email);
    BookableNext(s, pol, email, n, t0, TimeAt(steps, t0, i), checks, e);
    assert Checks(states, steps, i + 1, email) == if Enters(s, e, email) then checks + 1 else checks;
  }

  lemma BookableFirst(states: seq<State>, steps: seq<Step>, pol: Policy, email: string, n: nat, t0: Time)
    requires Run(states, steps, pol) && n >= 1 && AttemptsKey(email) !in states[0].db
    ensures Bookable(ViewOf(states[0], email), pol, n, t0, t0, 0)
  {
    assert Flight(states[0].logins, email) == map[];
    BookableAtStart(ViewOf(states[0], email), pol, n, t0);
  }

  /** The bookkeeping can be kept up along every run. */
  lemma {:induction false} BookableAlways(states: seq<State>, steps: seq<Step>, pol: Policy, email: string, n: nat,
                                          t0: Time, i: nat)
    requires Run(states, steps, pol) && pol.window >= SECOND && pol.lockoutTTL > 0 && n >= 1 && i < |states|
    requires AttemptsKey(email) !in states[0].db && Limited(states, steps, email, n, t0)
    ensures Bookable(ViewOf(states[i], email), pol, n, t0, TimeAt(steps, t0, i), Checks(states, steps, i, email))
  {
    if i == 0 {
      BookableFirst(states, steps, pol, email, n, t0);
    } else {
      BookableAlways(states, steps, pol, email, n, t0, i - 1);
      BookableStep(states, steps, pol, email, n, t0, i - 1);
    }
  }

  /** However logins overlap, as long as at most n of them are in flight for an email at once: within
      time T at most Quota * (T / Period + 1) passwords are checked for it. */
  lemma OverlapsAreBounded(states: seq<State>, steps: seq<Step>, pol: Policy, email: string, n: nat, t0: Time, T: nat)
    requires Run(states, steps, pol) && pol.window >= SECOND && pol.lockoutTTL > 0 && n >= 1
    requires AttemptsKey(email) !in states[0].db && Limited(states, steps, email, n, t0)
    requires forall j :: 0 <= j < |steps| ==> steps[j].at <= t0 + T
    ensures Checks(states, steps, |steps|, email) <= Quota(pol, n) * (T / B.Period(pol) + 1)
  {
    BookableAlways(states, steps, pol, email, n, t0, |steps|);
    BookableTotal(ViewOf(states[|steps|], email), pol, n, t0, TimeAt(steps, t0, |steps|),
                  Checks(states, steps, |steps|, email), T);
  }

  /** One login at a time cannot check more than Cap passwords at once (GuessesAreBounded); n that
      overlap can check n, for every n. */
  lemma {:induction false} OverlapsExceed(db: Db, pol: Policy, email: string, at: Time, n: nat)
    returns (states: seq<State>, steps: seq<Step>)
    requires !Locked(db, email, at)
    ensures Run(states, steps, pol) && |steps| == n && (forall i :: 0 <= i < n ==> steps[i].at == at)
    ensures states[0].db == states[n].db == db && Checks(states, steps, n, email) == n
    ensures forall p :: p in states[n].logins ==> p < n
  {
    if n == 0 {
      states, steps := [State(db, map[])], [];
    } else {
      var ss, es := OverlapsExceed(db, pol, email, at, n - 1);
      var e := Enter(n - 1, email, at);
      states, steps := ss + [Apply(ss[n - 1], pol, e)], es + [e];
      ChecksPrefix(ss, states, es, steps, n - 1, email);
    }
  }

  lemma {:induction false} ChecksPrefix(ss: seq<State>, states: seq<State>, es: seq<Step>, steps: seq<Step>,
                                        i: nat, email: string)
    requires i <= |es| <= |ss| && es <= steps && ss <= states && |steps| <= |states|
    ensures Checks(states, steps, i, email) == Checks(ss, es, i, email)
  {
    if i > 0 { ChecksPrefix(ss, states, es, steps, i - 1, email); }
  }
}
