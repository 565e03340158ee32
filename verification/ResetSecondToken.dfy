/** Which steps make a second reset token for one code possible, exactly. */
module ResetSecondToken {
  import opened Prelude
  import opened ResetStore
  import opened ResetProtocol
  import opened ResetSafety
  import opened ResetOneCode
  import opened ResetRuns

  /** Steps of the protocol, none of which breaks the code. */
  ghost predicate Goes(states: seq<State>, events: seq<Event>, email: string, nth: nat) {
    && |states| == |events| + 1
    && forall i :: 0 <= i < |events| ==>
         && Enabled(states[i], events[i]) && states[i + 1] == Apply(states[i], events[i])
         && !Breaks(states[i], events[i], email, nth)
  }

  /** The run can go on, without further breaks, until the code has yielded two tokens. */
  ghost predicate CanYieldTwo(s: State, email: string, nth: nat) {
    exists states: seq<State>, events: seq<Event> ::
      Goes(states, events, email, nth) && states[0] == s && Granted(states[|events|].log, email, nth) >= 2
  }

  lemma {:induction false} GoesOneClaim(states: seq<State>, events: seq<Event>, i: nat, email: string, nth: nat)
    requires Goes(states, events, email, nth) && i < |states| && Inv(states[0], email, nth)
    ensures Inv(states[i], email, nth)
  {
    if i > 0 {
      GoesOneClaim(states, events, i - 1, email, nth);
      StepKeeps(states[i - 1], events[i - 1], email, nth);
    }
  }

  lemma GoesFrom(s: State, e: Event, states: seq<State>, events: seq<Event>, email: string, nth: nat)
    requires Goes(states, events, email, nth)
    requires Enabled(s, e) && states[0] == Apply(s, e) && !Breaks(s, e, email, nth)
    ensures Goes([s] + states, [e] + events, email, nth)
  {
    var states', events' := [s] + states, [e] + events;
    forall i | 0 <= i < |events'|
      ensures Enabled(states'[i], events'[i]) && states'[i + 1] == Apply(states'[i], events'[i])
      ensures !Breaks(states'[i], events'[i], email, nth)
    {
      if i > 0 { assert states'[i] == states[i - 1] && events'[i] == events[i - 1]; }
    }
  }

  lemma StepThenTwo(s: State, e: Event, email: string, nth: nat)
    requires Enabled(s, e) && !Breaks(s, e, email, nth) && CanYieldTwo(Apply(s, e), email, nth)
    ensures CanYieldTwo(s, email, nth)
  {
    var states: seq<State>, events: seq<Event> :|
      Goes(states, events, email, nth) && states[0] == Apply(s, e) && Granted(states[|events|].log, email, nth) >= 2;
    GoesFrom(s, e, states, events, email, nth);
    var states', events' := [s] + states, [e] + events;
    assert Goes(states', events', email, nth) && states'[0] == s
           && Granted(states'[|events'|].log, email, nth) >= 2;
  }

  lemma HasYieldedTwo(s: State, email: string, nth: nat)
    requires Granted(s.log, email, nth) >= 2
    ensures CanYieldTwo(s, email, nth)
  {
    var none: seq<Event> := [];
    assert Goes([s], none, email, nth) && [s][0] == s && Granted([s][|none|].log, email, nth) >= 2;
  }

  /** There is always a token that was never drawn, and a request that has not begun. */
  lemma {:induction false} LongerThanAll(drawn: set<Hash>) returns (n: nat)
    ensures forall h :: h in drawn ==> |h| < n
  {
    n := 0;
    if drawn != {} {
      var h :| h in drawn;
      var m := LongerThanAll(drawn - {h});
      n := if |h| < m then m else |h| + 1;
    }
  }

  lemma Undrawn(drawn: set<Hash>) returns (h: Hash)
    ensures h !in drawn
  {
    var n := LongerThanAll(drawn);
    h := seq(n, _ => 'x');
  }

  lemma {:induction false} AboveAll(ps: set<Pid>) returns (p: Pid)
    ensures forall q :: q in ps ==> q < p
  {
    p := 0;
    if ps != {} {
      var q :| q in ps;
      var m := AboveAll(ps - {q});
      assert forall r :: r in ps ==> r == q || r in ps - {q};
      p := if q < m then m else q + 1;
    }
  }

  function Rank(pc: Pc): nat {
    if pc.VerifyIncr? then 3 else if pc.VerifyDelete? then 2 else 1
  }

  /** A request that claims the code can take its next step, or two with a fresh code saved in
      between, towards its token. */
  ghost predicate Advanced(s: State, s': State, p: Pid, email: string, nth: nat) {
    && p in s.procs && p in s'.procs
    && (forall q :: q in s.procs && q != p ==> q in s'.procs && s'.procs[q] == s.procs[q])
    && (if s.procs[p].VerifySave? then
          Granted(s'.log, email, nth) == Granted(s.log, email, nth) + 1
        else
          && Granted(s'.log, email, nth) == Granted(s.log, email, nth)
          && Claims(s'.procs[p], email, nth) && Rank(s'.procs[p]) < Rank(s.procs[p]))
  }

  lemma Stores(s: State, p: Pid, email: string, nth: nat) returns (s': State)
    requires p in s.procs && Claims(s.procs[p], email, nth) && s.procs[p].VerifySave?
    ensures Advanced(s, s', p, email, nth)
    ensures CanYieldTwo(s', email, nth) ==> CanYieldTwo(s, email, nth)
  {
    var pc := s.procs[p];
    s' := Apply(s, Act(p, true, pc.hash));
    CountNote(s.log, Issued(pc.hash, pc.user, email, nth), email, nth);
    if CanYieldTwo(s', email, nth) { StepThenTwo(s, Act(p, true, pc.hash), email, nth); }
  }

  lemma Deletes(s: State, p: Pid, email: string, nth: nat) returns (s': State)
    requires p in s.procs && Claims(s.procs[p], email, nth) && s.procs[p].VerifyDelete?
    ensures Advanced(s, s', p, email, nth)
    ensures CanYieldTwo(s', email, nth) ==> CanYieldTwo(s, email, nth)
  {
    var h := Undrawn(s.drawn);
    s' := Apply(s, Act(p, true, h));
    if CanYieldTwo(s', email, nth) { StepThenTwo(s, Act(p, true, h), email, nth); }
  }

  /** A new code for the email brings new attempts, also to a verification of an older one. */
  lemma Renews(s: State, email: string, nth: nat) returns (s': State)
    ensures email in s'.otps && s'.otps[email].attempts == 0 && s'.otps[email].expiresAt == s'.now + TTL
    ensures forall q :: q in s.procs ==> q in s'.procs && s'.procs[q] == s.procs[q]
    ensures Granted(s'.log, email, nth) == Granted(s.log, email, nth)
    ensures CanYieldTwo(s', email, nth) ==> CanYieldTwo(s, email, nth)
  {
    var p := AboveAll(s.procs.Keys);
    var s1 := Apply(s, Begin(p, RequestSave(email, "", "")));
    s' := Apply(s1, Act(p, true, ""));
    CountNote(s.log, Saved(email, "", Latest(s.saves, email) + 1, ""), email, nth);
    if CanYieldTwo(s', email, nth) {
      StepThenTwo(s1, Act(p, true, ""), email, nth);
      StepThenTwo(s, Begin(p, RequestSave(email, "", "")), email, nth);
    }
  }

  lemma Accepts(s: State, p: Pid, email: string, nth: nat) returns (s': State)
    requires p in s.procs && Claims(s.procs[p], email, nth) && s.procs[p].VerifyIncr?
    requires email in s.otps && s.otps[email].attempts == 0 && s.otps[email].expiresAt == s.now + TTL
    ensures Advanced(s, s', p, email, nth)
    ensures CanYieldTwo(s', email, nth) ==> CanYieldTwo(s, email, nth)
  {
    var pc := s.procs[p];
    s' := Apply(s, Act(p, true, ""));
    CountMatch(s.log, email, pc.record, nth, email, nth);
    if CanYieldTwo(s', email, nth) { StepThenTwo(s, Act(p, true, ""), email, nth); }
  }

  lemma Advances(s: State, p: Pid, email: string, nth: nat) returns (s': State)
    requires p in s.procs && Claims(s.procs[p], email, nth)
    ensures Advanced(s, s', p, email, nth)
    ensures CanYieldTwo(s', email, nth) ==> CanYieldTwo(s, email, nth)
  {
    if s.procs[p].VerifySave? {
      s' := Stores(s, p, email, nth);
    } else if s.procs[p].VerifyDelete? {
      s' := Deletes(s, p, email, nth);
    } else {
      var s1 := Renews(s, email, nth);
      s' := Accepts(s1, p, email, nth);
    }
  }

  lemma {:induction false} LastClaim(s: State, p: Pid, email: string, nth: nat)
    requires p in s.procs && Claims(s.procs[p], email, nth) && Granted(s.log, email, nth) >= 1
    ensures CanYieldTwo(s, email, nth)
    decreases Rank(s.procs[p])
  {
    var s' := Advances(s, p, email, nth);
    if s.procs[p].VerifySave? {
      HasYieldedTwo(s', email, nth);
    } else {
      LastClaim(s', p, email, nth);
    }
  }

  lemma {:induction false} TwoClaims(s: State, p: Pid, q: Pid, email: string, nth: nat)
    requires p in s.procs && q in s.procs && p != q
    requires Claims(s.procs[p], email, nth) && Claims(s.procs[q], email, nth)
    ensures CanYieldTwo(s, email, nth)
    decreases Rank(s.procs[p])
  {
    var s' := Advances(s, p, email, nth);
    if s.procs[p].VerifySave? {
      LastClaim(s', q, email, nth);
    } else {
      TwoClaims(s', p, q, email, nth);
    }
  }

  /** A code that is live while a verification is past deleting it can be read once more. */
  lemma ReadAgain(s: State, p: Pid, email: string, nth: nat)
    requires p in s.procs && Claims(s.procs[p], email, nth) && Readable(s, email, nth)
    requires !InPending(s.procs, email, nth)
    ensures CanYieldTwo(s, email, nth)
  {
    var q := AboveAll(s.procs.Keys);
    var code := s.otps[email].hash;
    var s1 := Apply(s, Begin(q, VerifyGet(email, code)));
    var s2 := Apply(s1, Act(q, true, ""));
    assert s2.procs[p] == s.procs[p] && Claims(s2.procs[q], email, nth);
    TwoClaims(s2, p, q, email, nth);
    assert !InPending(s1.procs, email, nth) by {
      assert forall r :: r in s.procs ==> s1.procs[r] == s.procs[r];
    }
    StepThenTwo(s1, Act(q, true, ""), email, nth);
    StepThenTwo(s, Begin(q, VerifyGet(email, code)), email, nth);
  }

  lemma BreakYieldsTwo(s: State, e: Event, email: string, nth: nat)
    requires Inv(s, email, nth) && Enabled(s, e) && Breaks(s, e, email, nth)
    ensures CanYieldTwo(Apply(s, e), email, nth)
  {
    var s' := Apply(s, e);
    if s.procs[e.p].VerifyGet? {
      var q :| q in s.procs && Pending(s.procs[q], email, nth);
      TwoClaims(s', e.p, q, email, nth);
    } else {
      assert forall q :: q in s.procs && q != e.p ==> s'.procs[q] == s.procs[q] && !Claims(s.procs[q], email, nth);
      ReadAgain(s', e.p, email, nth);
    }
  }

  /** The steps that can spoil the promise, exactly: as long as none has broken the code, it has
      yielded at most one token, and a step makes a second one possible if and only if it
      breaks the code. */
  lemma SecondTokenExactly(states: seq<State>, events: seq<Event>, i: nat, email: string, nth: nat)
    requires Run(states, events) && i < |events|
    requires forall j :: 0 <= j < i ==> !Breaks(states[j], events[j], email, nth)
    ensures CanYieldTwo(states[i + 1], email, nth) <==> Breaks(states[i], events[i], email, nth)
  {
    var s, e, s' := states[i], events[i], states[i + 1];
    OneTokenPerCode(states, events, i, email, nth);
    if Breaks(s, e, email, nth) {
      BreakYieldsTwo(s, e, email, nth);
    } else if CanYieldTwo(s', email, nth) {
      StepKeeps(s, e, email, nth);
      var more: seq<State>, later: seq<Event> :|
        Goes(more, later, email, nth) && more[0] == s' && Granted(more[|later|].log, email, nth) >= 2;
      GoesOneClaim(more, later, |later|, email, nth);
    }
  }

  lemma GrantMore(log: seq<Note>, email: string, user: string, nth: nat, h: Hash)
    ensures Granted(log + [Issued(h, user, email, nth)], email, nth) == Granted(log, email, nth) + 1
    ensures Saves(log + [Issued(h, user, email, nth)], email) == Saves(log, email)
  {
    CountNote(log, Issued(h, user, email, nth), email, nth);
    CountMore(log, Issued(h, user, email, nth), email);
  }

  lemma MatchGrantsNothing(log: seq<Note>, email: string, record: Otp, nth: nat)
    ensures var log' := log + [Compared(email), Matched(email, record.user, nth, record.hash)];
            Granted(log', email, nth) == Granted(log, email, nth) && Saves(log', email) == Saves(log, email)
  {
    CountMatch(log, email, record, nth, email, nth);
    CountTwo(log, email, record, nth, email);
  }

  lemma FirstSave(email: string, user: string, code: Hash)
    ensures var log := [Saved(email, user, 1, code)];
            Saves(log, email) == 1 && Granted(log, email, 1) == 0
  {
    var n := Saved(email, user, 1, code);
    CountMore([], n, email);
    CountNote([], n, email, 1);
    assert [] + [n] == [n];
  }

  /** A failed delete lets one code yield two tokens, even though the requests run one after the
      other. */
  lemma CodeUsedTwice(backend: Backend, now: Time, email: string, user: string, code: Hash, h: Hash, h': Hash)
    returns (t: State)
    requires h != h'
    ensures CanReach(t) && Saves(t.log, email) == 1 && Granted(t.log, email, 1) == 2
  {
    var s := CodeArises(backend, now, email, user, code);
    FirstSave(email, user, code);
    var record := s.otps[email];
    var s' := Verifies(s, 1, false, email, record, h);
    MatchGrantsNothing(s.log, email, record, 1);
    GrantMore(s.log + [Compared(email), Matched(email, user, 1, code)], email, user, 1, h);
    t := Verifies(s', 2, false, email, record.(attempts := 1), h');
    MatchGrantsNothing(s'.log, email, record.(attempts := 1), 1);
    GrantMore(s'.log + [Compared(email), Matched(email, user, 1, code)], email, user, 1, h');
  }

  /** So does an overlap in which no call fails: two verifications read the code before either
      deletes it. */
  lemma OverlapYieldsTwo(backend: Backend, now: Time, email: string, user: string, code: Hash, h: Hash, h': Hash)
    returns (t: State)
    requires h != h'
    ensures CanReach(t) && Saves(t.log, email) == 1 && Granted(t.log, email, 1) == 2
  {
    var s := CodeArises(backend, now, email, user, code);
    FirstSave(email, user, code);
    var record := s.otps[email];
    var s1 := Finds(s, 1, email, record, h);
    var s2 := Finds(s1, 2, email, record, h);
    var s3 := Matches(s2, 1, email, record, 1, h);
    var s4 := Matches(s3, 2, email, record, 1, h);
    MatchGrantsNothing(s.log, email, record, 1);
    MatchGrantsNothing(s3.log, email, record, 1);
    t := BothIssue(s4, email, user, 1, h, h');
  }

  lemma BothIssue(s: State, email: string, user: string, nth: nat, h: Hash, h': Hash) returns (t: State)
    requires CanReach(s) && 1 in s.procs && 2 in s.procs && h != h' && h !in s.drawn && h' !in s.drawn
    requires s.procs[1] == s.procs[2] == VerifyDelete(email, user, nth)
    ensures CanReach(t) && Saves(t.log, email) == Saves(s.log, email)
    ensures Granted(t.log, email, nth) == Granted(s.log, email, nth) + 2
  {
    var s' := Issues(s, 1, true, email, user, nth, h);
    t := Issues(s', 2, true, email, user, nth, h');
    GrantMore(s.log, email, user, nth, h);
    GrantMore(s'.log, email, user, nth, h');
  }
}
