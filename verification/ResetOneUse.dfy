/**
 One use per reset token. The service deletes the token before it writes the password, but
 reading and deleting are two calls, so requests that overlap between them can share a token.
 */
module ResetOneUse {
  import opened Prelude
  import opened ResetStore
  import opened ResetProtocol
  import opened ResetRuns

  /** How often a token changed a password. */
  function Uses(log: seq<Note>, h: Hash): nat {
    if log == [] then 0
    else
      var n := log[|log| - 1];
      Uses(log[..|log| - 1], h) + if n.Changed? && n.hash == h then 1 else 0
  }

  lemma UseMore(log: seq<Note>, n: Note, h: Hash)
    ensures Uses(log + [n], h) == Uses(log, h) + if n.Changed? && n.hash == h then 1 else 0
  {
    assert (log + [n])[..|log|] == log;
  }

  /** The request is about to store token `h`, or holds it between reading and redeeming it. */
  predicate Holds(pc: Pc, h: Hash) {
    match pc
    case VerifySave(_, _, _, hash) => hash == h
    case ResetDelete(hash, _) => hash == h
    case ResetUpdate(hash, _) => hash == h
    case _ => false
  }

  /** The life of a token: drawn by one request, stored, held by one request, used. */
  ghost predicate OneHolder(procs: map<Pid, Pc>, tokens: Tokens, drawn: set<Hash>, uses: nat, h: Hash) {
    && (forall p, q :: p in procs && q in procs && Holds(procs[p], h) && Holds(procs[q], h) ==> p == q)
    && (forall p :: p in procs && Holds(procs[p], h) ==>
          h in drawn && uses == 0 && (h in tokens ==> procs[p].ResetDelete?))
    && (h in tokens ==> h in drawn && uses == 0)
    && (uses > 0 ==> h in drawn)
    && uses <= 1
  }

  ghost predicate Inv(s: State, h: Hash) {
    OneHolder(s.procs, s.tokens, s.drawn, Uses(s.log, h), h)
  }

  /** The step reads the live token while another request has read it and not yet deleted it. */
  ghost predicate Overlaps(s: State, e: Event, h: Hash) {
    && e.Act? && e.p in s.procs && s.procs[e.p] == ResetGet(h) && e.ok
    && h in s.tokens && Live(s.backend, s.tokens[h].expiresAt, s.now)
    && exists q :: q in s.procs && s.procs[q].ResetDelete? && s.procs[q].hash == h
  }

  /** What one call of a request can do to a token: let it go or not touch it, draw it, store it,
      read it, take it out of the store, or redeem it. */
  datatype Move = Leave | Draw | Store | Read | Take | Redeem

  predicate Moves(m: Move, pc: Pc, pc': Pc, tokens: Tokens, tokens': Tokens, drawn: set<Hash>, drawn': set<Hash>,
                  h: Hash)
  {
    match m
    case Leave => !Holds(pc', h) && (h in tokens' ==> h in tokens) && drawn <= drawn'
    case Draw => Holds(pc', h) && pc'.VerifySave? && tokens' == tokens && h !in drawn && h in drawn'
    case Store => Holds(pc, h) && pc.VerifySave? && !Holds(pc', h) && drawn' == drawn
    case Read => h in tokens && Holds(pc', h) && pc'.ResetDelete? && tokens' == tokens && drawn' == drawn
    case Take => Holds(pc, h) && Holds(pc', h) && h !in tokens' && drawn' == drawn
    case Redeem => Holds(pc, h) && pc.ResetUpdate? && !Holds(pc', h) && tokens' == tokens && drawn' == drawn
  }

  lemma MoveKeeps(m: Move, procs: map<Pid, Pc>, p: Pid, pc: Pc, tokens: Tokens, tokens': Tokens,
                  drawn: set<Hash>, drawn': set<Hash>, uses: nat, h: Hash)
    requires p in procs && OneHolder(procs, tokens, drawn, uses, h)
    requires Moves(m, procs[p], pc, tokens, tokens', drawn, drawn', h)
    requires m.Read? ==> forall q :: q in procs && procs[q].ResetDelete? ==> procs[q].hash != h
    ensures OneHolder(procs[p := pc], tokens', drawn', if m.Redeem? then uses + 1 else uses, h)
  {
    assert m.Read? ==> forall q :: q in procs ==> !Holds(procs[q], h);
    assert m.Draw? ==> forall q :: q in procs ==> !Holds(procs[q], h);
  }

  lemma CodeCallUses(s: State, pc: Pc, ok: bool, token: Hash, h: Hash)
    requires !pc.ResetGet? && !pc.ResetDelete? && !pc.ResetUpdate? && !pc.Done?
    ensures Uses(CodeCall(s, pc, ok, token).0.log, h) == Uses(s.log, h)
  {
    match pc
    case RequestSave(email, user, hash) => UseMore(s.log, Saved(email, user, Latest(s.saves, email) + 1, hash), h);
    case VerifySave(email, user, nth, hash) => UseMore(s.log, Issued(hash, user, email, nth), h);
    case VerifyIncr(email, code, record, nth) => UseTwo(s.log, email, record, nth, h);
    case _ =>
  }

  lemma UseTwo(log: seq<Note>, m: string, record: Otp, nth: nat, h: Hash)
    ensures Uses(log + [Compared(m)], h) == Uses(log, h)
    ensures Uses(log + [Compared(m), Matched(m, record.user, nth, record.hash)], h) == Uses(log, h)
  {
    UseMore(log, Compared(m), h);
    var compared, n := log + [Compared(m)], Matched(m, record.user, nth, record.hash);
    UseMore(compared, n, h);
    assert log + [Compared(m), n] == compared + [n];
  }

  lemma CodeCallMoves(s: State, pc: Pc, ok: bool, token: Hash, h: Hash) returns (m: Move)
    requires !pc.ResetGet? && !pc.ResetDelete? && !pc.ResetUpdate? && !pc.Done?
    requires pc.VerifyDelete? ==> token !in s.drawn
    ensures var (s', pc') := CodeCall(s, pc, ok, token);
            !m.Read? && !m.Redeem? && Moves(m, pc, pc', s.tokens, s'.tokens, s.drawn, s'.drawn, h)
  {
    m := if pc.VerifyDelete? && token == h then Draw
         else if pc.VerifySave? && pc.hash == h then Store else Leave;
  }

  lemma ResetCallMoves(s: State, pc: Pc, ok: bool, h: Hash) returns (m: Move)
    requires pc.ResetGet? || pc.ResetDelete? || pc.ResetUpdate?
    ensures var (s', pc') := ResetCall(s, pc, ok);
            && Moves(m, pc, pc', s.tokens, s'.tokens, s.drawn, s'.drawn, h)
            && (m.Read? ==> pc == ResetGet(h) && ok && h in s.tokens && Live(s.backend, s.tokens[h].expiresAt, s.now))
            && Uses(s'.log, h) == Uses(s.log, h) + if m.Redeem? then 1 else 0
  {
    m := Leave;
    if ok && pc.hash == h {
      if pc.ResetGet? && ReadToken(s.backend, s.tokens, h, s.now).1.Some? { m := Read; }
      if pc.ResetDelete? { m := Take; }
      if pc.ResetUpdate? { m := Redeem; }
    }
    if pc.ResetUpdate? { UseMore(s.log, Changed(pc.user, pc.hash), h); }
  }

  lemma StepOneHolder(s: State, e: Event, h: Hash)
    requires Inv(s, h) && Enabled(s, e) && !Overlaps(s, e, h)
    ensures Inv(Apply(s, e), h)
  {
    if e.Act? {
      var pc := s.procs[e.p];
      var (s', pc') := Call(s, pc, e.ok, e.hash);
      var m;
      if pc.ResetGet? || pc.ResetDelete? || pc.ResetUpdate? {
        m := ResetCallMoves(s, pc, e.ok, h);
      } else {
        m := CodeCallMoves(s, pc, e.ok, e.hash, h);
        CodeCallUses(s, pc, e.ok, e.hash, h);
      }
      MoveKeeps(m, s.procs, e.p, pc', s.tokens, s'.tokens, s.drawn, s'.drawn, Uses(s.log, h), h);
    }
  }

  /** In every run in which no read of the token overlaps another reset with it, the token
      changes a password at most once, whatever else interleaves and fails. */
  lemma {:induction false} UsedOnceWithoutOverlap(states: seq<State>, events: seq<Event>, i: nat, h: Hash)
    requires Run(states, events) && i < |states|
    requires forall j :: 0 <= j < i ==> !Overlaps(states[j], events[j], h)
    ensures Inv(states[i], h) && Uses(states[i].log, h) <= 1
  {
    if i > 0 {
      UsedOnceWithoutOverlap(states, events, i - 1, h);
      StepOneHolder(states[i - 1], events[i - 1], h);
    }
  }

  /** Steps of the protocol, none of which overlaps. */
  ghost predicate Goes(states: seq<State>, events: seq<Event>, h: Hash) {
    && |states| == |events| + 1
    && forall i :: 0 <= i < |events| ==>
         && Enabled(states[i], events[i]) && states[i + 1] == Apply(states[i], events[i])
         && !Overlaps(states[i], events[i], h)
  }

  /** The run can go on, without further overlaps, until the token has been used twice. */
  ghost predicate CanUseTwice(s: State, h: Hash) {
    exists states: seq<State>, events: seq<Event> ::
      Goes(states, events, h) && states[0] == s && Uses(states[|events|].log, h) >= 2
  }

  lemma {:induction false} GoesOneHolder(states: seq<State>, events: seq<Event>, i: nat, h: Hash)
    requires Goes(states, events, h) && i < |states| && Inv(states[0], h)
    ensures Inv(states[i], h)
  {
    if i > 0 {
      GoesOneHolder(states, events, i - 1, h);
      StepOneHolder(states[i - 1], events[i - 1], h);
    }
  }

  lemma GoesFrom(s: State, e: Event, states: seq<State>, events: seq<Event>, h: Hash)
    requires Goes(states, events, h) && Enabled(s, e) && states[0] == Apply(s, e) && !Overlaps(s, e, h)
    ensures Goes([s] + states, [e] + events, h)
  {
    var states', events' := [s] + states, [e] + events;
    forall i | 0 <= i < |events'|
      ensures Enabled(states'[i], events'[i]) && states'[i + 1] == Apply(states'[i], events'[i])
      ensures !Overlaps(states'[i], events'[i], h)
    {
      if i > 0 { assert states'[i] == states[i - 1] && events'[i] == events[i - 1]; }
    }
  }

  lemma StepThenTwice(s: State, e: Event, h: Hash)
    requires Enabled(s, e) && !Overlaps(s, e, h) && CanUseTwice(Apply(s, e), h)
    ensures CanUseTwice(s, h)
  {
    var states: seq<State>, events: seq<Event> :|
      Goes(states, events, h) && states[0] == Apply(s, e) && Uses(states[|events|].log, h) >= 2;
    GoesFrom(s, e, states, events, h);
    var states', events' := [s] + states, [e] + events;
    assert Goes(states', events', h) && states'[0] == s && Uses(states'[|events'|].log, h) >= 2;
  }

  lemma UsedTwice(s: State, h: Hash)
    requires Uses(s.log, h) >= 2
    ensures CanUseTwice(s, h)
  {
    var none: seq<Event> := [];
    assert Goes([s], none, h) && [s][0] == s && Uses([s][|none|].log, h) >= 2;
  }

  /** Two requests that are about to write the password with a token can both do so. */
  lemma BothWrite(s: State, p: Pid, q: Pid, h: Hash, user: string, other: string)
    requires p in s.procs && q in s.procs && p != q
    requires s.procs[p] == ResetUpdate(h, user) && s.procs[q] == ResetUpdate(h, other)
    ensures CanUseTwice(s, h)
  {
    var s1 := Apply(s, Act(p, true, h));
    var s2 := Apply(s1, Act(q, true, h));
    UseMore(s.log, Changed(user, h), h);
    UseMore(s1.log, Changed(other, h), h);
    UsedTwice(s2, h);
    StepThenTwice(s1, Act(q, true, h), h);
    StepThenTwice(s, Act(p, true, h), h);
  }

  /** Two requests that have both read a token can both change the password with it. */
  lemma BothUse(s: State, p: Pid, q: Pid, h: Hash, user: string, other: string)
    requires p in s.procs && q in s.procs && p != q
    requires s.procs[p] == ResetDelete(h, user) && s.procs[q] == ResetDelete(h, other)
    ensures CanUseTwice(s, h)
  {
    var s1 := Apply(s, Act(p, true, h));
    var s2 := Apply(s1, Act(q, true, h));
    BothWrite(s2, p, q, h, user, other);
    StepThenTwice(s1, Act(q, true, h), h);
    StepThenTwice(s, Act(p, true, h), h);
  }

  /** The step that can spoil the promise, exactly: as long as no read has overlapped, the token
      has been used at most once, and a step makes a second use possible if and only if it
      overlaps. */
  lemma SecondUseExactly(states: seq<State>, events: seq<Event>, i: nat, h: Hash)
    requires Run(states, events) && i < |events|
    requires forall j :: 0 <= j < i ==> !Overlaps(states[j], events[j], h)
    ensures CanUseTwice(states[i + 1], h) <==> Overlaps(states[i], events[i], h)
  {
    var s, e, s' := states[i], events[i], states[i + 1];
    UsedOnceWithoutOverlap(states, events, i, h);
    if Overlaps(s, e, h) {
      var q :| q in s.procs && s.procs[q].ResetDelete? && s.procs[q].hash == h;
      BothUse(s', e.p, q, h, s.tokens[h].user, s.procs[q].user);
    } else if CanUseTwice(s', h) {
      StepOneHolder(s, e, h);
      var more: seq<State>, later: seq<Event> :|
        Goes(more, later, h) && more[0] == s' && Uses(more[|later|].log, h) >= 2;
      GoesOneHolder(more, later, |later|, h);
    }
  }

  /** Once two requests have read a token, both can go on to change the password with it. */
  lemma OverlapUsesTwice(s: State, p: Pid, q: Pid, h: Hash, user: string) returns (t: State)
    requires CanReach(s) && p in s.procs && q in s.procs && p != q
    requires s.procs[p] == s.procs[q] == ResetDelete(h, user)
    ensures CanReach(t) && Uses(t.log, h) == Uses(s.log, h) + 2
  {
    var s1 := Apply(s, Act(p, true, h));
    Acts(s, p, h, s1);
    var s2 := Apply(s1, Act(q, true, h));
    Acts(s1, q, h, s2);
    var s3 := Apply(s2, Act(p, true, h));
    Acts(s2, p, h, s3);
    t := Apply(s3, Act(q, true, h));
    Acts(s3, q, h, t);
    UseMore(s.log, Changed(user, h), h);
    UseMore(s3.log, Changed(user, h), h);
  }

  lemma {:induction false} NoUse(log: seq<Note>, h: Hash)
    requires forall n :: n in log ==> !n.Changed?
    ensures Uses(log, h) == 0
  {
    if log != [] {
      NoUse(log[..|log| - 1], h);
    }
  }

  /** The one-use promise fails when requests overlap, for every token: a run changes the
      password twice with it. */
  lemma TokenUsedTwice(backend: Backend, now: Time, email: string, user: string, code: Hash, h: Hash) returns (t: State)
    ensures CanReach(t) && Uses(t.log, h) == 2
  {
    var s := TokenArises(backend, now, email, user, code, h);
    NoUse(s.log, h);
    var s' := BothRead(s, 2, 3, h);
    t := OverlapUsesTwice(s', 2, 3, h, user);
  }
}
