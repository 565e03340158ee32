/**
 One reset token per code. VerifyResetCode reads, counts, compares and deletes a code in
 separate store calls, and goes on when the delete fails. The codes saved for an email are
 numbered; everything here is about the `nth` of them.
 */
module ResetOneCode {
  import opened Prelude
  import opened ResetStore
  import opened ResetProtocol
  import opened ResetSafety

  /** How many verifications matched the code. */
  function Verified(log: seq<Note>, email: string, nth: nat): nat {
    if log == [] then 0
    else
      var n := log[|log| - 1];
      Verified(log[..|log| - 1], email, nth) + if n.Matched? && n.email == email && n.nth == nth then 1 else 0
  }

  /** How many reset tokens were issued for the code. */
  function Granted(log: seq<Note>, email: string, nth: nat): nat {
    if log == [] then 0
    else
      var n := log[|log| - 1];
      Granted(log[..|log| - 1], email, nth) + if n.Issued? && n.email == email && n.nth == nth then 1 else 0
  }

  datatype Tally = Tally(verified: nat, granted: nat)

  function Count(log: seq<Note>, email: string, nth: nat): Tally {
    Tally(Verified(log, email, nth), Granted(log, email, nth))
  }

  function Noted(t: Tally, n: Note, email: string, nth: nat): Tally {
    match n
    case Matched(e, _, k, _) => if e == email && k == nth then t.(verified := t.verified + 1) else t
    case Issued(_, _, e, k) => if e == email && k == nth then t.(granted := t.granted + 1) else t
    case _ => t
  }

  lemma CountNote(log: seq<Note>, n: Note, email: string, nth: nat)
    ensures Count(log + [n], email, nth) == Noted(Count(log, email, nth), n, email, nth)
  {
    assert (log + [n])[..|log|] == log;
  }

  lemma CountMatch(log: seq<Note>, m: string, record: Otp, k: nat, email: string, nth: nat)
    ensures Count(log + [Compared(m)], email, nth) == Count(log, email, nth)
    ensures var n := Matched(m, record.user, k, record.hash);
            Count(log + [Compared(m), n], email, nth) == Noted(Count(log, email, nth), n, email, nth)
  {
    CountNote(log, Compared(m), email, nth);
    var compared, n := log + [Compared(m)], Matched(m, record.user, k, record.hash);
    CountNote(compared, n, email, nth);
    assert log + [Compared(m), n] == compared + [n];
  }

  /** The request has read the code and was given it back, and has not stored its token yet. */
  predicate Claims(pc: Pc, email: string, nth: nat) {
    match pc
    case VerifyIncr(e, code, record, k) => e == email && k == nth && code == record.hash
    case VerifyDelete(e, _, k) => e == email && k == nth
    case VerifySave(e, _, k, _) => e == email && k == nth
    case _ => false
  }

  /** It has matched the code. */
  predicate Owed(pc: Pc, email: string, nth: nat) {
    Claims(pc, email, nth) && !pc.VerifyIncr?
  }

  /** It has not yet tried to delete the code. */
  predicate Pending(pc: Pc, email: string, nth: nat) {
    Claims(pc, email, nth) && !pc.VerifySave?
  }

  function Owing(procs: map<Pid, Pc>, email: string, nth: nat): set<Pid> {
    set p | p in procs && Owed(procs[p], email, nth)
  }

  /** The code is stored and has not expired. */
  predicate Readable(s: State, email: string, nth: nat) {
    email in s.otps && Latest(s.saves, email) == nth && Live(s.backend, s.otps[email].expiresAt, s.now)
  }

  /** The life of a code: saved, claimed by one request, gone before its token is stored. */
  ghost predicate OneClaim(procs: map<Pid, Pc>, latest: nat, readable: bool, granted: nat, email: string, nth: nat) {
    && (forall p, q :: p in procs && q in procs && Claims(procs[p], email, nth) && Claims(procs[q], email, nth) ==>
          p == q)
    && (forall p :: p in procs && Claims(procs[p], email, nth) ==>
          granted == 0 && 1 <= nth <= latest && (procs[p].VerifySave? ==> !readable))
    && (granted > 0 ==> 1 <= nth <= latest && !readable)
    && (readable ==> 1 <= nth)
    && granted <= 1
  }

  ghost predicate Inv(s: State, email: string, nth: nat) {
    && OneClaim(s.procs, Latest(s.saves, email), Readable(s, email, nth), Granted(s.log, email, nth), email, nth)
    && (email in s.otps ==> Latest(s.saves, email) >= 1)
  }

  ghost predicate InPending(procs: map<Pid, Pc>, email: string, nth: nat) {
    exists q :: q in procs && Pending(procs[q], email, nth)
  }

  /** The step lets a second verification claim the code: it reads the live code, given it back,
      while another verification has read it too and not yet tried to delete it; or it fails to
      delete the matched code while that is live. */
  ghost predicate Breaks(s: State, e: Event, email: string, nth: nat) {
    && e.Act? && e.p in s.procs && Readable(s, email, nth)
    && match s.procs[e.p]
       case VerifyGet(m, code) =>
         m == email && e.ok && code == s.otps[email].hash && InPending(s.procs, email, nth)
       case VerifyDelete(m, _, k) => m == email && k == nth && !e.ok
       case _ => false
  }

  /** What one call of a request can do to a code. */
  datatype Move = Leave | Save | Read | Match | Delete | Grant

  function Add(m: Move, t: Tally): Tally {
    match m
    case Match => t.(verified := t.verified + 1)
    case Grant => t.(granted := t.granted + 1)
    case _ => t
  }

  predicate Moves(m: Move, pc: Pc, pc': Pc, latest: nat, latest': nat, readable: bool, readable': bool,
                  email: string, nth: nat)
  {
    && latest' == (if m.Save? then latest + 1 else latest)
    && (readable' ==> if m.Save? then nth == latest' else readable)
    && match m
       case Leave => !Claims(pc', email, nth)
       case Save => !Claims(pc, email, nth) && !Claims(pc', email, nth)
       case Read => !Claims(pc, email, nth) && Pending(pc', email, nth) && pc'.VerifyIncr? && readable && nth == latest
       case Match => Claims(pc, email, nth) && pc.VerifyIncr? && Pending(pc', email, nth) && pc'.VerifyDelete?
       case Delete => Claims(pc, email, nth) && pc.VerifyDelete? && Claims(pc', email, nth) && pc'.VerifySave?
       case Grant => Claims(pc, email, nth) && pc.VerifySave? && !Claims(pc', email, nth)
  }

  lemma MoveKeeps(m: Move, procs: map<Pid, Pc>, p: Pid, pc: Pc, latest: nat, latest': nat, readable: bool,
                  readable': bool, granted: nat, email: string, nth: nat)
    requires p in procs && OneClaim(procs, latest, readable, granted, email, nth)
    requires Moves(m, procs[p], pc, latest, latest', readable, readable', email, nth)
    requires m.Read? ==> !InPending(procs, email, nth)
    requires m.Delete? ==> !readable'
    ensures OneClaim(procs[p := pc], latest', readable', if m.Grant? then granted + 1 else granted, email, nth)
  {
    assert m.Read? ==> forall q :: q in procs ==> !Claims(procs[q], email, nth) by {
      assert forall q :: q in procs && Claims(procs[q], email, nth) ==> Pending(procs[q], email, nth) || !readable;
    }
  }

  lemma OwingMove(m: Move, procs: map<Pid, Pc>, p: Pid, pc: Pc, latest: nat, latest': nat, readable: bool,
                  readable': bool, t: Tally, email: string, nth: nat)
    requires p in procs && Moves(m, procs[p], pc, latest, latest', readable, readable', email, nth)
    requires t.granted + |Owing(procs, email, nth)| <= t.verified
    ensures Add(m, t).granted + |Owing(procs[p := pc], email, nth)| <= Add(m, t).verified
  {
    var owing := Owing(procs, email, nth);
    assert Owing(procs[p := pc], email, nth) == if Owed(pc, email, nth) then owing + {p} else owing - {p};
    assert m.Grant? ==> p in owing;
    assert m.Delete? ==> owing + {p} == owing;
  }

  lemma IncrNeverRevives(s: State, m: string, email: string, nth: nat)
    ensures var s' := s.(otps := IncrAttempts(s.backend, s.otps, m, s.now).0);
            && (email in s'.otps ==> email in s.otps)
            && (Readable(s', email, nth) ==> Readable(s, email, nth))
  {
    if IncrAttempts(s.backend, s.otps, m, s.now).1.Some? { IncrNeverExtends(s.backend, s.otps, m, s.now); }
  }

  /** The notes a call leaves. */
  function Notes(s: State, pc: Pc, ok: bool): seq<Note> {
    if !ok then []
    else
      match pc
      case RequestSave(e, user, hash) => [Saved(e, user, Latest(s.saves, e) + 1, hash)]
      case VerifyIncr(e, code, record, k) =>
        var n := IncrAttempts(s.backend, s.otps, e, s.now).1;
        if n == None || n.value >= MAX_ATTEMPTS then []
        else if code != record.hash then [Compared(e)]
        else [Compared(e), Matched(e, record.user, k, record.hash)]
      case VerifySave(e, user, k, hash) => [Issued(hash, user, e, k)]
      case ResetUpdate(hash, user) => [Changed(user, hash)]
      case _ => []
  }

  function SavesAfter(s: State, pc: Pc, ok: bool): map<string, nat> {
    if pc.RequestSave? && ok then s.saves[pc.email := Latest(s.saves, pc.email) + 1] else s.saves
  }

  lemma CallAdds(s: State, pc: Pc, ok: bool, token: Hash)
    ensures var s' := Call(s, pc, ok, token).0;
            s'.saves == SavesAfter(s, pc, ok) && s'.log == s.log + Notes(s, pc, ok)
  {
    assert s.log + [] == s.log;
  }

  /** What the call of `pc` is, seen from the code. */
  function MoveOf(s: State, pc: Pc, ok: bool, email: string, nth: nat): Move {
    match pc
    case RequestSave(e, _, _) => if ok && e == email then Save else Leave
    case VerifyGet(e, code) =>
      if ok && e == email && Readable(s, email, nth) && code == s.otps[email].hash then Read else Leave
    case VerifyIncr(_, _, _, _) => if Claims(pc, email, nth) && Notes(s, pc, ok) != [] then Match else Leave
    case VerifyDelete(_, _, _) => if Claims(pc, email, nth) then Delete else Leave
    case VerifySave(_, _, _, _) => if ok && Claims(pc, email, nth) then Grant else Leave
    case _ => Leave
  }

  lemma NotesCount(log: seq<Note>, s: State, pc: Pc, ok: bool, email: string, nth: nat)
    ensures Count(log + Notes(s, pc, ok), email, nth) == Add(MoveOf(s, pc, ok, email, nth), Count(log, email, nth))
  {
    if Notes(s, pc, ok) == [] {
      assert log + [] == log;
    } else if pc.VerifyIncr? {
      CountMatch(log, pc.email, pc.record, pc.nth, email, nth);
    } else {
      CountNote(log, Notes(s, pc, ok)[0], email, nth);
    }
  }

  lemma CallMoves(s: State, pc: Pc, ok: bool, token: Hash, email: string, nth: nat)
    ensures var (s', pc') := Call(s, pc, ok, token);
            && Moves(MoveOf(s, pc, ok, email, nth), pc, pc', Latest(s.saves, email), Latest(s'.saves, email),
                     Readable(s, email, nth), Readable(s', email, nth), email, nth)
            && (email in s'.otps ==> email in s.otps || Latest(s'.saves, email) >= 1)
  {
    if pc.VerifyIncr? { IncrNeverRevives(s, pc.email, email, nth); }
  }

  ghost predicate AllOwed(s: State, email: string, nth: nat) {
    Granted(s.log, email, nth) + |Owing(s.procs, email, nth)| <= Verified(s.log, email, nth)
  }

  lemma ActKeeps(s: State, p: Pid, ok: bool, token: Hash, email: string, nth: nat)
    requires Enabled(s, Act(p, ok, token))
    ensures AllOwed(s, email, nth) ==> AllOwed(Apply(s, Act(p, ok, token)), email, nth)
    ensures Inv(s, email, nth) && !Breaks(s, Act(p, ok, token), email, nth) ==>
              Inv(Apply(s, Act(p, ok, token)), email, nth)
  {
    var pc := s.procs[p];
    var (s', pc') := Call(s, pc, ok, token);
    var m, t := MoveOf(s, pc, ok, email, nth), Count(s.log, email, nth);
    var latest, latest' := Latest(s.saves, email), Latest(s'.saves, email);
    var readable, readable' := Readable(s, email, nth), Readable(s', email, nth);
    CallAdds(s, pc, ok, token);
    NotesCount(s.log, s, pc, ok, email, nth);
    CallMoves(s, pc, ok, token, email, nth);
    if AllOwed(s, email, nth) {
      OwingMove(m, s.procs, p, pc', latest, latest', readable, readable', t, email, nth);
    }
    if Inv(s, email, nth) && !Breaks(s, Act(p, ok, token), email, nth) {
      BreaksNot(s, p, ok, token, email, nth);
      MoveKeeps(m, s.procs, p, pc', latest, latest', readable, readable', t.granted, email, nth);
    }
  }

  lemma BreaksNot(s: State, p: Pid, ok: bool, token: Hash, email: string, nth: nat)
    requires Enabled(s, Act(p, ok, token)) && !Breaks(s, Act(p, ok, token), email, nth)
    ensures var m := MoveOf(s, s.procs[p], ok, email, nth);
            && (m.Read? ==> !InPending(s.procs, email, nth))
            && (m.Delete? ==> !Readable(Call(s, s.procs[p], ok, token).0, email, nth))
  {
  }

  lemma BeginKeeps(procs: map<Pid, Pc>, p: Pid, pc: Pc, latest: nat, readable: bool, granted: nat,
                   email: string, nth: nat)
    requires p !in procs && IsEntry(pc)
    ensures Owing(procs[p := pc], email, nth) == Owing(procs, email, nth)
    ensures OneClaim(procs, latest, readable, granted, email, nth) ==>
              OneClaim(procs[p := pc], latest, readable, granted, email, nth)
  {
  }

  lemma StepKeeps(s: State, e: Event, email: string, nth: nat)
    requires Enabled(s, e)
    ensures AllOwed(s, email, nth) ==> AllOwed(Apply(s, e), email, nth)
    ensures Inv(s, email, nth) && !Breaks(s, e, email, nth) ==> Inv(Apply(s, e), email, nth)
  {
    match e {
      case Tick(_) =>
      case Begin(p, pc) =>
        BeginKeeps(s.procs, p, pc, Latest(s.saves, email), Readable(s, email, nth), Granted(s.log, email, nth),
                   email, nth);
      case Act(p, ok, token) =>
        ActKeeps(s, p, ok, token, email, nth);
    }
  }

  /** In every interleaving, every reset token follows a match of its own of the code it was
      issued for. */
  lemma {:induction false} TokensAreVerified(states: seq<State>, events: seq<Event>, i: nat, email: string, nth: nat)
    requires Run(states, events) && i < |states|
    ensures AllOwed(states[i], email, nth)
    ensures Granted(states[i].log, email, nth) <= Verified(states[i].log, email, nth)
  {
    if i == 0 {
      assert Owing(states[0].procs, email, nth) == {};
    } else {
      TokensAreVerified(states, events, i - 1, email, nth);
      StepKeeps(states[i - 1], events[i - 1], email, nth);
    }
  }

  /** In every run in which no step breaks it, the nth code saved for an email yields at most one
      reset token, whatever else interleaves and fails. */
  lemma {:induction false} OneTokenPerCode(states: seq<State>, events: seq<Event>, i: nat, email: string, nth: nat)
    requires Run(states, events) && i < |states|
    requires forall j :: 0 <= j < i ==> !Breaks(states[j], events[j], email, nth)
    ensures Inv(states[i], email, nth) && Granted(states[i].log, email, nth) <= 1
  {
    if i > 0 {
      OneTokenPerCode(states, events, i - 1, email, nth);
      StepKeeps(states[i - 1], events[i - 1], email, nth);
    }
  }

  /** The numbers are those of the saves: the codes saved for an email are numbered from one, in
      order, without gaps. */
  predicate InOrder(log: seq<Note>, email: string) {
    log == []
    || (var init, n := log[..|log| - 1], log[|log| - 1];
        InOrder(init, email) && (n.Saved? && n.email == email ==> n.nth == Saves(init, email) + 1))
  }

  ghost predicate Numbered(log: seq<Note>, latest: nat, email: string) {
    latest == Saves(log, email) && InOrder(log, email)
  }

  lemma NumberNote(log: seq<Note>, n: Note, latest: nat, email: string)
    requires Numbered(log, latest, email)
    requires n.Saved? && n.email == email ==> n.nth == latest + 1
    ensures Numbered(log + [n], if n.Saved? && n.email == email then latest + 1 else latest, email)
  {
    CountMore(log, n, email);
    assert (log + [n])[..|log|] == log;
  }

  lemma NumberTwo(log: seq<Note>, m: Note, n: Note, latest: nat, email: string)
    requires Numbered(log, latest, email) && !m.Saved? && !n.Saved?
    ensures Numbered(log + [m, n], latest, email)
  {
    NumberNote(log, m, latest, email);
    NumberNote(log + [m], n, latest, email);
    assert log + [m, n] == log + [m] + [n];
  }

  lemma NotesNumber(s: State, pc: Pc, ok: bool, email: string)
    requires Numbered(s.log, Latest(s.saves, email), email)
    ensures Numbered(s.log + Notes(s, pc, ok), Latest(SavesAfter(s, pc, ok), email), email)
  {
    var more, latest := Notes(s, pc, ok), Latest(s.saves, email);
    if more == [] {
      assert s.log + more == s.log;
    } else if |more| == 1 {
      NumberNote(s.log, more[0], latest, email);
      assert more == [more[0]];
    } else {
      NumberTwo(s.log, more[0], more[1], latest, email);
      assert more == [more[0], more[1]];
    }
  }

  lemma {:induction false} SavesAreNumbered(states: seq<State>, events: seq<Event>, i: nat, email: string)
    requires Run(states, events) && i < |states|
    ensures Numbered(states[i].log, Latest(states[i].saves, email), email)
  {
    if i > 0 {
      SavesAreNumbered(states, events, i - 1, email);
      var s, e := states[i - 1], events[i - 1];
      if e.Act? {
        CallAdds(s, s.procs[e.p], e.ok, e.hash);
        NotesNumber(s, s.procs[e.p], e.ok, email);
      }
    }
  }

  /** How many reset tokens were issued for an email, and for which of its codes. */
  function Tokens(log: seq<Note>, email: string): nat {
    if log == [] then 0
    else
      var n := log[|log| - 1];
      Tokens(log[..|log| - 1], email) + if n.Issued? && n.email == email then 1 else 0
  }

  function Sources(log: seq<Note>, email: string): set<nat> {
    set n | n in log && n.Issued? && n.email == email :: n.nth
  }

  lemma {:induction false} GrantedFrom(log: seq<Note>, email: string, nth: nat)
    ensures Granted(log, email, nth) > 0 <==> nth in Sources(log, email)
  {
    if log != [] {
      var init, n := log[..|log| - 1], log[|log| - 1];
      GrantedFrom(init, email, nth);
      assert log == init + [n];
    }
  }

  lemma {:induction false} TokensFromSources(log: seq<Note>, email: string)
    requires forall nth :: Granted(log, email, nth) <= 1
    ensures Tokens(log, email) == |Sources(log, email)|
  {
    if log != [] {
      var init, n := log[..|log| - 1], log[|log| - 1];
      assert log == init + [n];
      forall nth ensures Granted(init, email, nth) <= 1 {
        CountNote(init, n, email, nth);
        assert Granted(log, email, nth) <= 1;
      }
      TokensFromSources(init, email);
      if n.Issued? && n.email == email {
        GrantedFrom(init, email, n.nth);
        CountNote(init, n, email, n.nth);
        assert Granted(log, email, n.nth) <= 1;
        assert Sources(log, email) == Sources(init, email) + {n.nth};
      } else {
        assert Sources(log, email) == Sources(init, email);
      }
    }
  }

  lemma {:induction false} AtMost(s: set<nat>, n: nat)
    requires forall k :: k in s ==> 1 <= k <= n
    ensures |s| <= n
  {
    if n == 0 {
      assert s == {};
    } else {
      AtMost(s - {n}, n - 1);
      assert n !in s ==> s - {n} == s;
    }
  }

  /** Hence, if no code of an email is broken, its tokens never outnumber its codes. */
  lemma NoMoreTokensThanCodes(states: seq<State>, events: seq<Event>, i: nat, email: string)
    requires Run(states, events) && i < |states|
    requires forall j, nth :: 0 <= j < i ==> !Breaks(states[j], events[j], email, nth)
    ensures Tokens(states[i].log, email) <= Saves(states[i].log, email)
  {
    var log := states[i].log;
    forall nth: nat ensures Granted(log, email, nth) <= 1
      ensures nth in Sources(log, email) ==> 1 <= nth <= Saves(log, email)
    {
      OneTokenPerCode(states, events, i, email, nth);
      GrantedFrom(log, email, nth);
      SavesAreNumbered(states, events, i, email);
    }
    TokensFromSources(log, email);
    AtMost(Sources(log, email), Saves(log, email));
  }
}
