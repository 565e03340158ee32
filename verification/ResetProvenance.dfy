/** Where a reset password comes from, in every interleaving. */
module ResetProvenance {
  import opened Prelude
  import opened ResetStore
  import opened ResetProtocol

  predicate WasSaved(log: seq<Note>, email: string, nth: nat, record: Otp) {
    Saved(email, record.user, nth, record.hash) in log
  }

  /** The code saved for the email and user under this number was later matched by a verification. */
  ghost predicate Proven(log: seq<Note>, email: string, user: string, nth: nat) {
    exists i, j :: 0 <= i < j < |log| && log[j].Matched? && log[j] == Matched(email, user, nth, log[j].hash)
                   && log[i] == Saved(email, user, nth, log[j].hash)
  }

  /** The token was issued to the user after such a match. */
  ghost predicate Earned(log: seq<Note>, hash: Hash, user: string) {
    exists k :: 0 <= k < |log| && log[k].Issued? && log[k].hash == hash && log[k].user == user
                && Proven(log[..k], log[k].email, user, log[k].nth)
  }

  ghost predicate PcProven(log: seq<Note>, pc: Pc) {
    match pc
    case VerifyIncr(email, _, record, nth) => WasSaved(log, email, nth, record)
    case VerifyDelete(email, user, nth) => Proven(log, email, user, nth)
    case VerifySave(email, user, nth, _) => Proven(log, email, user, nth)
    case ResetDelete(hash, user) => Earned(log, hash, user)
    case ResetUpdate(hash, user) => Earned(log, hash, user)
    case _ => true
  }

  ghost predicate ChangesProven(log: seq<Note>) {
    forall k :: 0 <= k < |log| && log[k].Changed? ==> Earned(log[..k], log[k].hash, log[k].user)
  }

  ghost predicate StoresProven(log: seq<Note>, saves: map<string, nat>, otps: Otps, tokens: Tokens) {
    && (forall e :: e in otps ==> WasSaved(log, e, Latest(saves, e), otps[e]))
    && (forall h :: h in tokens ==> Earned(log, h, tokens[h].user))
  }

  ghost predicate Inv(s: State) {
    && StoresProven(s.log, s.saves, s.otps, s.tokens)
    && ChangesProven(s.log)
    && forall p :: p in s.procs ==> PcProven(s.log, s.procs[p])
  }

  lemma ProvenStays(log: seq<Note>, more: seq<Note>, email: string, user: string, nth: nat)
    requires Proven(log, email, user, nth)
    ensures Proven(log + more, email, user, nth)
  {
    var i, j :| 0 <= i < j < |log| && log[j].Matched? && log[j] == Matched(email, user, nth, log[j].hash)
                && log[i] == Saved(email, user, nth, log[j].hash);
    var log' := log + more;
    assert log'[i] == log[i] && log'[j] == log[j];
  }

  lemma EarnedStays(log: seq<Note>, more: seq<Note>, hash: Hash, user: string)
    requires Earned(log, hash, user)
    ensures Earned(log + more, hash, user)
  {
    var k :| 0 <= k < |log| && log[k].Issued? && log[k].hash == hash && log[k].user == user
             && Proven(log[..k], log[k].email, user, log[k].nth);
    var log' := log + more;
    assert log'[k] == log[k] && log'[..k] == log[..k];
  }

  lemma IssueEarns(log: seq<Note>, email: string, user: string, nth: nat, hash: Hash)
    requires Proven(log, email, user, nth)
    ensures Earned(log + [Issued(hash, user, email, nth)], hash, user)
  {
    var log' := log + [Issued(hash, user, email, nth)];
    assert log'[|log|] == Issued(hash, user, email, nth) && log'[..|log|] == log;
  }

  lemma PcStays(log: seq<Note>, more: seq<Note>, pc: Pc)
    requires PcProven(log, pc)
    ensures PcProven(log + more, pc)
  {
    match pc
    case VerifyDelete(email, user, nth) => ProvenStays(log, more, email, user, nth);
    case VerifySave(email, user, nth, _) => ProvenStays(log, more, email, user, nth);
    case ResetDelete(hash, user) => EarnedStays(log, more, hash, user);
    case ResetUpdate(hash, user) => EarnedStays(log, more, hash, user);
    case _ =>
  }

  lemma StoresStay(log: seq<Note>, more: seq<Note>, saves: map<string, nat>, otps: Otps, tokens: Tokens)
    requires StoresProven(log, saves, otps, tokens)
    ensures StoresProven(log + more, saves, otps, tokens)
  {
    forall h | h in tokens ensures Earned(log + more, h, tokens[h].user) {
      EarnedStays(log, more, h, tokens[h].user);
    }
  }

  /** Notes other than a change keep the changes accounted for. */
  lemma ChangesStay(log: seq<Note>, more: seq<Note>)
    requires ChangesProven(log) && forall n :: n in more ==> n.Changed? ==> Earned(log, n.hash, n.user) && |more| == 1
    ensures ChangesProven(log + more)
  {
    var log' := log + more;
    forall k | 0 <= k < |log'| && log'[k].Changed? ensures Earned(log'[..k], log'[k].hash, log'[k].user) {
      if k < |log| {
        assert log'[..k] == log[..k];
      } else {
        assert log'[k] in more && log'[..k] == log;
      }
    }
  }

  lemma MatchProves(log: seq<Note>, email: string, nth: nat, record: Otp)
    requires WasSaved(log, email, nth, record)
    ensures Proven(log + [Compared(email), Matched(email, record.user, nth, record.hash)], email, record.user, nth)
  {
    var log' := log + [Compared(email), Matched(email, record.user, nth, record.hash)];
    var i :| 0 <= i < |log| && log[i] == Saved(email, record.user, nth, record.hash);
    assert log'[i] == log[i] && log'[|log| + 1] == Matched(email, record.user, nth, record.hash);
  }

  /** A call appends `more` to the log and leaves everything accounted for. */
  ghost predicate CallProven(s: State, pc: Pc, r: (State, Pc), more: seq<Note>) {
    && r.0.log == s.log + more && r.0.procs == s.procs
    && StoresProven(r.0.log, r.0.saves, r.0.otps, r.0.tokens) && ChangesProven(r.0.log) && PcProven(r.0.log, r.1)
  }

  lemma IncrKeepsStores(s: State, email: string)
    requires StoresProven(s.log, s.saves, s.otps, s.tokens)
    ensures StoresProven(s.log, s.saves, IncrAttempts(s.backend, s.otps, email, s.now).0, s.tokens)
  {
    if IncrAttempts(s.backend, s.otps, email, s.now).1.Some? { IncrNeverExtends(s.backend, s.otps, email, s.now); }
  }

  /** What counting an attempt changes, and the notes it leaves. */
  lemma IncrShape(s: State, pc: Pc, ok: bool, h: Hash) returns (more: seq<Note>)
    requires pc.VerifyIncr?
    ensures var (s', pc') := CodeCall(s, pc, ok, h);
            && s' == s.(otps := s'.otps, log := s.log + more)
            && (s'.otps == s.otps || s'.otps == IncrAttempts(s.backend, s.otps, pc.email, s.now).0)
            && (forall n :: n in more ==> !n.Changed?)
            && (pc'.Done? || pc'.VerifyBlock?
                || (pc' == VerifyDelete(pc.email, pc.record.user, pc.nth)
                    && more == [Compared(pc.email), Matched(pc.email, pc.record.user, pc.nth, pc.record.hash)]))
  {
    var n := IncrAttempts(s.backend, s.otps, pc.email, s.now).1;
    more := if !ok || n == None || n.value >= MAX_ATTEMPTS then []
            else if pc.code != pc.record.hash then [Compared(pc.email)]
            else [Compared(pc.email), Matched(pc.email, pc.record.user, pc.nth, pc.record.hash)];
    assert s.log + [] == s.log;
  }

  lemma IncrProven(s: State, pc: Pc, ok: bool, h: Hash) returns (more: seq<Note>)
    requires StoresProven(s.log, s.saves, s.otps, s.tokens) && ChangesProven(s.log)
    requires pc.VerifyIncr? && WasSaved(s.log, pc.email, pc.nth, pc.record)
    ensures CallProven(s, pc, CodeCall(s, pc, ok, h), more)
  {
    more := IncrShape(s, pc, ok, h);
    var s' := CodeCall(s, pc, ok, h).0;
    IncrKeepsStores(s, pc.email);
    StoresStay(s.log, more, s.saves, s'.otps, s.tokens);
    ChangesStay(s.log, more);
    MatchProves(s.log, pc.email, pc.nth, pc.record);
  }

  lemma CodeCallProven(s: State, pc: Pc, ok: bool, h: Hash) returns (more: seq<Note>)
    requires StoresProven(s.log, s.saves, s.otps, s.tokens) && ChangesProven(s.log) && PcProven(s.log, pc)
    requires !pc.ResetGet? && !pc.ResetDelete? && !pc.ResetUpdate? && !pc.Done? && !pc.VerifyIncr? && !pc.VerifySave?
    ensures CallProven(s, pc, CodeCall(s, pc, ok, h), more)
  {
    more := if ok && pc.RequestSave? then [Saved(pc.email, pc.user, Latest(s.saves, pc.email) + 1, pc.hash)] else [];
    StoresStay(s.log, more, s.saves, s.otps, s.tokens);
    ChangesStay(s.log, more);
    PcStays(s.log, more, pc);
    assert more == [] ==> s.log + more == s.log;
  }

  lemma IssueProven(s: State, email: string, user: string, nth: nat, hash: Hash, ok: bool, h: Hash)
    returns (more: seq<Note>)
    requires StoresProven(s.log, s.saves, s.otps, s.tokens) && ChangesProven(s.log) && Proven(s.log, email, user, nth)
    ensures var pc := VerifySave(email, user, nth, hash);
            CallProven(s, pc, CodeCall(s, pc, ok, h), more)
  {
    more := if ok then [Issued(hash, user, email, nth)] else [];
    StoresStay(s.log, more, s.saves, s.otps, s.tokens);
    ChangesStay(s.log, more);
    IssueEarns(s.log, email, user, nth, hash);
    assert more == [] ==> s.log + more == s.log;
  }

  lemma ResetCallProven(s: State, pc: Pc, ok: bool) returns (more: seq<Note>)
    requires StoresProven(s.log, s.saves, s.otps, s.tokens) && ChangesProven(s.log) && PcProven(s.log, pc)
    requires pc.ResetGet? || pc.ResetDelete? || pc.ResetUpdate? || pc.Done?
    ensures CallProven(s, pc, ResetCall(s, pc, ok), more)
  {
    more := if pc.ResetUpdate? && ok then [Changed(pc.user, pc.hash)] else [];
    StoresStay(s.log, more, s.saves, s.otps, s.tokens);
    ChangesStay(s.log, more);
    assert more == [] ==> s.log + more == s.log;
  }

  lemma AnyCallProven(s: State, pc: Pc, ok: bool, h: Hash) returns (more: seq<Note>)
    requires StoresProven(s.log, s.saves, s.otps, s.tokens) && ChangesProven(s.log) && PcProven(s.log, pc)
    ensures CallProven(s, pc, Call(s, pc, ok, h), more)
  {
    if pc.ResetGet? || pc.ResetDelete? || pc.ResetUpdate? || pc.Done? {
      more := ResetCallProven(s, pc, ok);
    } else if pc.VerifyIncr? {
      more := IncrProven(s, pc, ok, h);
    } else if pc.VerifySave? {
      more := IssueProven(s, pc.email, pc.user, pc.nth, pc.hash, ok, h);
    } else {
      more := CodeCallProven(s, pc, ok, h);
    }
  }

  lemma StepProven(s: State, e: Event)
    requires Inv(s) && Enabled(s, e)
    ensures Inv(Apply(s, e))
  {
    if e.Act? {
      var more := AnyCallProven(s, s.procs[e.p], e.ok, e.hash);
      forall q | q in s.procs ensures PcProven(s.log + more, s.procs[q]) {
        PcStays(s.log, more, s.procs[q]);
      }
    }
  }

  lemma {:induction false} Reachable(states: seq<State>, events: seq<Event>, i: nat)
    requires Run(states, events) && i < |states|
    ensures Inv(states[i])
  {
    if i > 0 {
      Reachable(states, events, i - 1);
      StepProven(states[i - 1], events[i - 1]);
    }
  }

  lemma ProofOf(log: seq<Note>, c: nat, email: string, user: string, nth: nat) returns (a: nat, b: nat)
    requires c <= |log| && Proven(log[..c], email, user, nth)
    ensures a < b < c && log[b].Matched? && log[b] == Matched(email, user, nth, log[b].hash)
    ensures log[a] == Saved(email, user, nth, log[b].hash)
  {
    var early := log[..c];
    a, b :| 0 <= a < b < |early| && early[b].Matched? && early[b] == Matched(email, user, nth, early[b].hash)
            && early[a] == Saved(email, user, nth, early[b].hash);
  }

  lemma IssueOf(log: seq<Note>, k: nat, hash: Hash, user: string) returns (c: nat)
    requires k <= |log| && Earned(log[..k], hash, user)
    ensures c < k && log[c].Issued? && log[c] == Issued(hash, user, log[c].email, log[c].nth)
    ensures Proven(log[..c], log[c].email, user, log[c].nth)
  {
    var early := log[..k];
    c :| 0 <= c < |early| && early[c].Issued? && early[c].hash == hash && early[c].user == user
         && Proven(early[..c], early[c].email, user, early[c].nth);
    assert early[..c] == log[..c];
  }

  /** In every interleaving, a password change through a reset comes after the issue of the token
      it was made with, to the same user; the token was issued after a verification that matched a
      code for that user and email; and that very code had been saved before. */
  lemma ChangeIsProven(states: seq<State>, events: seq<Event>, i: nat, k: nat) returns (a: nat, b: nat, c: nat)
    requires Run(states, events) && i < |states| && k < |states[i].log| && states[i].log[k].Changed?
    ensures a < b < c < k && states[i].log[b].Matched?
    ensures var log := states[i].log;
            var user, email, nth, code := log[k].user, log[b].email, log[b].nth, log[b].hash;
            log[a] == Saved(email, user, nth, code) && log[b] == Matched(email, user, nth, code)
            && log[c] == Issued(log[k].hash, user, email, nth)
  {
    Reachable(states, events, i);
    var log := states[i].log;
    c := IssueOf(log, k, log[k].hash, log[k].user);
    a, b := ProofOf(log, c, log[c].email, log[k].user, log[c].nth);
  }
}
