/**
 The password-reset protocol as a transition system: every store call is one atomic step,
 any number of requests interleave, and calls may fail.
 */
module ResetProtocol {
  import opened Prelude
  import opened ResetStore

  type Pid = nat

  const MAX_ATTEMPTS: int := 5

  datatype Reply = CodeSent | TokenIssued(hash: Hash) | PasswordReset(hash: Hash) | Failed(code: Code)

  /** Program counters: the store call a request makes next, with its local variables. `nth`
      tells which of the codes saved for the email the request has read. */
  datatype Pc =
    | RequestSave(email: string, user: string, hash: Hash)
    | VerifyGet(email: string, code: Hash)
    | VerifyIncr(email: string, code: Hash, record: Otp, nth: nat)
    | VerifyBlock(email: string)
    | VerifyDelete(email: string, user: string, nth: nat)
    | VerifySave(email: string, user: string, nth: nat, hash: Hash)
    | ResetGet(hash: Hash)
    | ResetDelete(hash: Hash, user: string)
    | ResetUpdate(hash: Hash, user: string)
    | Done(reply: Reply)

  /** What has happened so far, in order. The codes saved for an email are numbered. */
  datatype Note =
    | Saved(email: string, user: string, nth: nat, hash: Hash)
    | Compared(email: string)
    | Matched(email: string, user: string, nth: nat, hash: Hash)
    | Issued(hash: Hash, user: string, email: string, nth: nat)
    | Changed(user: string, hash: Hash)

  datatype State = State(
    now: Time,
    backend: Backend,
    otps: Otps,
    tokens: Tokens,
    procs: map<Pid, Pc>,
    drawn: set<Hash>,
    savedAt: map<string, Time>,
    saves: map<string, nat>,
    log: seq<Note>)

  datatype Event = Tick(now: Time) | Begin(p: Pid, pc: Pc) | Act(p: Pid, ok: bool, hash: Hash)

  predicate Init(s: State) {
    && s.otps == map[] && s.tokens == map[] && s.procs == map[]
    && s.drawn == {} && s.savedAt == map[] && s.saves == map[] && s.log == []
  }

  /** The number of the latest code saved for an email; only that one can be stored. */
  function Latest(saves: map<string, nat>, email: string): nat {
    if email in saves then saves[email] else 0
  }

  predicate IsEntry(pc: Pc) {
    pc.RequestSave? || pc.VerifyGet? || pc.ResetGet?
  }

  /** `hash` is the token that VerifyResetCode draws after its delete; tokens never repeat. */
  predicate Enabled(s: State, e: Event) {
    match e
    case Tick(now) => s.now <= now
    case Begin(p, pc) => p !in s.procs && IsEntry(pc)
    case Act(p, _, hash) =>
      p in s.procs && !s.procs[p].Done? && (s.procs[p].VerifyDelete? ==> hash !in s.drawn)
  }

  /** RequestPasswordReset from its store write on, and VerifyResetCode. The comparison of the
      code follows its increment without another store call. */
  function CodeCall(s: State, pc: Pc, ok: bool, token: Hash): (State, Pc)
    requires !pc.ResetGet? && !pc.ResetDelete? && !pc.ResetUpdate? && !pc.Done?
  {
    match pc
    case RequestSave(email, user, hash) =>
      if !ok then (s, Done(Failed(Internal)))
      else
        var n := Latest(s.saves, email) + 1;
        (s.(otps := SavedOtp(s.otps, email, user, hash, s.now), savedAt := s.savedAt[email := s.now],
            saves := s.saves[email := n], log := s.log + [Saved(email, user, n, hash)]),
         Done(CodeSent))
    case VerifyGet(email, code) =>
      if !ok then (s, Done(Failed(Internal)))
      else
        var (otps, record) := ReadOtp(s.backend, s.otps, email, s.now);
        (s.(otps := otps),
         if record == None then Done(Failed(Unauthenticated))
         else VerifyIncr(email, code, record.value, Latest(s.saves, email)))
    case VerifyIncr(email, code, record, nth) =>
      if !ok then (s, Done(Failed(Internal)))
      else
        var (otps, attempts) := IncrAttempts(s.backend, s.otps, email, s.now);
        var s' := s.(otps := otps);
        if attempts == None then (s', Done(Failed(Unauthenticated)))
        else if attempts.value >= MAX_ATTEMPTS then (s', VerifyBlock(email))
        else if code != record.hash then
          (s'.(log := s.log + [Compared(email)]), Done(Failed(Unauthenticated)))
        else
          (s'.(log := s.log + [Compared(email), Matched(email, record.user, nth, record.hash)]),
           VerifyDelete(email, record.user, nth))
    case VerifyBlock(email) =>
      (if ok then s.(otps := s.otps - {email}) else s, Done(Failed(Unauthenticated)))
    case VerifyDelete(email, user, nth) =>
      (s.(otps := if ok then s.otps - {email} else s.otps, drawn := s.drawn + {token}),
       VerifySave(email, user, nth, token))
    case VerifySave(email, user, nth, hash) =>
      if !ok then (s, Done(Failed(Internal)))
      else (s.(tokens := SavedToken(s.tokens, hash, user, email, s.now),
               log := s.log + [Issued(hash, user, email, nth)]),
            Done(TokenIssued(hash)))
  }

  /** ResetPassword, up to the write of the new password. */
  function ResetCall(s: State, pc: Pc, ok: bool): (State, Pc)
    requires pc.ResetGet? || pc.ResetDelete? || pc.ResetUpdate? || pc.Done?
  {
    match pc
    case ResetGet(hash) =>
      if !ok then (s, Done(Failed(Internal)))
      else
        var (tokens, record) := ReadToken(s.backend, s.tokens, hash, s.now);
        (s.(tokens := tokens),
         if record == None then Done(Failed(Unauthenticated)) else ResetDelete(hash, record.value.user))
    case ResetDelete(hash, user) =>
      if !ok then (s, Done(Failed(Internal)))
      else (s.(tokens := s.tokens - {hash}), ResetUpdate(hash, user))
    case ResetUpdate(hash, user) =>
      if !ok then (s, Done(Failed(Internal)))
      else (s.(log := s.log + [Changed(user, hash)]), Done(PasswordReset(hash)))
    case Done(_) => (s, pc)
  }

  function Call(s: State, pc: Pc, ok: bool, token: Hash): (State, Pc) {
    if pc.ResetGet? || pc.ResetDelete? || pc.ResetUpdate? || pc.Done? then ResetCall(s, pc, ok)
    else CodeCall(s, pc, ok, token)
  }

  function Apply(s: State, e: Event): State
    requires e.Act? ==> e.p in s.procs
  {
    match e
    case Tick(now) => s.(now := now)
    case Begin(p, pc) => s.(procs := s.procs[p := pc])
    case Act(p, ok, hash) =>
      var (s', pc') := Call(s, s.procs[p], ok, hash);
      s'.(procs := s.procs[p := pc'])
  }

  ghost predicate Run(states: seq<State>, events: seq<Event>) {
    && |states| == |events| + 1
    && Init(states[0])
    && forall i :: 0 <= i < |events| ==>
         Enabled(states[i], events[i]) && states[i + 1] == Apply(states[i], events[i])
  }
}
