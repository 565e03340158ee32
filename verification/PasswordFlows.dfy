/** ChangePassword and ResetPassword as a whole: token, password and sessions together. */
module PasswordFlows {
  import opened Prelude
  import opened Base64
  import opened Sessions
  import opened Accounts
  import SS = SessionService
  import RP = ResetProtocol
  import RS = ResetService

  /** No session of the user is left but the one to keep. */
  ghost predicate SignedOut(rows: Table, user: string, keep: Hash) {
    forall h :: h in rows && rows[h].user == user ==> keep != "" && h == keep
  }

  lemma RevocationSignsOut(w: SS.World, user: string, keep: Hash, env: SS.Env)
    ensures env.storeWritten ==> SignedOut(SS.RevokeAllSpec(w, user, keep, env).rows, user, keep)
  {
  }

  class PasswordService {
    const accounts: AccountService
    const auth: SS.AuthService
    const resets: RS.ResetService

    constructor (accounts: AccountService, auth: SS.AuthService, resets: RS.ResetService)
      ensures this.accounts == accounts && this.auth == auth && this.resets == resets
    {
      this.accounts, this.auth, this.resets := accounts, auth, resets;
    }

    /** The parts share no objects. */
    ghost predicate Valid()
      reads this, accounts, accounts.store, accounts.store.Repr
      reads auth, auth.sessions, auth.sessions.Repr, resets
    {
      && accounts.Valid() && auth.Valid()
      && accounts.store.Repr !! auth.sessions.Repr && accounts !in auth.sessions.Repr
      && auth.cache !in accounts.store.Repr
      && resets.store !in accounts.store.Repr && resets.store !in auth.sessions.Repr
    }

    /** Ends the user's sessions except the one to keep, if the store answers. */
    method SignOut(id: string, keep: Hash, env: SS.Env)
      requires Valid()
      modifies auth.sessions, auth.cache
      ensures Valid()
      ensures env.storeWritten ==> SignedOut(auth.sessions.rows, id, keep)
    {
      RevocationSignsOut(auth.State(), id, keep, env);
      auth.RevokeOthers(id, keep, env);
    }

    /** Sets the password of the user with this id, whoever that is. */
    method Overwrite(id: string, password: seq<Byte>, salt: seq<Byte>) returns (code: Code)
      requires Valid()
      modifies accounts, accounts.store.Repr
      ensures Valid() && auth.sessions.rows == old(auth.sessions.rows)
      ensures code != OK ==> code == Internal && accounts.last == old(accounts.last)
      ensures (forall e :: e in old(accounts.last) ==> old(accounts.store.users)[e].id != id) ==> code == Internal
      ensures forall e :: e in old(accounts.last) && old(accounts.store.users)[e].id == id ==>
                code == OK && accounts.last == old(accounts.last)[e := Secret(password, salt)]
    {
      code := accounts.ResetPassword(id, password, salt);
    }

    method Exchange(id: string, current: seq<Byte>, password: seq<Byte>, salt: seq<Byte>, strong: bool)
      returns (code: Code)
      requires Valid()
      modifies accounts, accounts.store.Repr
      ensures Valid() && auth.sessions.rows == old(auth.sessions.rows)
      ensures code != OK ==> accounts.last == old(accounts.last)
      ensures (forall e :: e in old(accounts.last) ==> old(accounts.store.users)[e].id != id) ==> code != OK
      ensures forall e :: e in old(accounts.last) && old(accounts.store.users)[e].id == id ==>
                && (code == OK <==> strong && SameKey(accounts.kdf, current, old(accounts.last)[e]))
                && (code == OK ==> accounts.last == old(accounts.last)[e := Secret(password, salt)])
    {
      code := accounts.ChangePassword(id, current, password, salt, strong);
    }

    /** A successful reset has used up its token, set the password of the token's user, and ended
        all sessions of theirs if the store answered; whoever comes without a live token changes
        nothing. */
    method ResetPassword(ghost s: RP.State, token: Hash, password: seq<Byte>, salt: seq<Byte>, strong: bool, now: Time,
                         read: bool, deleted: bool, env: SS.Env) returns (code: Code)
      requires Valid() && resets.Holds(s)
      modifies accounts, accounts.store.Repr, auth.sessions, auth.cache, resets.store
      ensures Valid()
      ensures code == OK ==> strong && read && deleted && token in s.tokens && now <= s.tokens[token].expiresAt
      ensures code == OK ==>
                && token !in resets.store.resetTokens
                && (env.storeWritten ==> SignedOut(auth.sessions.rows, s.tokens[token].user, ""))
      ensures code != OK ==> accounts.last == old(accounts.last) && auth.sessions.rows == old(auth.sessions.rows)
      ensures strong && read && deleted && token in s.tokens && now <= s.tokens[token].expiresAt ==>
                forall e :: e in old(accounts.last) && old(accounts.store.users)[e].id == s.tokens[token].user ==>
                  code == OK && accounts.last == old(accounts.last)[e := Secret(password, salt)]
    {
      if !strong { return InvalidArgument; }
      var user, err := resets.RedeemToken(s, token, now, read, deleted);
      if user == None { return err; }
      code := Overwrite(user.value, password, salt);
      if code != OK { return; }
      SignOut(user.value, "", env);
    }

    /** A successful change has set the password and ended all other sessions of the user if the
        store answered; with a wrong current password nothing happens. */
    method ChangePassword(id: string, current: seq<Byte>, password: seq<Byte>, salt: seq<Byte>, strong: bool,
                          keep: Hash, env: SS.Env) returns (code: Code)
      requires Valid()
      modifies accounts, accounts.store.Repr, auth.sessions, auth.cache
      ensures Valid()
      ensures forall e :: e in old(accounts.last) && old(accounts.store.users)[e].id == id ==>
                && (code == OK <==> strong && SameKey(accounts.kdf, current, old(accounts.last)[e]))
                && (code == OK ==> accounts.last == old(accounts.last)[e := Secret(password, salt)])
      ensures code == OK && env.storeWritten ==> SignedOut(auth.sessions.rows, id, keep)
      ensures code != OK ==> accounts.last == old(accounts.last) && auth.sessions.rows == old(auth.sessions.rows)
    {
      code := Exchange(id, current, password, salt, strong);
      if code != OK { return; }
      SignOut(id, keep, env);
    }
  }
}
