/**
 Registration, password check, password change and password reset over the user store, one
 request at a time.
 */
module Accounts {
  import opened Prelude
  import opened Base64
  import opened PasswordHash
  import opened UserStore

  /** A password together with the salt it was hashed under. */
  datatype Secret = Secret(password: seq<Byte>, salt: seq<Byte>)

  /** Two passwords derive the same key under a salt; without collisions, they are equal. */
  predicate SameKey(kdf: Kdf, password: seq<Byte>, s: Secret) {
    kdf(password, s.salt, DefaultParams, KEY_LEN) == kdf(s.password, s.salt, DefaultParams, KEY_LEN)
  }

  /** A stored hash accepts exactly the passwords that match a secret. */
  ghost predicate Accepts(kdf: Kdf, hash: string, s: Secret) {
    forall password :: Verify(kdf, password, hash) == Some(SameKey(kdf, password, s))
  }

  /** Every user's stored hash accepts the secret set most recently for its email. */
  ghost predicate Current(kdf: Kdf, users: map<string, User>, last: map<string, Secret>) {
    && last.Keys == users.Keys
    && forall e :: e in last ==> users[e].email == e && Accepts(kdf, users[e].passwordHash, last[e])
  }

  lemma StaysCurrent(kdf: Kdf, users: map<string, User>, last: map<string, Secret>, user: User, s: Secret)
    requires Current(kdf, users, last) && Accepts(kdf, user.passwordHash, s)
    ensures Current(kdf, users[user.email := user], last[user.email := s])
  {
  }

  method HashSecret(kdf: Kdf, password: seq<Byte>, salt: seq<Byte>) returns (hash: string)
    requires KeyLength(kdf)
    ensures Accepts(kdf, hash, Secret(password, salt))
  {
    hash := HashPassword(kdf, password, salt);
    forall p ensures Verify(kdf, p, hash) == Some(SameKey(kdf, p, Secret(password, salt))) {
      VerifyHashed(kdf, p, password, salt);
    }
  }

  class AccountService {
    const store: Users
    const kdf: Kdf
    ghost var last: map<string, Secret>  // for each email, what was set most recently

    ghost predicate Valid()
      reads this, store, store.Repr
    {
      store.Valid() && this !in store.Repr && KeyLength(kdf) && Current(kdf, store.users, last)
    }

    constructor (kdf: Kdf)
      requires KeyLength(kdf)
      ensures Valid() && this.kdf == kdf && last == map[] && fresh(store.Repr)
    {
      store := new Users();
      this.kdf := kdf;
      last := map[];
    }

    /** `hashed` and `stored` say whether the password could be hashed and the store answered. */
    method Register(email: string, password: seq<Byte>, salt: seq<Byte>, uuid: string,
                    valid: bool, hashed: bool, stored: bool) returns (code: Code)
      requires Valid() && uuid !in store.byID
      modifies this, store
      ensures Valid() && fresh(store.Repr - old(store.Repr))
      ensures code == if !valid then InvalidArgument
                      else if !hashed || !stored then Internal
                      else if email in old(last) then AlreadyExists else OK
      ensures last == if code == OK then old(last)[email := Secret(password, salt)] else old(last)
    {
      if !valid { return InvalidArgument; }
      if !hashed { return Internal; }
      var hash := HashSecret(kdf, password, salt);
      if !stored { return Internal; }
      var user := store.Create(email, hash, uuid);
      if user == None { return AlreadyExists; }
      StaysCurrent(kdf, old(store.users), last, User(uuid, email, hash), Secret(password, salt));
      last := last[email := Secret(password, salt)];
      code := OK;
    }

    /** Login's password check passes exactly for the password set most recently, by
        registration, change or reset; an unknown email has none to check. */
    method CheckPassword(email: string, password: seq<Byte>) returns (ok: Option<bool>)
      requires Valid()
      ensures ok == if email in last then Some(SameKey(kdf, password, last[email])) else None
    {
      var user := store.GetByEmail(email);
      if user == None { return None; }
      ok := Verify(kdf, password, user.value.passwordHash);
    }

    /** Needs the current password; other accounts are untouched. */
    method ChangePassword(id: string, current: seq<Byte>, password: seq<Byte>, salt: seq<Byte>, strong: bool)
      returns (code: Code)
      requires Valid()
      modifies this, store.Repr
      ensures Valid() && store.Repr == old(store.Repr)
      ensures code != OK ==> last == old(last)
      ensures forall e :: e in old(last) && old(store.users[e]).id == id ==>
                && code == (if !strong then InvalidArgument
                            else if SameKey(kdf, current, old(last)[e]) then OK else Unauthenticated)
                && (code == OK ==> last == old(last)[e := Secret(password, salt)])
      ensures (forall e :: e in old(last) ==> old(store.users)[e].id != id) ==>
                code == if strong then Internal else InvalidArgument
    {
      if !strong { return InvalidArgument; }
      var user, err := CheckCurrent(id, current);
      if err != OK { return err; }
      var found := SetPassword(id, password, salt);
      code := if found then OK else Internal;
    }

    /** Looks up the user by id and checks the current password against the hash found. */
    method CheckCurrent(id: string, current: seq<Byte>) returns (user: Option<User>, code: Code)
      requires Valid()
      ensures forall e :: e in last && store.users[e].id == id ==>
                && user == Some(store.users[e])
                && code == if SameKey(kdf, current, last[e]) then OK else Unauthenticated
      ensures (forall e :: e in last ==> store.users[e].id != id) ==> code == Internal
      ensures code == OK ==> user.Some? && user.value.id == id && user.value.email in last
                             && user.value == store.users[user.value.email]
    {
      user := store.GetByID(id);
      if user == None { return None, Internal; }
      var match' := Verify(kdf, current, user.value.passwordHash);
      if match' == None { return user, Internal; }
      return user, if match'.value then OK else Unauthenticated;
    }

    /** ResetPassword once its token has been redeemed for a user. */
    method ResetPassword(id: string, password: seq<Byte>, salt: seq<Byte>) returns (code: Code)
      requires Valid()
      modifies this, store.Repr
      ensures Valid() && store.Repr == old(store.Repr)
      ensures code != OK ==> last == old(last)
      ensures forall e :: e in old(last) && old(store.users[e]).id == id ==>
                code == OK && last == old(last)[e := Secret(password, salt)]
      ensures (forall e :: e in old(last) ==> old(store.users)[e].id != id) ==> code == Internal
    {
      var found := SetPassword(id, password, salt);
      code := if found then OK else Internal;
    }

    /** Writes a new hash for the user with this id, if there is one. */
    method SetPassword(id: string, password: seq<Byte>, salt: seq<Byte>) returns (found: bool)
      requires Valid()
      modifies this, store.Repr
      ensures Valid() && store.Repr == old(store.Repr)
      ensures !found ==> last == old(last)
      ensures forall e :: e in old(last) && old(store.users)[e].id == id ==>
                found && last == old(last)[e := Secret(password, salt)]
      ensures found ==> exists e :: e in old(last) && old(store.users)[e].id == id
    {
      var hash := HashSecret(kdf, password, salt);
      ghost var users := store.users;
      found := store.UpdatePasswordHash(id, hash);
      if found {
        ghost var e :| e in users && users[e].id == id;
        StaysCurrent(kdf, users, last, users[e].(passwordHash := hash), Secret(password, salt));
        last := last[e := Secret(password, salt)];
      }
    }
  }
}
