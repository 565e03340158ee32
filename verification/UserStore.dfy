/** The in-memory user store: two maps, by id and by email, over the same user objects. */
module UserStore {
  import opened Prelude

  /** models.User without its timestamps. */
  datatype User = User(id: string, email: string, passwordHash: string)

  class UserRecord {
    const id: string
    const email: string
    var passwordHash: string

    constructor (id: string, email: string, passwordHash: string)
      ensures Value() == User(id, email, passwordHash)
    {
      this.id, this.email, this.passwordHash := id, email, passwordHash;
    }

    function Value(): User
      reads this
    {
      User(id, email, passwordHash)
    }
  }

  class Users {
    var byID: map<string, UserRecord>
    var byEmail: map<string, UserRecord>
    ghost var users: map<string, User>  // the users the store stands for, by email
    ghost var Repr: set<object>

    /** Both maps reach the same object for a user, under the id and the email it carries. */
    ghost predicate Valid()
      reads this, Repr
      ensures Valid() ==> this in Repr
    {
      && this in Repr && byID.Values <= Repr && byEmail.Values <= Repr
      && (forall i :: i in byID ==>
            byID[i].id == i && byID[i].email in byEmail && byEmail[byID[i].email] == byID[i])
      && (forall e :: e in byEmail ==>
            byEmail[e].email == e && byEmail[e].id in byID && byID[byEmail[e].id] == byEmail[e])
      && users.Keys == byEmail.Keys
      && (forall e :: e in byEmail ==> users[e] == byEmail[e].Value())
    }

    constructor ()
      ensures Valid() && fresh(Repr) && users == map[]
    {
      byID, byEmail, users, Repr := map[], map[], map[], {this};
    }

    /** Returns the stored object itself, not a copy. */
    method Create(email: string, passwordHash: string, uuid: string) returns (r: Option<UserRecord>)
      requires Valid() && uuid !in byID
      modifies this
      ensures Valid() && fresh(Repr - old(Repr))
      ensures r == None <==> email in old(users)
      ensures r == None ==> users == old(users)
      ensures r.Some? ==> users == old(users)[email := User(uuid, email, passwordHash)]
      ensures r.Some? ==> r.value in Repr && r.value.Value() == users[email]
    {
      if email in byEmail { return None; }
      var u := new UserRecord(uuid, email, passwordHash);
      Link(u);
      r := Some(u);
    }

    /** Enters an object under its id and under its email. */
    method Link(u: UserRecord)
      requires Valid() && u.id !in byID && u.email !in byEmail
      modifies this
      ensures Valid() && Repr == old(Repr) + {u}
      ensures users == old(users)[u.email := u.Value()]
    {
      byID := byID[u.id := u];
      byEmail := byEmail[u.email := u];
      users := users[u.email := u.Value()];
      Repr := Repr + {u};
    }

    method GetByEmail(email: string) returns (r: Option<User>)
      requires Valid()
      ensures r == if email in users then Some(users[email]) else None
    {
      if email !in byEmail { return None; }
      r := Some(byEmail[email].Value());
    }

    /** The user with this id, as its email shows it. */
    method GetByID(id: string) returns (r: Option<User>)
      requires Valid()
      ensures r.Some? ==> r.value.id == id && r.value.email in users && r.value == users[r.value.email]
      ensures forall e :: e in users && users[e].id == id ==> r == Some(users[e])
    {
      if id !in byID { return None; }
      r := Some(byID[id].Value());
    }

    /** Changes the shared object, so that both maps show the new hash. */
    method UpdatePasswordHash(id: string, passwordHash: string) returns (found: bool)
      requires Valid()
      modifies Repr
      ensures Valid() && Repr == old(Repr)
      ensures found <==> exists e :: e in old(users) && old(users)[e].id == id
      ensures !found ==> users == old(users)
      ensures forall e :: e in old(users) && old(users)[e].id == id ==>
                users == old(users)[e := old(users)[e].(passwordHash := passwordHash)]
                && forall e' :: e' in old(users) && old(users)[e'].id == id ==> e' == e
    {
      if id !in byID { return false; }
      var u := byID[id];
      u.passwordHash := passwordHash;
      users := users[u.email := u.Value()];
      found := true;
    }
  }
}
