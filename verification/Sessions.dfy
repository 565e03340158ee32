/**
 The table of refresh-token sessions and the effect of each store call on it.
 Rows are keyed by token hash, which the schema declares UNIQUE.
 */
module Sessions {
  import opened Prelude

  /** A session as stored in a row, and as copied into the cache. */
  datatype Session = Session(id: string, user: string, device: string, expiry: Time)

  type Table = map<Hash, Session>

  /** Session ids are the primary key: no two rows share one. */
  ghost predicate UniqueIds(t: Table) {
    forall h, k :: h in t && k in t && t[h].id == t[k].id ==> h == k
  }

  /** The token hashes of one user's rows. */
  function OfUser(t: Table, user: string): set<Hash> {
    set h | h in t && t[h].user == user
  }

  /** The rows that `DELETE … WHERE user_id = user AND token_hash != keep` removes;
      an empty `keep` spares nothing. */
  function Revoked(t: Table, user: string, keep: Hash): set<Hash> {
    if keep == "" then OfUser(t, user) else OfUser(t, user) - {keep}
  }

  /** The rows that match both a session id and its owner. */
  function Matching(t: Table, id: string, user: string): set<Hash> {
    set h | h in t && t[h].id == id && t[h].user == user
  }

  /** Replaces the row of `spent` by one for `hash`. */
  function Rotated(t: Table, spent: Hash, hash: Hash, sess: Session): Table {
    (t - {spent})[hash := sess]
  }

  /** The number of sessions a user holds. */
  function Held(t: Table, user: string): nat {
    |OfUser(t, user)|
  }

  /** Rotation to a fresh hash within one owner leaves every user's session count unchanged. */
  lemma RotationConserves(t: Table, spent: Hash, hash: Hash, sess: Session, user: string)
    requires spent in t && hash !in t && sess.user == t[spent].user
    ensures Held(Rotated(t, spent, hash, sess), user) == Held(t, user)
  {
    var t' := Rotated(t, spent, hash, sess);
    if user == sess.user {
      assert OfUser(t', user) == OfUser(t, user) - {spent} + {hash};
    } else {
      assert OfUser(t', user) == OfUser(t, user);
    }
  }

  lemma Shrinks(t: Table, gone: set<Hash>)
    requires gone <= t.Keys
    ensures |t - gone| == |t| - |gone|
  {
    assert (t - gone).Keys == t.Keys - gone;
    assert |t.Keys - gone| == |t.Keys| - |gone|;
  }

  /** A bulk revocation removes the listed rows and nothing else: the table shrinks by
      exactly their number, other users keep every session with its contents, and a kept
      row survives if and only if it was there. */
  lemma RevocationIsExact(t: Table, user: string, keep: Hash, other: string)
    requires "" !in t
    ensures |t - Revoked(t, user, keep)| == |t| - |Revoked(t, user, keep)|
    ensures OfUser(t - Revoked(t, user, keep), user)
         == if keep in t && t[keep].user == user then {keep} else {}
    ensures other != user ==>
              OfUser(t - Revoked(t, user, keep), other) == OfUser(t, other)
    ensures forall h :: h in t && h !in Revoked(t, user, keep) ==>
              h in t - Revoked(t, user, keep) && (t - Revoked(t, user, keep))[h] == t[h]
  {
    Shrinks(t, Revoked(t, user, keep));
  }

  /** At most one row carries a given id. */
  lemma MatchingIsUnique(t: Table, id: string, user: string, h: Hash)
    requires UniqueIds(t) && h in Matching(t, id, user)
    ensures Matching(t, id, user) == {h}
  {
  }
}
