/**
 The in-memory session store: two maps, by id and by token hash, over the same session
 objects. Sessions are copied on the way in and on the way out, so no caller ever holds an
 object the store reads. Each operation is proved to do to the rows what the SQL statement
 of the PostgreSQL store does.
 */
module MemorySessionStore {
  import opened Prelude
  import opened Sessions

  /** models.Session, with the fields the store reads and writes. */
  class SessionRecord {
    var id: string
    var user: string
    var hash: Hash
    var device: string
    var expiry: Time
    var lastUsedAt: Time
    var createdAt: Time

    constructor (id: string, user: string, hash: Hash, device: string, expiry: Time)
      ensures this.id == id && this.user == user && this.hash == hash
      ensures this.device == device && this.expiry == expiry
    {
      this.id, this.user, this.hash, this.device, this.expiry := id, user, hash, device, expiry;
      lastUsedAt, createdAt := 0, 0;
    }

    /** Go's `cp := *sess`. */
    constructor Copy(from: SessionRecord)
      ensures Row() == from.Row() && hash == from.hash
      ensures lastUsedAt == from.lastUsedAt && createdAt == from.createdAt
    {
      id, user, hash, device := from.id, from.user, from.hash, from.device;
      expiry, lastUsedAt, createdAt := from.expiry, from.lastUsedAt, from.createdAt;
    }

    function Row(): Session
      reads this
    {
      Session(id, user, device, expiry)
    }
  }

  /** Part way through a bulk delete on `t`: the rows to revoke under the ids visited. */
  ghost function Gone(t: Table, user: string, keep: Hash, left: set<string>): set<Hash> {
    set h | h in Revoked(t, user, keep) && t[h].id !in left
  }

  /** The table and the list of deleted hashes once all ids but those `left` were visited. */
  ghost predicate Swept(t: Table, user: string, keep: Hash, left: set<string>, rows: Table, hashes: seq<Hash>) {
    rows == t - Gone(t, user, keep, left) && Enumerates(hashes, Gone(t, user, keep, left))
  }

  /** Visiting the only row under an id settles that id. */
  lemma SweptMore(t: Table, user: string, keep: Hash, left: set<string>, rows: Table, hashes: seq<Hash>,
                  h: Hash, rows': Table, hashes': seq<Hash>)
    requires Swept(t, user, keep, left, rows, hashes)
    requires h in rows && h != "" && rows[h].id in left
    requires forall k :: k in rows && rows[k].id == rows[h].id ==> k == h
    requires if rows[h].user == user && h != keep then rows' == rows - {h} && hashes' == hashes + [h]
             else rows' == rows && hashes' == hashes
    ensures Swept(t, user, keep, left - {rows[h].id}, rows', hashes')
  {
    var left' := left - {rows[h].id};
    forall k | k in Revoked(t, user, keep) && t[k].id == rows[h].id ensures k == h {
      assert k !in Gone(t, user, keep, left) && k in rows;
    }
    if h in Revoked(t, user, keep) {
      assert Gone(t, user, keep, left') == Gone(t, user, keep, left) + {h};
    } else {
      assert Gone(t, user, keep, left') == Gone(t, user, keep, left);
    }
  }

  class SessionStore {
    var byID: map<string, SessionRecord>
    var byHash: map<Hash, SessionRecord>

    ghost var rows: Table        // the rows the store stands for
    ghost var Repr: set<object>  // the store and the session objects it owns

    /** The two maps index the same objects under the id and the hash these carry. */
    ghost predicate Valid()
      reads this, Repr
      ensures Valid() ==> this in Repr
    {
      && this in Repr && byID.Values <= Repr && byHash.Values <= Repr
      && "" !in byHash && "" !in byID
      && (forall h :: h in byHash ==>
            byHash[h].hash == h && byHash[h].id in byID && byID[byHash[h].id] == byHash[h])
      && (forall i :: i in byID ==>
            byID[i].id == i && byID[i].hash in byHash && byHash[byID[i].hash] == byID[i])
      && rows.Keys == byHash.Keys
      && (forall h :: h in byHash ==> rows[h] == byHash[h].Row())
    }

    lemma RowsHaveUniqueIds()
      requires Valid()
      ensures UniqueIds(rows)
    {
    }

    constructor ()
      ensures Valid() && fresh(Repr) && rows == map[]
    {
      byID, byHash, rows, Repr := map[], map[], map[], {this};
    }

    /** Stores a copy of `sess` and fills in its id and timestamps. */
    method Create(sess: SessionRecord, uuid: string, now: Time)
      requires Valid() && sess !in Repr
      requires sess.hash != "" && sess.hash !in byHash
      requires uuid != "" && (if sess.id == "" then uuid else sess.id) !in byID
      modifies this, sess`id, sess`createdAt, sess`lastUsedAt
      ensures Valid() && sess !in Repr && fresh(Repr - old(Repr))
      ensures sess.id == if old(sess.id) == "" then uuid else old(sess.id)
      ensures rows == old(rows)[sess.hash := sess.Row()]
      ensures sess.createdAt == sess.lastUsedAt == now
    {
      if sess.id == "" { sess.id := uuid; }
      sess.createdAt := now;
      sess.lastUsedAt := now;
      var cp := new SessionRecord.Copy(sess);
      assert Valid();
      Link(cp);
    }

    /** Enters an object under its id and under its hash. */
    method Link(cp: SessionRecord)
      requires Valid() && cp.hash != "" && cp.hash !in byHash && cp.id != "" && cp.id !in byID
      modifies this
      ensures Valid() && Repr == old(Repr) + {cp}
      ensures rows == old(rows)[cp.hash := cp.Row()]
    {
      byID := byID[cp.id := cp];
      byHash := byHash[cp.hash := cp];
      rows, Repr := rows[cp.hash := cp.Row()], Repr + {cp};
    }

    /** Touches the session and returns a copy of it. */
    method GetByTokenHash(hash: Hash, now: Time) returns (r: Option<SessionRecord>)
      requires Valid()
      modifies byHash.Values`lastUsedAt
      ensures Valid() && rows == old(rows) && Repr == old(Repr)
      ensures hash !in old(rows) <==> r == None
      ensures r.Some? ==> fresh(r.value) && r.value.hash == hash && r.value.Row() == old(rows)[hash]
      ensures r.Some? ==> byHash[hash].lastUsedAt == r.value.lastUsedAt == now
    {
      if hash !in byHash { return None; }
      var sess := byHash[hash];
      sess.lastUsedAt := now;
      var cp := new SessionRecord.Copy(sess);
      r := Some(cp);
    }

    /** Deletes the session with this id if `user` owns it, and returns its hash. */
    method DeleteByID(id: string, user: string) returns (r: Option<Hash>)
      requires Valid()
      modifies this
      ensures Valid() && Repr == old(Repr)
      ensures r == None <==> Matching(old(rows), id, user) == {}
      ensures r.Some? ==> Matching(old(rows), id, user) == {r.value}
      ensures rows == old(rows) - Matching(old(rows), id, user)
    {
      if id !in byID || byID[id].user != user {
        assert Matching(rows, id, user) == {};
        return None;
      }
      var hash := byID[id].hash;
      assert hash in Matching(rows, id, user);
      RowsHaveUniqueIds();
      MatchingIsUnique(rows, id, user, hash);
      Unlink(id, hash);
      r := Some(hash);
    }

    /** Takes a session out of both maps. */
    method Unlink(id: string, hash: Hash)
      requires Valid() && id in byID && hash in byHash && byID[id] == byHash[hash]
      modifies this
      ensures Valid() && Repr == old(Repr)
      ensures byHash == old(byHash) - {hash} && byID == old(byID) - {id} && rows == old(rows) - {hash}
    {
      byID := byID - {id};
      byHash := byHash - {hash};
      rows := rows - {hash};
    }

    method DeleteByTokenHash(hash: Hash)
      requires Valid()
      modifies this
      ensures Valid() && Repr == old(Repr)
      ensures byHash.Keys == old(byHash.Keys) - {hash}
      ensures byID.Keys == old(byID.Keys - (if hash in byHash then {byHash[hash].id} else {}))
      ensures rows == old(rows) - {hash}
    {
      if hash in byHash {
        Unlink(byHash[hash].id, hash);
      }
    }

    /** Replaces the session of `spent` by a copy of `sess`, or changes nothing when `spent`
        is not stored. */
    method RotateToken(spent: Hash, sess: SessionRecord, uuid: string, now: Time) returns (found: bool)
      requires Valid() && sess !in Repr
      requires sess.hash != "" && sess.hash !in byHash
      requires uuid != "" && (if sess.id == "" then uuid else sess.id) !in byID
      modifies this, sess`id, sess`createdAt, sess`lastUsedAt
      ensures Valid() && sess !in Repr && fresh(Repr - old(Repr))
      ensures found <==> spent in old(rows)
      ensures found ==> sess.id == (if old(sess.id) == "" then uuid else old(sess.id))
      ensures found ==> rows == Rotated(old(rows), spent, sess.hash, sess.Row())
      ensures found ==> sess.createdAt == sess.lastUsedAt == now
      ensures !found ==> rows == old(rows) && sess.Row() == old(sess.Row())
    {
      if spent !in byHash { return false; }
      DeleteByTokenHash(spent);
      Create(sess, uuid, now);
      found := true;
    }

    /** One round of the bulk delete: removes and lists the session with this id if it is the
        user's and not the one to keep. */
    method Visit(id: string, user: string, keep: Hash, hashes: seq<Hash>, ghost t: Table, ghost left: set<string>)
      returns (hashes': seq<Hash>)
      requires Valid() && id in byID && id in left && Swept(t, user, keep, left, rows, hashes)
      modifies this
      ensures Valid() && Repr == old(Repr) && old(byID.Keys) - {id} <= byID.Keys
      ensures Swept(t, user, keep, left - {id}, rows, hashes')
    {
      var sess := byID[id];
      ghost var h, before := RowUnder(id), rows;
      hashes' := hashes;
      if sess.user == user && sess.hash != keep {
        hashes' := hashes' + [sess.hash];
        DeleteByTokenHash(sess.hash);
      }
      SweptMore(t, user, keep, left, before, hashes, h, rows, hashes');
    }

    /** Deletes the user's sessions other than `keep` while ranging over the id map, and
        returns the hashes deleted, in the order met. */
    method DeleteAllByUserIDExcept(user: string, keep: Hash) returns (hashes: seq<Hash>)
      requires Valid()
      modifies this
      ensures Valid() && Repr == old(Repr)
      ensures Enumerates(hashes, Revoked(old(rows), user, keep))
      ensures rows == old(rows) - Revoked(old(rows), user, keep)
    {
      ghost var t := rows;
      hashes := [];
      var left := byID.Keys;
      assert Gone(t, user, keep, left) == {};
      while left != {}
        invariant Valid() && Repr == old(Repr) && left <= byID.Keys
        invariant Swept(t, user, keep, left, rows, hashes)
        decreases left
      {
        var id :| id in left;
        hashes := Visit(id, user, keep, hashes, t, left);
        left := left - {id};
      }
      assert Gone(t, user, keep, left) == Revoked(t, user, keep);
    }

    /** The hash of the row a session id stands for. */
    ghost function RowUnder(id: string): (h: Hash)
      requires Valid() && id in byID
      reads this, Repr
      ensures h in rows && rows[h].id == id && h == byID[id].hash && h != ""
      ensures forall k :: k in rows && rows[k].id == id ==> k == h
    {
      byID[id].hash
    }

    /** No row has an empty hash, so keeping the empty hash keeps nothing. */
    method DeleteAllByUserID(user: string) returns (hashes: seq<Hash>)
      requires Valid()
      modifies this
      ensures Valid() && Repr == old(Repr)
      ensures Enumerates(hashes, OfUser(old(rows), user))
      ensures rows == old(rows) - OfUser(old(rows), user)
    {
      hashes := DeleteAllByUserIDExcept(user, "");
    }
  }
}
