/** The Redis commands the throttles use, over a map from key to value and deadline. */
module Redis {
  import opened Prelude

  /** `None` as deadline: the key does not expire. */
  datatype Entry = Entry(value: int, expiresAt: Option<Time>)
  type Db = map<string, Entry>

  /** A key is visible strictly before its deadline. */
  predicate Live(db: Db, key: string, now: Time) {
    key in db && (db[key].expiresAt == None || now < db[key].expiresAt.value)
  }

  function Read(db: Db, key: string, now: Time): Option<int> {
    if Live(db, key, now) then Some(db[key].value) else None
  }

  /** The script INCR; on the first increment EXPIRE. A non-positive EXPIRE removes the key. */
  function Incr(db: Db, key: string, seconds: int, now: Time): (Db, int) {
    if Live(db, key, now) && db[key].value != 0 then
      (db[key := Entry(db[key].value + 1, db[key].expiresAt)], db[key].value + 1)
    else if seconds <= 0 then (db - {key}, 1)
    else (db[key := Entry(1, Some(now + seconds * SECOND))], 1)
  }

  /** SET with a time to live; a non-positive one sets no deadline. */
  function Put(db: Db, key: string, value: int, ttl: int, now: Time): Db {
    db[key := Entry(value, if ttl > 0 then Some(now + ttl) else None)]
  }

  class Server {
    var db: Db

    constructor ()
      ensures db == map[]
    {
      db := map[];
    }

    method IncrExpire(key: string, seconds: int, now: Time) returns (count: int)
      modifies this
      ensures (db, count) == Incr(old(db), key, seconds, now)
    {
      count := if Live(db, key, now) then db[key].value + 1 else 1;
      var deadline := if Live(db, key, now) then db[key].expiresAt else None;
      db := db[key := Entry(count, deadline)];
      if count == 1 {
        if seconds <= 0 { db := db - {key}; }
        else { db := db[key := Entry(1, Some(now + seconds * SECOND))]; }
        assert db == Incr(old(db), key, seconds, now).0;
      }
    }

    method Set(key: string, value: int, ttl: int, now: Time)
      modifies this
      ensures db == Put(old(db), key, value, ttl, now)
    {
      db := Put(db, key, value, ttl, now);
    }

    method Del(keys: set<string>)
      modifies this
      ensures db == old(db) - keys
    {
      db := db - keys;
    }
  }
}
