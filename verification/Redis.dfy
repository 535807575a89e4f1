/** The part of Redis the program relies on: string keys with an optional expiry, read, increment,
    expire and set-if-absent. Times are milliseconds. */
module Redis {
  import opened Wrappers

  /** A stored string, as far as the program tells strings apart. */
  datatype Stored = Number(n: int) | Text

  datatype Entry = Entry(value: Stored, deadline: Option<int>)

  type Db = map<string, Entry>

  /** What happened to a command: the server may be unreachable, or may have executed the command
      without its answer arriving. */
  datatype Fault = NoFault | Refused | Unacknowledged

  datatype Reply<T> = Value(value: T) | Nil | Error

  /** A key set to expire after d is readable for less than d. */
  predicate Live(db: Db, key: string, now: int) {
    key in db && (db[key].deadline.Some? ==> now < db[key].deadline.value)
  }

  function Found(db: Db, key: string, now: int): Reply<Stored> {
    if Live(db, key, now) then Value(db[key].value) else Nil
  }

  /** INCR and EXPIRE in one transaction; INCR of a text fails and changes nothing. */
  function Incremented(db: Db, key: string, now: int, ttl: int): Db {
    if !Live(db, key, now) then db[key := Entry(Number(1), Some(now + ttl))]
    else match db[key].value
      case Number(n) => db[key := Entry(Number(n + 1), Some(now + ttl))]
      case Text => db[key := Entry(Text, Some(now + ttl))]
  }

  /** SET key value NX, with an expiry only when ttl is positive. */
  function Claimed(db: Db, key: string, now: int, ttl: int): Db {
    if Live(db, key, now) then db
    else db[key := Entry(Number(1), if ttl > 0 then Some(now + ttl) else None)]
  }

  /** A connection, and the server behind it. */
  class Client {
    var db: Db

    constructor ()
      ensures db == map[]
    {
      db := map[];
    }

    method Get(key: string, now: int, fault: Fault) returns (reply: Reply<Stored>)
      ensures reply == if fault.NoFault? then Found(db, key, now) else Error
    {
      if fault != NoFault {
        return Error;
      }
      if key in db && (db[key].deadline == None || now < db[key].deadline.value) {
        return Value(db[key].value);
      }
      reply := Nil;
    }

    method IncrExpire(key: string, now: int, ttl: int, fault: Fault) returns (ok: bool)
      modifies this
      ensures db == if fault.Refused? then old(db) else Incremented(old(db), key, now, ttl)
      ensures ok ==> fault.NoFault?
    {
      ok := fault == NoFault;
      if fault != Refused {
        db := Incremented(db, key, now, ttl);
      }
    }

    method SetNx(key: string, now: int, ttl: int, fault: Fault) returns (reply: Reply<bool>)
      modifies this
      ensures db == if fault.Refused? then old(db) else Claimed(old(db), key, now, ttl)
      ensures reply == if !fault.NoFault? then Error else if Live(old(db), key, now) then Nil else Value(true)
    {
      reply := if fault != NoFault then Error else if Live(db, key, now) then Nil else Value(true);
      if fault != Refused {
        db := Claimed(db, key, now, ttl);
      }
    }
  }
}
