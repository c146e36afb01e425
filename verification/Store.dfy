/** The database as a value: what each operation of internal/core/database.go does to the string
    map, the deadlines and the lists. */
module Store {
  import opened Bytes
  import opened Decimal

  datatype Error =
    | MissingCommand | UnknownCommand | MissingField | BadTtl | BadOffset
    | EmptyKey | EmptyValue | KeyNotFound | NotAnInteger
    | ListMissing | ListEmpty | NoValueReturned | ForwardFailed

  /** A list element: replay can push the absent value (Go's nil). */
  type Elem = Option<Bytes>

  datatype Db = Db(store: map<Bytes, Bytes>, expiry: map<Bytes, int>, lists: map<Bytes, seq<Elem>>)

  const EMPTY: Db := Db(map[], map[], map[])

  datatype Result<+T> = Ok(value: T) | Err(error: Error)

  /** The outcome of an operation with the state it leaves. */
  datatype After<+T> = After(db: Db, result: Result<T>)

  /** Unix milliseconds plus a TTL, in 64-bit arithmetic. */
  function Deadline(now: int, ttl: int): int {
    Wrap64(now + ttl)
  }

  function Set(db: Db, key: Bytes, value: Bytes, ttl: int, now: int): After<()> {
    if key == [] then After(db, Err(EmptyKey))
    else if value == [] then After(db, Err(EmptyValue))
    else
      var expiry := if ttl > 0 then db.expiry[key := Deadline(now, ttl)] else db.expiry;
      After(db.(store := db.store[key := value], expiry := expiry), Ok(()))
  }

  function Get(db: Db, key: Bytes): Result<Bytes> {
    if key == [] then Err(EmptyKey)
    else if key !in db.store then Err(KeyNotFound)
    else Ok(db.store[key])
  }

  function Incr(db: Db, key: Bytes, offset: int): After<int> {
    if key == [] then After(db, Err(EmptyKey))
    else if key !in db.store then After(db, Err(KeyNotFound))
    else if Atoi(db.store[key]).None? then After(db, Err(NotAnInteger))
    else
      var n := Wrap64(Atoi(db.store[key]).value + offset);
      After(db.(store := db.store[key := Itoa(n)]), Ok(n))
  }

  function ListAt(db: Db, key: Bytes): seq<Elem> {
    if key in db.lists then db.lists[key] else []
  }

  function Push(db: Db, key: Bytes, value: Elem): After<()> {
    if key == [] then After(db, Err(EmptyKey))
    else After(db.(lists := db.lists[key := ListAt(db, key) + [value]]), Ok(()))
  }

  function LPush(db: Db, key: Bytes, value: Elem): After<()> {
    if key == [] then After(db, Err(EmptyKey))
    else After(db.(lists := db.lists[key := [value] + ListAt(db, key)]), Ok(()))
  }

  function Lpop(db: Db, key: Bytes): After<Elem> {
    if key == [] then After(db, Err(EmptyKey))
    else if key !in db.lists then After(db, Err(ListMissing))
    else if db.lists[key] == [] then After(db, Err(ListEmpty))
    else After(db.(lists := db.lists[key := db.lists[key][1..]]), Ok(db.lists[key][0]))
  }

  function Rpop(db: Db, key: Bytes): After<Elem> {
    if key == [] then After(db, Err(EmptyKey))
    else if key !in db.lists then After(db, Err(ListMissing))
    else if db.lists[key] == [] then After(db, Err(ListEmpty))
    else
      var last := |db.lists[key]| - 1;
      After(db.(lists := db.lists[key := db.lists[key][..last]]), Ok(db.lists[key][last]))
  }

  /** The keys a sweep at `now` removes. */
  function Expired(expiry: map<Bytes, int>, now: int): set<Bytes> {
    set k | k in expiry && now > expiry[k]
  }

  function Sweep(db: Db, now: int): Db {
    var dead := Expired(db.expiry, now);
    db.(store := db.store - dead, expiry := db.expiry - dead)
  }
}
