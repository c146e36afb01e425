/** What a command does to a database and its log, live (internal/core/commands.go) and on replay
    (RebuildFromPersistence in internal/core/database.go), as functions of the state. */
module Commands {
  import opened Bytes
  import opened Decimal
  import opened Requests
  import opened Persistence
  import opened Store

  datatype Reply = Done | Str(text: Bytes) | NotFound | Number(n: int) | Item(item: Elem)

  /** A panic ends the process; it is an outcome of its own. */
  datatype Outcome = Success(reply: Reply) | Failure(error: Error) | Panic

  /** One node's state: the database and the bytes of its log. */
  datatype Replica = Replica(db: Db, log: Bytes)

  datatype Step = Step(replica: Replica, outcome: Outcome)

  datatype Applied = Applied(db: Db, outcome: Outcome)

  function Finish<T>(after: After<T>, reply: Reply): Applied {
    Applied(after.db, if after.result.Ok? then Success(reply) else Failure(after.result.error))
  }

  function FinishPop(after: After<Elem>): Applied {
    match after.result
    case Err(error) => Applied(after.db, Failure(error))
    case Ok(item) =>
      Applied(after.db, if item == Some([]) then Failure(NoValueReturned) else Success(Item(item)))
  }

  function ApplySet(db: Db, r: Request, now: int): Applied {
    if r.exp.Some? && r.exp.value.Textual? then Applied(db, Failure(BadTtl))
    else if r.exp.Some? && r.exp.value.Other? then Applied(db, Panic)
    else if r.key.None? || r.value.None? then Applied(db, Failure(MissingField))
    else Finish(Set(db, r.key.value, r.value.value, if r.exp.Some? then r.exp.value.ms else 0, now), Done)
  }

  function ApplyIncr(db: Db, r: Request): Applied {
    if r.key.None? || r.offset.None? then Applied(db, Failure(MissingField))
    else if Atoi(r.offset.value).None? then Applied(db, Failure(BadOffset))
    else
      var after := Incr(db, r.key.value, Atoi(r.offset.value).value);
      Finish(after, if after.result.Ok? then Number(after.result.value) else Done)
  }

  function ApplyPush(db: Db, r: Request): Applied {
    if r.key.None? || r.value.None? then Applied(db, Failure(MissingField))
    else Finish(Push(db, r.key.value, Some(r.value.value)), Done)
  }

  /** The second critical section of a write: its effect on the database. */
  function Apply(db: Db, r: Request, now: int): Applied
    requires Loggable(r)
  {
    match VerbOf(ToUpper(r.command.value))
    case SET => ApplySet(db, r, now)
    case INCR => ApplyIncr(db, r)
    case PUSH => ApplyPush(db, r)
    case LPOP => FinishPop(Lpop(db, r.key.value))
    case RPOP => FinishPop(Rpop(db, r.key.value))
    case _ => Applied(db, Failure(UnknownCommand))
  }

  function ApplyGet(db: Db, r: Request): Outcome {
    if r.key.None? then Failure(MissingField)
    else
      match Get(db, r.key.value)
      case Err(error) => Failure(error)
      case Ok(value) => if value == [] then Success(NotFound) else Success(Str(value))
  }

  /** HandleCommand: writes are logged first and applied second, FLUSHDB empties both. */
  function Handle(s: Replica, r: Request, now: int): Step {
    if r.command.None? then Step(s, Failure(MissingCommand))
    else
      match VerbOf(ToUpper(r.command.value))
      case PING => Step(s, Success(Done))
      case ECHO => Step(s, if r.message.None? then Failure(MissingField) else Success(Str(r.message.value)))
      case GET => Step(s, ApplyGet(s.db, r))
      case FLUSHDB => Step(Replica(EMPTY, []), Success(Done))
      case UNKNOWN => Step(s, Failure(UnknownCommand))
      case _ =>
        if r.key.None? then Step(s, Panic)
        else
          var applied := Apply(s.db, r, now);
          Step(Replica(applied.db, s.log + Encode(EntryOf(r))), applied.outcome)
  }

  /** One loaded record on replay; None when a type assertion panics. */
  function ReplayOne(db: Db, e: Entry): Option<Db> {
    match VerbOf(e.command)
    case SET => if e.value.None? then None else Some(Set(db, e.key, e.value.value, 0, 0).db)
    case INCR =>
      if e.offset.None? then None
      else if Atoi(e.offset.value).None? then Some(db)
      else Some(Incr(db, e.key, Atoi(e.offset.value).value).db)
    case PUSH => Some(Push(db, e.key, e.value).db)
    case RPOP => Some(Rpop(db, e.key).db)
    case LPOP => Some(Lpop(db, e.key).db)
    case _ => Some(db)
  }

  function Rebuild(db: Db, es: seq<Entry>): Option<Db>
    decreases |es|
  {
    if es == [] then Some(db)
    else
      match ReplayOne(db, es[0])
      case None => None
      case Some(next) => Rebuild(next, es[1..])
  }
}
