/** HandleCommand (internal/core/commands.go) over the database and the log file. */
module CommandHandler {
  import opened Bytes
  import opened Decimal
  import opened Requests
  import opened Persistence
  import opened Store
  import opened Commands
  import opened Database

  class CommandHandler {
    const database: Database
    const disk: Persistence

    ghost predicate Valid()
      reads this, database, database.Repr, disk
    {
      database.Valid() && disk !in database.Repr && this !in database.Repr
    }

    ghost function View(): Replica
      reads database, disk
    {
      Replica(database.View(), disk.file)
    }

    constructor (database: Database, disk: Persistence)
      requires database.Valid() && disk !in database.Repr
      ensures Valid() && this.database == database && this.disk == disk
    {
      this.database, this.disk := database, disk;
    }

    method HandleCommand(r: Request, now: int) returns (out: Outcome)
      requires Valid()
      modifies database.Repr, disk
      ensures Valid() && fresh(database.Repr - old(database.Repr))
      ensures Step(View(), out) == Handle(old(View()), r, now)
    {
      hide VerbOf, ToUpper, Apply, Encode, EntryOf, Database.Owns;
      if r.command.None? {
        return Failure(MissingCommand);
      }
      match VerbOf(ToUpper(r.command.value)) {
        case PING =>
          return Success(Done);
        case ECHO =>
          if r.message.None? {
            return Failure(MissingField);
          }
          return Success(Str(r.message.value));
        case GET =>
          if r.key.None? {
            return Failure(MissingField);
          }
          var value := database.Get(r.key.value);
          if value.Err? {
            return Failure(value.error);
          }
          return Success(if value.value == [] then NotFound else Str(value.value));
        case FLUSHDB =>
          disk.Clear();
          database.Clear();
          return Success(Done);
        case UNKNOWN =>
          return Failure(UnknownCommand);
        case _ =>
          if r.key.None? {
            return Panic;
          }
          disk.LogRequest(r);
          out := Execute(r, now);
      }
    }

    /** The five write branches after their common LogRequest. */
    method Execute(r: Request, now: int) returns (out: Outcome)
      requires Valid() && Loggable(r) && IsWrite(VerbOf(ToUpper(r.command.value)))
      modifies database.Repr
      ensures Valid() && fresh(database.Repr - old(database.Repr))
      ensures Applied(database.View(), out) == Apply(old(database.View()), r, now)
    {
      hide VerbOf, ToUpper, Set, Incr, Push, Lpop, Rpop, Database.Valid, Database.Owns, Atoi;
      var key := r.key.value;
      match VerbOf(ToUpper(r.command.value)) {
        case SET =>
          var ttlMs := 0;
          if r.exp.Some? {
            match r.exp.value {
              case Int64(ms) => ttlMs := ms;
              case Narrow(ms) => ttlMs := ms;
              case Textual(_) => return Failure(BadTtl);
              case Other => return Panic;
            }
          }
          if r.value.None? {
            return Failure(MissingField);
          }
          var done := database.Set(key, r.value.value, ttlMs, now);
          return if done.Ok? then Success(Done) else Failure(done.error);
        case INCR =>
          if r.offset.None? {
            return Failure(MissingField);
          }
          var offset := Atoi(r.offset.value);
          if offset.None? {
            return Failure(BadOffset);
          }
          var sum := database.Incr(key, offset.value);
          return if sum.Ok? then Success(Number(sum.value)) else Failure(sum.error);
        case PUSH =>
          if r.value.None? {
            return Failure(MissingField);
          }
          var done := database.Push(key, Some(r.value.value));
          return if done.Ok? then Success(Done) else Failure(done.error);
        case LPOP =>
          var item := database.Lpop(key);
          out := PopOutcome(item);
        case RPOP =>
          var item := database.Rpop(key);
          out := PopOutcome(item);
      }
    }

    /** An empty popped string is reported as an error, although it has been removed. */
    function PopOutcome(item: Result<Elem>): Outcome {
      if item.Err? then Failure(item.error)
      else if item.value == Some([]) then Failure(NoValueReturned)
      else Success(Item(item.value))
    }
  }
}
