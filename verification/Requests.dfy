/** Client requests, the wire command, and the conversions between them
    (internal/utils/conversions.go). */
module Requests {
  import opened Bytes

  /** The dynamic type of the `exp` field decides what a server does with it. */
  datatype Exp =
    | Int64(ms: Long)    // an int64 field
    | Narrow(ms: Long)   // int8, int16, int32, uint8, uint16 or uint32
    | Textual(text: Bytes)
    | Other            // anything else, for instance uint64

  /** A request map. A field is Some exactly when the map holds a string under its name. */
  datatype Request = Request(command: Option<Bytes>, key: Option<Bytes>, value: Option<Bytes>,
                             offset: Option<Bytes>, exp: Option<Exp>, message: Option<Bytes>)

  /** The protobuf message: absent strings are empty, an absent expiry is 0. */
  datatype Command = Command(command: Bytes, key: Bytes, value: Bytes, exp: Int32, offset: Bytes)

  datatype Verb = PING | ECHO | SET | GET | INCR | PUSH | LPOP | RPOP | FLUSHDB | UNKNOWN

  /** The exact, case-sensitive meaning of a command word. */
  function VerbOf(word: Bytes): Verb {
    if word == "PING" then PING
    else if word == "ECHO" then ECHO
    else if word == "SET" then SET
    else if word == "GET" then GET
    else if word == "INCR" then INCR
    else if word == "PUSH" then PUSH
    else if word == "LPOP" then LPOP
    else if word == "RPOP" then RPOP
    else if word == "FLUSHDB" then FLUSHDB
    else UNKNOWN
  }

  predicate IsWrite(v: Verb) {
    v.SET? || v.INCR? || v.PUSH? || v.LPOP? || v.RPOP?
  }

  /** isWriteCommand of internal/network/server.go: looks the raw word up. */
  predicate IsWriteCommand(word: Bytes) {
    IsWrite(VerbOf(word))
  }

  /** A word that already names a verb is its own upper-case form, so replay and the command
      handler agree on it. */
  lemma ExactVerbIsUpper(word: Bytes)
    requires VerbOf(word) != UNKNOWN
    ensures VerbOf(ToUpper(word)) == VerbOf(word)
  {
    assert ToUpper(word) == word;
  }

  function OrEmpty(o: Option<Bytes>): Bytes {
    if o.Some? then o.value else []
  }

  function NonEmpty(s: Bytes): (o: Option<Bytes>)
    ensures OrEmpty(o) == s
  {
    if s == [] then None else Some(s)
  }

  /** Go's int64 to int32 conversion. */
  function ToInt32(n: int): Int32 {
    (n + 0x8000_0000) % WORD - 0x8000_0000
  }

  predicate Carries(exp: Option<Exp>, ms: int) {
    if ms == 0 then exp.None? else exp.Some? && exp.value.Narrow? && exp.value.ms == ms
  }

  /** A TTL in the int32 range arrives at another node as it is; any other arrives changed by a
      multiple of 2^32. */
  lemma TtlArrives(r: Request, ms: Long)
    requires r.command.Some? && r.exp == Some(Int64(ms))
    ensures var sent := ConvertCommandToRequest(ConvertRequestToCommand(r).value).exp;
            if -2_147_483_648 <= ms <= 2_147_483_647 then Carries(sent, ms)
            else exists q: int :: q != 0 && Carries(sent, ms - q * 4_294_967_296)
  {
    var q := (ms + 0x8000_0000) / WORD;
    assert ToInt32(ms) == ms - q * 4_294_967_296;
  }

  function ConvertRequestToCommand(r: Request): Option<Command> {
    if r.command.None? then None
    else
      var exp := if r.exp.Some? && r.exp.value.Int64? then ToInt32(r.exp.value.ms) else 0;
      Some(Command(r.command.value, OrEmpty(r.key), OrEmpty(r.value), exp, OrEmpty(r.offset)))
  }

  function ConvertCommandToRequest(c: Command): Request {
    Request(Some(c.command), NonEmpty(c.key), NonEmpty(c.value), NonEmpty(c.offset),
            if c.exp != 0 then Some(Narrow(c.exp)) else None, None)
  }
}
