/** The binary write-through log (internal/persistence/wtd.go): its byte format, the loader as a
    function of the bytes, and the class whose methods work on the file. */
module Persistence {
  import opened Bytes
  import opened Requests

  /** The four fields that a log record holds. */
  datatype Entry = Entry(command: Bytes, key: Bytes, value: Option<Bytes>, offset: Option<Bytes>)

  const MARKER: Bytes := ['E', 'O', 'F', ZERO]

  /** What the loader returns for a record: an empty optional field reads back as absent. */
  function Normal(e: Entry): Entry {
    e.(value := NonEmpty(OrEmpty(e.value)), offset := NonEmpty(OrEmpty(e.offset)))
  }

  function Field(s: Bytes): Bytes {
    PutUint32(|s|) + s
  }

  function Fields(e: Entry): (b: Bytes)
    ensures |b| >= 16
  {
    Field(e.command) + Field(e.key) + Field(OrEmpty(e.value)) + Field(OrEmpty(e.offset))
  }

  function Encode(e: Entry): (b: Bytes)
    ensures |b| == |Fields(e)| + 4
  {
    Fields(e) + MARKER
  }

  function EncodeAll(es: seq<Entry>): Bytes {
    if es == [] then [] else Encode(es[0]) + EncodeAll(es[1..])
  }

  function NormalAll(es: seq<Entry>): (ns: seq<Entry>)
    ensures |ns| == |es|
  {
    seq(|es|, i requires 0 <= i < |es| => Normal(es[i]))
  }

  /** What a single read returns at most: Go cuts it at 1 GiB. */
  const MAXREAD: nat := 0x4000_0000

  /** Every field can be read back by a single read, so its length also survives the int32 and
      uint32 conversions. */
  predicate Fits(e: Entry) {
    && |e.command| <= MAXREAD && |e.key| <= MAXREAD
    && |OrEmpty(e.value)| <= MAXREAD && |OrEmpty(e.offset)| <= MAXREAD
  }

  predicate AllFit(es: seq<Entry>) {
    forall i :: 0 <= i < |es| ==> Fits(es[i])
  }

  /** LogRequest asserts that command and key are strings. */
  predicate Loggable(r: Request) {
    r.command.Some? && r.key.Some?
  }

  function EntryOf(r: Request): Entry
    requires Loggable(r)
  {
    Entry(r.command.value, r.key.value, r.value, r.offset)
  }

  function RequestOf(e: Entry): Request {
    Request(Some(e.command), Some(e.key), e.value, e.offset, None, None)
  }

  function RequestsOf(es: seq<Entry>): seq<Request> {
    seq(|es|, i requires 0 <= i < |es| => RequestOf(es[i]))
  }

  lemma RequestsOfCons(e: Entry, es: seq<Entry>)
    ensures RequestsOf([e] + es) == [RequestOf(e)] + RequestsOf(es)
  {
  }

  // ------------------------------------------------------------------ reading

  datatype ReadResult = Eof | Read(data: Bytes, rest: Bytes)

  /** One file read into a buffer now holding `into`. An empty read succeeds, a read at the end
      fails, and a short read succeeds and leaves the rest of the buffer as it was. */
  function ReadFile(rest: Bytes, into: Bytes): (r: ReadResult)
    ensures r.Eof? <==> rest == [] && into != []
    ensures r.Read? ==> |r.data| == |into|
    ensures r.Read? ==> |r.rest| == |rest| - Moved(rest, into)
  {
    var n := Moved(rest, into);
    if into == [] then Read([], rest)
    else if rest == [] then Eof
    else Read(rest[..n] + into[n..], rest[n..])
  }

  /** How many bytes one read moves. */
  function Moved(rest: Bytes, into: Bytes): (n: nat)
    ensures n <= |rest| && n <= |into|
    ensures into != [] && rest != [] ==> n > 0
  {
    if |rest| < |into| && |rest| <= MAXREAD then |rest|
    else if |into| <= MAXREAD then |into|
    else MAXREAD
  }

  datatype FieldResult = NoField | GotField(data: Bytes, rest: Bytes, buf: Bytes)

  /** Read a length into the reused buffer, then that many bytes into a fresh one. */
  function ReadField(rest: Bytes, buf: Bytes): (r: FieldResult)
    requires |buf| == 4
    ensures r.GotField? ==> |r.buf| == 4 && |r.rest| < |rest|
  {
    match ReadFile(rest, buf)
    case Eof => NoField
    case Read(len, rest1) =>
      match ReadFile(rest1, Zeros(Uint32(len)))
      case Eof => NoField
      case Read(data, rest2) => GotField(data, rest2, len)
  }

  datatype RecordResult = Stop | Got(entry: Entry, rest: Bytes, buf: Bytes)

  /** The loader's loop body as a function of the unread bytes and the reused buffer. */
  function ReadRecord(rest: Bytes, buf: Bytes): (r: RecordResult)
    requires |buf| == 4
    ensures r.Got? ==> |r.buf| == 4 && |r.rest| < |rest|
  {
    var f1 := ReadField(rest, buf);
    if f1.NoField? then Stop else
    var f2 := ReadField(f1.rest, f1.buf);
    if f2.NoField? then Stop else
    var f3 := ReadField(f2.rest, f2.buf);
    if f3.NoField? then Stop else
    var f4 := ReadField(f3.rest, f3.buf);
    if f4.NoField? then Stop else
    var m := ReadFile(f4.rest, Zeros(4));
    if m.Eof? || m.data != MARKER then Stop
    else Got(Entry(f1.data, f2.data, NonEmpty(f3.data), NonEmpty(f4.data)), m.rest, f4.buf)
  }

  function LoadFrom(rest: Bytes, buf: Bytes): seq<Entry>
    requires |buf| == 4
    decreases |rest|
  {
    match ReadRecord(rest, buf)
    case Stop => []
    case Got(e, rest', buf') => [e] + LoadFrom(rest', buf')
  }

  function Load(log: Bytes): seq<Entry> {
    LoadFrom(log, Zeros(4))
  }

  lemma NothingRequested()
    ensures RequestsOf([]) == []
    ensures forall rs: seq<Request> :: [] + rs == rs
  {
  }

  /** The load loop, unrolled once. */
  lemma RequestsFrom(rest: Bytes, buf: Bytes, before: seq<Request>)
    requires |buf| == 4
    ensures var step := ReadRecord(rest, buf);
            before + RequestsOf(LoadFrom(rest, buf)) ==
              if step.Stop? then before + []
              else before + [RequestOf(step.entry)] + RequestsOf(LoadFrom(step.rest, step.buf))
  {
    hide ReadRecord, RequestsOf;
    var step := ReadRecord(rest, buf);
    if step.Got? {
      RequestsOfCons(step.entry, LoadFrom(step.rest, step.buf));
    } else {
      NothingRequested();
    }
  }

  // ------------------------------------------------------------------ the file

  /** The log file: its bytes and a read cursor. */
  class Persistence {
    var file: Bytes
    var pos: nat

    ghost predicate Valid()
      reads this
    {
      pos <= |file|
    }

    /** The bytes after the cursor. */
    ghost function Unread(): Bytes
      requires Valid()
      reads this
    {
      file[pos..]
    }

    constructor ()
      ensures file == [] && pos == 0
    {
      file, pos := [], 0;
    }

    /** os.File.Read into the first n bytes of buf, at most MAXREAD of them. */
    method Read(buf: array<Byte>, n: nat) returns (ok: bool)
      requires Valid() && n <= buf.Length
      modifies this`pos, buf
      ensures Valid()
      ensures buf[n..] == old(buf[n..])
      ensures var r := ReadFile(old(Unread()), old(buf[..n]));
              ok == r.Read? &&
              if ok then buf[..n] == r.data && Unread() == r.rest
              else pos == old(pos) && buf[..n] == old(buf[..n])
    {
      if n == 0 {
        return true;
      }
      if pos == |file| {
        return false;
      }
      var count := if |file| - pos < n then |file| - pos else n;
      if count > MAXREAD {
        count := MAXREAD;
      }
      forall i | 0 <= i < count {
        buf[i] := file[pos + i];
      }
      pos := pos + count;
      return true;
    }

    /** Append one record. The two type assertions make the caller's map hold both strings. */
    method LogRequest(req: Request)
      requires Loggable(req)
      modifies this`file
      ensures file == old(file) + Encode(EntryOf(req))
    {
      var buf: Bytes := [];
      var cmd := req.command.value;
      buf := buf + PutUint32(|cmd|);
      buf := buf + cmd;
      assert buf == Field(cmd);
      var key := req.key.value;
      buf := buf + PutUint32(|key|);
      buf := buf + key;
      assert buf == Field(cmd) + Field(key);
      ghost var val, off := OrEmpty(req.value), OrEmpty(req.offset);
      if req.value.Some? {
        buf := buf + PutUint32(|req.value.value|);
        buf := buf + req.value.value;
      } else {
        buf := buf + PutUint32(0);
      }
      assert buf == Field(cmd) + Field(key) + Field(val);
      if req.offset.Some? {
        buf := buf + PutUint32(|req.offset.value|);
        buf := buf + req.offset.value;
      } else {
        buf := buf + PutUint32(0);
      }
      assert buf == Field(cmd) + Field(key) + Field(val) + Field(off);
      buf := buf + MARKER;
      file := file + buf;
    }

    /** A length word through the reused buffer. */
    method LoadLength(buf: array<Byte>) returns (ok: bool, len: nat)
      requires Valid() && buf.Length >= 4
      modifies this`pos, buf
      ensures Valid()
      ensures var r := ReadFile(old(Unread()), old(buf[..4]));
              ok == r.Read? && (ok ==> buf[..4] == r.data && Unread() == r.rest && len == Uint32(r.data))
    {
      len := 0;
      ok := Read(buf, 4);
      if ok {
        len := Uint32(buf[..4]);
      }
    }

    /** A fresh slice of the given length, filled by one read. */
    method ReadPayload(len: nat) returns (ok: bool, data: Bytes)
      requires Valid()
      modifies this`pos
      ensures Valid()
      ensures var r := ReadFile(old(Unread()), Zeros(len));
              ok == r.Read? && (ok ==> data == r.data && Unread() == r.rest)
    {
      var made := new Byte[len](_ => ZERO);
      assert made[..len] == Zeros(len);
      ok := Read(made, len);
      data := made[..len];
    }

    /** A length and that many bytes, as for the command and the key. */
    method LoadRequired(buf: array<Byte>) returns (ok: bool, data: Bytes)
      requires Valid() && buf.Length >= 4
      modifies this`pos, buf
      ensures Valid()
      ensures var r := ReadField(old(Unread()), old(buf[..4]));
              ok == r.GotField? && (ok ==> data == r.data && Unread() == r.rest && buf[..4] == r.buf)
    {
      data := [];
      var len;
      ok, len := LoadLength(buf);
      if ok {
        ok, data := ReadPayload(len);
      }
    }

    /** The same for the value and the offset, which are read only when the length is positive. */
    method LoadOptional(buf: array<Byte>) returns (ok: bool, data: Bytes)
      requires Valid() && buf.Length >= 4
      modifies this`pos, buf
      ensures Valid()
      ensures var r := ReadField(old(Unread()), old(buf[..4]));
              ok == r.GotField? && (ok ==> data == r.data && Unread() == r.rest && buf[..4] == r.buf)
    {
      data := [];
      var len;
      ok, len := LoadLength(buf);
      if ok && len > 0 {
        ok, data := ReadPayload(len);
      }
    }

    /** One pass of the load loop: four fields and the end marker. */
    method LoadRecord(buf: array<Byte>) returns (ok: bool, req: Request)
      requires Valid() && buf.Length >= 4
      modifies this`pos, buf
      ensures Valid()
      ensures var r := ReadRecord(old(Unread()), old(buf[..4]));
              ok == r.Got? && (ok ==> req == RequestOf(r.entry) && Unread() == r.rest && buf[..4] == r.buf)
    {
      hide ReadFile, ReadField;
      req := Request(None, None, None, None, None, None);
      var command, key, value, offset, endMarker;
      ok, command := LoadRequired(buf);
      if !ok { return; }
      ok, key := LoadRequired(buf);
      if !ok { return; }
      ok, value := LoadOptional(buf);
      if !ok { return; }
      ok, offset := LoadOptional(buf);
      if !ok { return; }
      ok, endMarker := ReadPayload(4);
      if !ok || endMarker != MARKER { return false, req; }
      req := Request(Some(command), Some(key), NonEmpty(value), NonEmpty(offset), None, None);
    }

    /** Parse the file from its start until the first read that fails or marker that differs. */
    method LoadRequests() returns (requests: seq<Request>)
      modifies this`pos
      ensures requests == RequestsOf(Load(file))
    {
      hide ReadRecord, LoadFrom, RequestsOf;
      pos := 0;
      requests := [];
      var buf := new Byte[1024](_ => ZERO);
      assert Unread() == file && buf[..4] == Zeros(4);
      NothingRequested();
      var ok := true;
      while ok
        invariant Valid() && fresh(buf) && buf.Length == 1024
        invariant RequestsOf(Load(file)) == requests + if ok then RequestsOf(LoadFrom(Unread(), buf[..4])) else []
        decreases ok, |file| - pos
      {
        RequestsFrom(Unread(), buf[..4], requests);
        var req;
        ok, req := LoadRecord(buf);
        if ok {
          requests := requests + [req];
        }
      }
    }

    /** Truncate the file. */
    method Clear()
      modifies this
      ensures file == [] && pos == 0
    {
      file, pos := [], 0;
    }
  }
}
