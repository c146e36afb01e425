/** Appending to a log that a crash has cut: the server never repairs the file, so what the next
    commands are worth depends on where the cut fell. */
module CutLogs {
  import opened Bytes
  import opened Requests
  import opened Persistence
  import opened CodecLaws

  /** The cut fell exactly after some record. */
  predicate OnBoundary(es: seq<Entry>, c: nat) {
    exists k :: 0 <= k <= |es| && c == |EncodeAll(es[..k])|
  }

  lemma BoundaryPrefix(es: seq<Entry>, k: nat)
    requires k <= |es|
    ensures |EncodeAll(es[..k])| <= |EncodeAll(es)|
    ensures EncodeAll(es)[..|EncodeAll(es[..k])|] == EncodeAll(es[..k])
  {
    assert es[..k] + es[k..] == es;
    EncodeAllAppend(es[..k], es[k..]);
  }

  lemma EncodeAllFirst(es: seq<Entry>)
    requires es != []
    ensures EncodeAll(es) == Encode(es[0]) + EncodeAll(es[1..])
  {
  }

  lemma SplitAt(es: seq<Entry>, k: nat)
    requires k < |es|
    ensures EncodeAll(es) == EncodeAll(es[..k]) + (Encode(es[k]) + EncodeAll(es[k..][1..]))
    ensures |EncodeAll(es[..k + 1])| == |EncodeAll(es[..k])| + |Encode(es[k])|
  {
    assert es[..k] + es[k..] == es;
    EncodeAllAppend(es[..k], es[k..]);
    EncodeAllFirst(es[k..]);
    assert es[..k + 1] == es[..k] + [es[k]];
    EncodeAllLast(es[..k], es[k]);
  }

  /** The record that a cut falls in, looking from record j on. */
  lemma {:induction false} FindCut(es: seq<Entry>, c: nat, j: nat) returns (k: nat)
    requires j <= |es| && |EncodeAll(es[..j])| <= c < |EncodeAll(es)|
    ensures k < |es| && |EncodeAll(es[..k])| <= c < |EncodeAll(es[..k])| + |Encode(es[k])|
    decreases |es| - j
  {
    assert es[..|es|] == es;
    hide Encode, EncodeAll;
    SplitAt(es, j);
    if c < |EncodeAll(es[..j + 1])| {
      k := j;
    } else {
      k := FindCut(es, c, j + 1);
    }
  }

  lemma PrefixOf(a: Bytes, b: Bytes, rest: Bytes, c: nat)
    requires |a| <= c <= |a| + |b|
    ensures (a + (b + rest))[..c] == a + b[..c - |a|]
  {
  }

  /** A cut that is on no boundary leaves some whole records and a proper part of the next one. */
  lemma CutPosition(es: seq<Entry>, c: nat) returns (k: nat, m: nat)
    requires c <= |EncodeAll(es)| && !OnBoundary(es, c)
    ensures k < |es| && 0 < m < |Encode(es[k])|
    ensures EncodeAll(es)[..c] == EncodeAll(es[..k]) + Encode(es[k])[..m]
  {
    assert es[..0] == [] && es[..|es|] == es;
    EncodeAllNone();
    assert c != |EncodeAll(es[..|es|])|;
    k := FindCut(es, c, 0);
    assert c != |EncodeAll(es[..k])|;
    m := c - |EncodeAll(es[..k])|;
    SplitAt(es, k);
    hide Encode, EncodeAll, OnBoundary;
    PrefixOf(EncodeAll(es[..k]), Encode(es[k]), EncodeAll(es[k..][1..]), c);
  }

  /** The length of the command that a successful read returns. */
  lemma CommandLength(rest: Bytes, buf: Bytes)
    requires |buf| == 4 && |rest| >= 4 && ReadRecord(rest, buf).Got?
    ensures |ReadRecord(rest, buf).entry.command| == Uint32(rest[..4])
  {
    ReadSmall(rest, buf);
    hide Uint32;
  }

  /** A record that the server logs for some client command with a key. */
  predicate IsCommand(f: Entry) {
    IsWrite(VerbOf(ToUpper(f.command))) && f.key != []
  }

  /** A command whose word has a length that no read of a part of e followed by it can return. */
  function Stranger(e: Entry): Entry {
    Entry(if |e.command| == 3 then "PUSH" else "SET", "k", Some("v"), None)
  }

  lemma StrangerIsCommand(e: Entry)
    ensures Fits(Stranger(e)) && IsCommand(Stranger(e))
  {
    ExactVerbIsUpper("SET");
    ExactVerbIsUpper("PUSH");
    hide ToUpper;
  }

  lemma ShiftedLength(b: Bytes, m: nat)
    requires |b| == 4 && 0 < m < 4 && b[m] != ZERO
    ensures Uint32(b) >= 0x100
  {
    assert b[m] as int >= 1;
  }

  lemma StrangerStart(e: Entry)
    ensures Fits(Stranger(e)) && 0 < |Stranger(e).command| <= 4 && |Stranger(e).command| != |e.command|
    ensures Encode(Stranger(e)) != [] && Encode(Stranger(e))[0] != ZERO
  {
    FirstByteIsLength(Stranger(e), []);
    hide Encode;
    assert Encode(Stranger(e)) + [] == Encode(Stranger(e));
  }

  lemma StrangerIsMisread(e: Entry, m: nat, buf: Bytes)
    requires Fits(e) && |buf| == 4 && 0 < m < |Encode(e)|
    ensures var r := ReadRecord(Encode(e)[..m] + Encode(Stranger(e)), buf);
            r.Got? ==> |r.entry.command| != |Stranger(e).command|
  {
    hide Encode, ReadRecord, PutUint32, Uint32, Stranger;
    var f := Stranger(e);
    var log := Encode(e)[..m] + Encode(f);
    EncodeStart(e);
    EncodeStart(f);
    StrangerStart(e);
    if ReadRecord(log, buf).Got? {
      CommandLength(log, buf);
      if 4 <= m {
        assert log[..4] == Encode(e)[..4];
        Uint32PutUint32(|e.command|);
      } else {
        assert log[..4][m] == Encode(f)[0];
        ShiftedLength(log[..4], m);
      }
    }
  }

  lemma EncodeStart(e: Entry)
    ensures |Encode(e)| >= 20 && Encode(e)[..4] == PutUint32(|e.command|)
  {
    hide PutUint32, OrEmpty;
    assert Field(e.command)[..4] == PutUint32(|e.command|);
    assert Encode(e)[..4] == Field(e.command)[..4];
  }

  lemma NotJust(rest: Bytes, buf: Bytes, g: Entry)
    requires |buf| == 4
    requires ReadRecord(rest, buf).Got? ==> |ReadRecord(rest, buf).entry.command| != |g.command|
    ensures LoadFrom(rest, buf) != [g]
  {
    hide ReadRecord;
    assert LoadFrom(rest, buf) == [] || LoadFrom(rest, buf)[0] == ReadRecord(rest, buf).entry;
  }

  /** What a partial record and a stranger after it yield. */
  lemma StrangerTail(es: seq<Entry>, e: Entry, m: nat)
    requires Fits(e) && 0 < m < |Encode(e)|
    ensures var cut, f := Encode(e)[..m], Stranger(e);
            TailOf(es, cut + Encode(f)) != TailOf(es, cut) + [Normal(f)]
  {
    TornIs(e);
    hide *;
    if m + 1 == |Encode(e)| {
      StrangerStart(e);
      TornTail(es, e);
      OverwrittenTail(es, e, Encode(Stranger(e)));
    } else {
      ShortTail(es, e, m);
    }
  }

  lemma ShortTail(es: seq<Entry>, e: Entry, m: nat)
    requires Fits(e) && 0 < m < |Encode(e)| - 1
    ensures var cut, f := Encode(e)[..m], Stranger(e);
            TailOf(es, cut) == [] && TailOf(es, cut + Encode(f)) != [Normal(f)]
  {
    var cut, f, buf := Encode(e)[..m], Stranger(e), BufferAfter(es, Zeros(4));
    hide LoadFrom, ReadRecord, Encode, Torn, Normal, BufferAfter, Stranger, Zeros, Fits;
    StrangerIsMisread(e, m, buf);
    ShortCutStops(e, m, buf);
    LoadStops(cut, buf);
    NormalCommand(f);
    NotJust(cut + Encode(f), buf, Normal(f));
  }

  /** After a cut inside a record, a next command that every server carries out, a SET or a PUSH,
      does not load as itself. */
  lemma MidRecordCutLoses(es: seq<Entry>, e: Entry, m: nat)
    requires AllFit(es) && Fits(e) && 0 < m < |Encode(e)|
    ensures var torn, f := EncodeAll(es) + Encode(e)[..m], Stranger(e);
            Fits(f) && IsCommand(f) && Load(torn + Encode(f)) != Load(torn) + [Normal(f)]
  {
    StrangerIsCommand(e);
    hide *;
    StrangerTail(es, e, m);
    TailLoses(es, Encode(e)[..m], Encode(Stranger(e)), Normal(Stranger(e)));
  }

  /** A tail, extended to something that does not load as one record more. */
  lemma TailLoses(es: seq<Entry>, cut: Bytes, more: Bytes, g: Entry)
    requires AllFit(es) && TailOf(es, cut + more) != TailOf(es, cut) + [g]
    ensures Load(EncodeAll(es) + cut + more) != Load(EncodeAll(es) + cut) + [g]
  {
    hide *;
    LoadWithTail(es, cut);
    LoadWithTail(es, cut + more);
    assert EncodeAll(es) + cut + more == EncodeAll(es) + (cut + more);
    SamePrefix(NormalAll(es), TailOf(es, cut + more), TailOf(es, cut), g);
  }

  lemma NormalCommand(e: Entry)
    ensures |Normal(e).command| == |e.command|
  {
  }

  lemma SamePrefix(s: seq<Entry>, t: seq<Entry>, u: seq<Entry>, x: Entry)
    requires t != u + [x]
    ensures s + t != s + u + [x]
  {
    assert (s + t)[|s|..] == t;
    assert (s + u + [x])[|s|..] == u + [x];
  }

  lemma ShortCutStops(e: Entry, m: nat, buf: Bytes)
    requires Fits(e) && |buf| == 4 && m + 1 < |Encode(e)|
    ensures ReadRecord(Encode(e)[..m], buf) == Stop
  {
    assert (Encode(e) + [])[..m] == Encode(e)[..m];
    ReadCutRecord(e, [], m, buf);
    hide ReadRecord, Encode;
  }

  lemma TornIs(e: Entry)
    ensures |Encode(e)| >= 20 && Torn(e) == Encode(e)[..|Encode(e)| - 1]
  {
    hide Fields;
  }

  /** Appending after a crash, exactly: every next command loads as itself, on top of what was
      recovered, if and only if the cut fell on a record boundary. */
  lemma AppendAfterCutIff(es: seq<Entry>, c: nat)
    requires AllFit(es) && c <= |EncodeAll(es)|
    ensures (forall f :: Fits(f) && IsCommand(f) ==>
               Load(EncodeAll(es)[..c] + Encode(f)) == Load(EncodeAll(es)[..c]) + [Normal(f)])
       <==> OnBoundary(es, c)
  {
    hide Load, Encode, Normal, Fits, IsCommand;
    if OnBoundary(es, c) {
      var k :| 0 <= k <= |es| && c == |EncodeAll(es[..k])|;
      BoundaryPrefix(es, k);
      hide EncodeAll;
      forall f | Fits(f) ensures Load(EncodeAll(es)[..c] + Encode(f)) == Load(EncodeAll(es)[..c]) + [Normal(f)] {
        AppendLaw(es[..k], f);
      }
    } else {
      var k, m := CutPosition(es, c);
      hide EncodeAll, OnBoundary;
      MidRecordCutLoses(es[..k], es[k], m);
    }
  }

  // ------------------------------------------------------------------ a record nobody logged

  /** The bytes of a record up to the length of its value, and of that value's successor fields. */
  function Header(e: Entry): Bytes {
    Field(e.command) + Field(e.key) + PutUint32(|OrEmpty(e.value)|)
  }

  /** A cut right after a value length lets the next record's header be read as that value. If the
      next value then spells an empty offset and the end marker, a record loads. It is never the
      second one, and it is the first only if that one's value already was the second's header. */
  lemma ForgedRecord(e: Entry, f: Entry)
    requires Fits(e) && Fits(f) && |OrEmpty(e.value)| == |Header(f)|
    requires f.value == Some(PutUint32(0) + MARKER)
    ensures Header(e) <= Encode(e)
    ensures var g := Entry(e.command, e.key, Some(Header(f)), None);
            Load(Header(e) + Encode(f)) == [g] &&
            g != Normal(f) && (g == Normal(e) <==> OrEmpty(e.value) == Header(f) && OrEmpty(e.offset) == [])
  {
    var g, tail := Entry(e.command, e.key, Some(Header(f)), None), Field(OrEmpty(f.offset)) + MARKER;
    ForgedBytes(e, f);
    hide Header, Encode, ReadRecord, Field;
    HeaderLength(f);
    LoadOneWhole(g, tail, Zeros(4));
    TailStops(OrEmpty(f.offset), PutUint32(0));
    LoadStops(tail, PutUint32(0));
    assert Normal(g) == g;
    assert [g] + [] == [g];
  }

  lemma HeaderLength(e: Entry)
    ensures |Header(e)| == 12 + |e.command| + |e.key|
  {
  }

  lemma HeaderStart(e: Entry)
    ensures |Header(e)| > 0 && Header(e)[0] == ByteOf(|e.command|)
  {
  }

  function TornSet(): Entry {
    Entry("SET", "k", Some("12345678901234567890"), None)
  }

  function NextSet(): Entry {
    Entry("SET", "abcde", Some(PutUint32(0) + MARKER), None)
  }

  lemma ForgedLengths()
    ensures Fits(TornSet()) && Fits(NextSet())
    ensures |OrEmpty(TornSet().value)| == |Header(NextSet())| && |Header(TornSet())| == 16
  {
    HeaderLength(TornSet());
    HeaderLength(NextSet());
    hide Header, PutUint32;
  }

  /** For instance: SET k to twenty digits, cut after 16 bytes, then SET abcde to an empty length
      and a marker. The reload holds one record, which sets k to bytes of the second header. */
  lemma ForgedSet()
    ensures var g := Entry("SET", "k", Some(Header(NextSet())), None);
            Load(Encode(TornSet())[..16] + Encode(NextSet())) == [g] &&
            g != Normal(TornSet()) && g != Normal(NextSet())
  {
    HeaderStart(NextSet());
    ForgedLengths();
    hide Header, Encode, Load, PutUint32, MARKER;
    assert OrEmpty(TornSet().value)[0] == '1' != Header(NextSet())[0];
    ForgedRecord(TornSet(), NextSet());
    assert Encode(TornSet())[..16] == Header(TornSet());
  }

  lemma EncodeFromHeader(e: Entry)
    ensures Encode(e) == Header(e) + (OrEmpty(e.value) + Field(OrEmpty(e.offset)) + MARKER)
  {
    hide PutUint32, OrEmpty, MARKER;
    var v := OrEmpty(e.value);
    assert Field(v) == PutUint32(|v|) + v;
    hide Field;
  }

  lemma ForgedBytes(e: Entry, f: Entry)
    requires |OrEmpty(e.value)| == |Header(f)| && f.value == Some(PutUint32(0) + MARKER)
    ensures Header(e) <= Encode(e)
    ensures Header(e) + Encode(f)
         == Encode(Entry(e.command, e.key, Some(Header(f)), None)) + (Field(OrEmpty(f.offset)) + MARKER)
  {
    var g := Entry(e.command, e.key, Some(Header(f)), None);
    EncodeFromHeader(e);
    EncodeFromHeader(f);
    EncodeFromHeader(g);
    assert Header(g) == Header(e);
    assert Field([]) == PutUint32(0) + [] == PutUint32(0);
    hide Encode, Header, Field, PutUint32, MARKER;
    Regroup(Header(e), Header(f), PutUint32(0), MARKER, Field(OrEmpty(f.offset)));
  }

  lemma Regroup(g: Bytes, h: Bytes, n: Bytes, m: Bytes, w: Bytes)
    ensures g + (h + (n + m + w + m)) == g + (h + n + m) + (w + m)
  {
    assert h + (n + m + w + m) == h + n + m + (w + m);
  }

  /** What is left over, a field and the marker, is no record: the marker reads as a key length. */
  lemma TailStops(o: Bytes, buf: Bytes)
    requires |o| <= MAXREAD && |buf| == 4
    ensures ReadRecord(Field(o) + MARKER, buf) == Stop
  {
    ReadWholeField(o, MARKER, buf);
    hide Field, PutUint32;
    assert MARKER[..4] == MARKER && MARKER[4..] == [];
    assert ReadFile(MARKER, PutUint32(|o|)) == Read(MARKER, []);
    assert Uint32(MARKER) > 0;
  }
}
