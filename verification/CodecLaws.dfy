/** Laws of the binary log: what the loader makes of an intact log, of a log cut at any byte, and
    of what follows an intact part. */
module CodecLaws {
  import opened Bytes
  import opened Requests
  import opened Persistence

  // ------------------------------------------------------------------ one field

  /** A read that Go does not cut. */
  lemma ReadSmall(rest: Bytes, into: Bytes)
    requires |into| <= MAXREAD
    ensures ReadFile(rest, into) ==
      if into == [] then Read([], rest)
      else if rest == [] then Eof
      else if |rest| < |into| then Read(rest + into[|rest|..], [])
      else Read(rest[..|into|], rest[|into|..])
  {
  }

  lemma ReadWholeField(s: Bytes, post: Bytes, buf: Bytes)
    requires |s| <= MAXREAD && |buf| == 4
    ensures ReadField(Field(s) + post, buf) == GotField(s, post, PutUint32(|s|))
  {
    hide Uint32, PutUint32, Zeros;
    var len := PutUint32(|s|);
    Uint32PutUint32(|s|);
    ReadSmall(Field(s) + post, buf);
    ReadSmall(s + post, Zeros(|s|));
    hide ReadFile;
    assert Field(s) + post == len + (s + post);
    assert (len + (s + post))[..4] == len && (len + (s + post))[4..] == s + post;
    assert (s + post)[..|s|] == s && (s + post)[|s|..] == post;
  }

  /** A longer field would not be recovered: its end reads as zeros and is taken for the next field.
      The server keeps clear of it, because it takes at most 1024 bytes for a request. */
  lemma ReadLongField(s: Bytes, post: Bytes, buf: Bytes)
    requires 1_073_741_824 < |s| < WORD && |buf| == 4
    ensures ReadField(Field(s) + post, buf)
         == GotField(s[..1_073_741_824] + Zeros(|s| - 1_073_741_824), s[1_073_741_824..] + post, PutUint32(|s|))
  {
    hide Uint32, PutUint32;
    var len := PutUint32(|s|);
    Uint32PutUint32(|s|);
    ReadSmall(Field(s) + post, buf);
    assert Field(s) + post == len + (s + post);
    assert (len + (s + post))[..4] == len && (len + (s + post))[4..] == s + post;
    assert (s + post)[..MAXREAD] == s[..MAXREAD] && (s + post)[MAXREAD..] == s[MAXREAD..] + post;
    assert Zeros(|s|)[MAXREAD..] == Zeros(|s| - MAXREAD);
  }

  /** A field cut short is either refused or leaves nothing to read. */
  lemma ReadCutField(s: Bytes, m: nat, buf: Bytes)
    requires |s| <= MAXREAD && |buf| == 4 && m < |Field(s)|
    ensures var r := ReadField(Field(s)[..m], buf); r.GotField? ==> r.rest == []
  {
    hide Uint32, PutUint32, Zeros;
    var len := PutUint32(|s|);
    Uint32PutUint32(|s|);
    ReadSmall(Field(s)[..m], buf);
    if m >= 4 {
      ReadSmall(s[..m - 4], Zeros(|s|));
      var cut := Field(s)[..m];
      assert cut == len + s[..m - 4];
      assert cut[..4] == len && cut[4..] == s[..m - 4];
      assert |Zeros(|s|)| == |s|;
    }
  }

  /** At the end of the file no further field and no end marker can be read. */
  lemma ReadAtEnd()
    ensures forall buf :: |buf| == 4 ==> ReadField([], buf) == NoField
    ensures ReadFile([], Zeros(4)) == Eof
  {
  }

  // ------------------------------------------------------------------ one record

  /** The four fields, grouped from the right so that each read peels one field off. */
  lemma FieldsFromRight(e: Entry, t: Bytes)
    ensures Fields(e) + t
         == Field(e.command) + (Field(e.key) + (Field(OrEmpty(e.value)) + (Field(OrEmpty(e.offset)) + t)))
    ensures |Fields(e)| == |Field(e.command)| + |Field(e.key)| + |Field(OrEmpty(e.value))| + |Field(OrEmpty(e.offset))|
  {
    hide Field, OrEmpty;
  }

  /** Three bytes of the marker are enough: the fourth is the zero already in the fresh slice. */
  lemma ReadMarker(post: Bytes, m: nat)
    requires m <= 4 + |post|
    ensures var r := ReadFile((MARKER + post)[..m], Zeros(4));
            if 3 <= m then r == Read(MARKER, if m == 3 then [] else post[..m - 4])
            else r.Eof? || r.data != MARKER
  {
    var cut := (MARKER + post)[..m];
    if 4 <= m {
      assert cut == MARKER + post[..m - 4];
      assert cut[..4] == MARKER;
      assert cut[4..] == post[..m - 4];
    } else if 0 < m {
      assert cut == MARKER[..m];
      var data := cut + Zeros(4)[m..];
      assert |data| == 4 && data[3] == ZERO;
      if m == 3 {
        assert data == MARKER;
      } else {
        assert data[2] == ZERO != MARKER[2];
      }
    }
  }

  /** Reading one field of an encoding that continues with t and was cut after m bytes. */
  lemma ReadNextField(s: Bytes, t: Bytes, m: nat, buf: Bytes)
    requires |s| <= MAXREAD && |buf| == 4 && m <= |Field(s)| + |t|
    ensures var r := ReadField((Field(s) + t)[..m], buf);
            if |Field(s)| <= m then r == GotField(s, t[..m - |Field(s)|], PutUint32(|s|))
            else r.GotField? ==> r.rest == []
  {
    hide ReadField, Field;
    var f := Field(s);
    if |f| <= m {
      assert (f + t)[..m] == f + t[..m - |f|];
      ReadWholeField(s, t[..m - |f|], buf);
    } else {
      assert (f + t)[..m] == f[..m];
      ReadCutField(s, m, buf);
    }
  }

  /** What the loader does once the four fields of e have been read. */
  function Finish(e: Entry, rest: Bytes): RecordResult {
    var m := ReadFile(rest, Zeros(4));
    if m.Eof? || m.data != MARKER then Stop else Got(Normal(e), m.rest, PutUint32(|OrEmpty(e.offset)|))
  }

  /** A record without its last byte. */
  function Torn(e: Entry): Bytes {
    Encode(e)[..|Encode(e)| - 1]
  }

  lemma ReadFourFields(e: Entry, t: Bytes, m: nat, buf: Bytes)
    requires Fits(e) && |buf| == 4
    requires m <= |Fields(e)| + |t|
    ensures ReadRecord((Fields(e) + t)[..m], buf)
         == if m < |Fields(e)| then Stop else Finish(e, t[..m - |Fields(e)|])
  {
    FieldsFromRight(e, t);
    hide Fields, ReadField, Field, ReadFile, PutUint32, MARKER, OrEmpty;
    ReadAtEnd();
    var c, k, t2 := e.command, e.key, Field(OrEmpty(e.value)) + (Field(OrEmpty(e.offset)) + t);
    ReadNextField(c, Field(k) + t2, m, buf);
    if |Field(c)| <= m {
      var m1 := m - |Field(c)|;
      ReadNextField(k, t2, m1, PutUint32(|c|));
      if |Field(k)| <= m1 {
        ReadTwoFields(OrEmpty(e.value), OrEmpty(e.offset), t, m1 - |Field(k)|, PutUint32(|k|));
      }
    }
  }

  /** The value and the offset, read one after the other. */
  lemma ReadTwoFields(v: Bytes, o: Bytes, t: Bytes, m: nat, buf: Bytes)
    requires |v| <= MAXREAD && |o| <= MAXREAD && |buf| == 4 && m <= |Field(v)| + |Field(o)| + |t|
    ensures var r := ReadField((Field(v) + (Field(o) + t))[..m], buf);
            if m < |Field(v)| then r.GotField? ==> r.rest == []
            else
              r.GotField? && r.data == v &&
              var s := ReadField(r.rest, r.buf);
              if m < |Field(v)| + |Field(o)| then s.GotField? ==> s.rest == []
              else s == GotField(o, t[..m - |Field(v)| - |Field(o)|], PutUint32(|o|))
  {
    hide ReadField, Field, PutUint32;
    ReadNextField(v, Field(o) + t, m, buf);
    if |Field(v)| <= m {
      ReadNextField(o, t, m - |Field(v)|, PutUint32(|v|));
    }
  }

  /** A record that is whole except possibly for its last byte loads; a shorter one does not. */
  lemma ReadCutRecord(e: Entry, post: Bytes, m: nat, buf: Bytes)
    requires Fits(e) && |buf| == 4
    requires m <= |Encode(e)| + |post|
    ensures ReadRecord((Encode(e) + post)[..m], buf)
         == if m + 1 < |Encode(e)| then Stop
            else Got(Normal(e), if m < |Encode(e)| then [] else post[..m - |Encode(e)|], PutUint32(|OrEmpty(e.offset)|))
  {
    assert Encode(e) + post == Fields(e) + (MARKER + post);
    hide ReadRecord, Fields, PutUint32, Fits, OrEmpty;
    ReadFourFields(e, MARKER + post, m, buf);
    if |Fields(e)| <= m {
      ReadMarker(post, m - |Fields(e)|);
    }
  }

  /** A record that lacks its last byte is lost as soon as anything else follows it. */
  lemma ReadOverwrittenMarker(e: Entry, post: Bytes, buf: Bytes)
    requires Fits(e) && |buf| == 4 && post != [] && post[0] != ZERO
    ensures ReadRecord(Torn(e) + post, buf) == Stop
  {
    hide ReadRecord, Fields, PutUint32, Fits, OrEmpty;
    var t := MARKER[..3] + post;
    var log := Fields(e) + t;
    assert Torn(e) + post == log == log[..|log|];
    ReadFourFields(e, t, |log|, buf);
    ReadSmall(t, Zeros(4));
    assert t[..|t|] == t && t[..4][3] == post[0];
  }

  // ------------------------------------------------------------------ whole logs

  lemma {:induction false} EncodeAllAppend(es: seq<Entry>, fs: seq<Entry>)
    ensures EncodeAll(es + fs) == EncodeAll(es) + EncodeAll(fs)
  {
    if es == [] {
      assert es + fs == fs;
    } else {
      assert (es + fs)[1..] == es[1..] + fs;
      EncodeAllAppend(es[1..], fs);
    }
  }

  lemma EncodeAllNone()
    ensures EncodeAll([]) == []
  {
  }

  lemma EncodeAllOne(e: Entry)
    ensures EncodeAll([e]) == Encode(e)
  {
  }

  /** How many leading records of es are whole, up to a missing last byte, in the first c bytes. */
  function Survivors(es: seq<Entry>, c: nat): (k: nat)
    ensures k <= |es|
  {
    if es == [] || c + 1 < |Encode(es[0])| then 0
    else if c < |Encode(es[0])| then 1
    else 1 + Survivors(es[1..], c - |Encode(es[0])|)
  }

  lemma EncodeAllLast(es: seq<Entry>, e: Entry)
    ensures EncodeAll(es + [e]) == EncodeAll(es) + Encode(e)
  {
    EncodeAllAppend(es, [e]);
    EncodeAllOne(e);
  }

  lemma NormalAllLast(es: seq<Entry>, e: Entry)
    ensures NormalAll(es + [e]) == NormalAll(es) + [Normal(e)]
  {
  }

  lemma EncodeTake(es: seq<Entry>, k: nat)
    requires 0 < k <= |es|
    ensures |EncodeAll(es[..k])| == |Encode(es[0])| + |EncodeAll(es[1..][..k - 1])|
    ensures 1 < k ==> 0 < |es[1..][..k - 1]| && |EncodeAll(es[1..][..k - 1])| >= 20
  {
    hide Encode;
    assert es[..k][1..] == es[1..][..k - 1];
  }

  /** Survivors is the largest k whose k-record encoding has at most c + 1 bytes. */
  lemma {:induction false} SurvivorsIsLargest(es: seq<Entry>, c: nat, k: nat)
    requires k <= |es|
    ensures k <= Survivors(es, c) <==> k == 0 || |EncodeAll(es[..k])| <= c + 1
  {
    hide Encode, EncodeAll;
    if k > 0 {
      EncodeTake(es, k);
      if c >= |Encode(es[0])| {
        SurvivorsIsLargest(es[1..], c - |Encode(es[0])|, k - 1);
      }
      assert es[1..][..0] == [];
      EncodeAllNone();
    }
  }

  /** Torn-log recovery: cut the encoding of any records after any c bytes, and the loader returns
      exactly the normalised records that survive the cut. */
  lemma {:induction false} LoadCutFrom(es: seq<Entry>, c: nat, buf: Bytes)
    requires AllFit(es) && |buf| == 4 && c <= |EncodeAll(es)|
    ensures LoadFrom(EncodeAll(es)[..c], buf) == NormalAll(es[..Survivors(es, c)])
  {
    hide ReadRecord, Encode, PutUint32, Fits;
    if es != [] {
      var rest := EncodeAll(es[1..]);
      ReadCutRecord(es[0], rest, c, buf);
      if |Encode(es[0])| <= c {
        var buf' := PutUint32(|OrEmpty(es[0].offset)|);
        LoadCutFrom(es[1..], c - |Encode(es[0])|, buf');
      }
    }
  }

  lemma TornLog(es: seq<Entry>, c: nat, k: nat)
    requires AllFit(es) && c <= |EncodeAll(es)|
    requires k <= |es| && (k == 0 || |EncodeAll(es[..k])| <= c + 1)
    requires k == |es| || c + 1 < |EncodeAll(es[..k + 1])|
    ensures Load(EncodeAll(es)[..c]) == NormalAll(es[..k])
  {
    hide LoadFrom, EncodeAll, Survivors, Zeros;
    LoadCutFrom(es, c, Zeros(4));
    SurvivorsIsLargest(es, c, k);
    if k < |es| {
      SurvivorsIsLargest(es, c, k + 1);
    }
  }

  /** An intact log loads completely. */
  lemma LoadIntact(es: seq<Entry>)
    requires AllFit(es)
    ensures Load(EncodeAll(es)) == NormalAll(es)
  {
    var log := EncodeAll(es);
    assert es[..|es|] == es && log[..|log|] == log;
    TornLog(es, |log|, |es|);
  }

  /** Appending a record to an intact log appends exactly that record to what loads, whatever
      bytes, markers included, its fields hold. */
  lemma AppendLaw(es: seq<Entry>, e: Entry)
    requires AllFit(es) && Fits(e)
    ensures Load(EncodeAll(es) + Encode(e)) == Load(EncodeAll(es)) + [Normal(e)]
  {
    hide EncodeAll, Encode, Load, Normal;
    EncodeAllLast(es, e);
    LoadIntact(es);
    LoadIntact(es + [e]);
  }

  /** Encodings are uniquely decodable: the first record and the bytes after it are determined. */
  lemma UniqueFirstRecord(e: Entry, f: Entry, post: Bytes, post': Bytes)
    requires Fits(e) && Fits(f) && Encode(e) + post == Encode(f) + post'
    ensures Normal(e) == Normal(f) && post == post'
  {
    hide ReadRecord, Encode;
    var log := Encode(e) + post;
    assert log[..|log|] == log;
    ReadCutRecord(e, post, |log|, Zeros(4));
    ReadCutRecord(f, post', |log|, Zeros(4));
  }

  /** Prefix-free, and injective up to identifying an empty optional field with an absent one. */
  lemma PrefixFreeAndInjective(e: Entry, f: Entry)
    requires Fits(e) && Fits(f)
    ensures Encode(e) <= Encode(f) <==> Normal(e) == Normal(f)
    ensures Encode(e) == Encode(f) <==> Normal(e) == Normal(f)
  {
    if Encode(e) <= Encode(f) {
      hide Encode;
      var post := Encode(f)[|Encode(e)|..];
      assert Encode(e) + post == Encode(f) + [];
      UniqueFirstRecord(e, f, post, []);
    }
    if Normal(e) == Normal(f) {
      assert OrEmpty(e.value) == OrEmpty(Normal(e).value) && OrEmpty(e.offset) == OrEmpty(Normal(e).offset);
    }
  }

  lemma LogDeterminesRecords(es: seq<Entry>, fs: seq<Entry>)
    requires AllFit(es) && AllFit(fs)
    ensures EncodeAll(es) == EncodeAll(fs) ==> NormalAll(es) == NormalAll(fs)
  {
    LoadIntact(es);
    LoadIntact(fs);
  }

  /** The reused length buffer after the loader has read es. */
  function BufferAfter(es: seq<Entry>, buf: Bytes): (b: Bytes)
    requires |buf| == 4
    ensures |b| == 4
  {
    if es == [] then buf else BufferAfter(es[1..], PutUint32(|OrEmpty(es[0].offset)|))
  }

  lemma NormalAllFirst(es: seq<Entry>)
    requires es != []
    ensures NormalAll(es) == [Normal(es[0])] + NormalAll(es[1..])
  {
  }

  lemma LoadOneWhole(e: Entry, post: Bytes, buf: Bytes)
    requires Fits(e) && |buf| == 4
    ensures LoadFrom(Encode(e) + post, buf) == [Normal(e)] + LoadFrom(post, PutUint32(|OrEmpty(e.offset)|))
  {
    hide ReadRecord, Encode, PutUint32, Fits, Normal, OrEmpty;
    var log := Encode(e) + post;
    assert log == log[..|log|] && post == post[..|post|];
    ReadCutRecord(e, post, |log|, buf);
  }

  lemma {:induction false} LoadPastIntact(es: seq<Entry>, tail: Bytes, buf: Bytes)
    requires AllFit(es) && |buf| == 4
    ensures LoadFrom(EncodeAll(es) + tail, buf) == NormalAll(es) + LoadFrom(tail, BufferAfter(es, buf))
  {
    hide LoadFrom, Encode, PutUint32, Fits, NormalAll, Normal, OrEmpty;
    if es == [] {
      assert EncodeAll(es) + tail == tail;
    } else {
      var post := EncodeAll(es[1..]) + tail;
      assert EncodeAll(es) + tail == Encode(es[0]) + post;
      LoadOneWhole(es[0], post, buf);
      LoadPastIntact(es[1..], tail, PutUint32(|OrEmpty(es[0].offset)|));
      NormalAllFirst(es);
    }
  }

  lemma LoadStops(rest: Bytes, buf: Bytes)
    requires |buf| == 4 && ReadRecord(rest, buf) == Stop
    ensures LoadFrom(rest, buf) == []
  {
  }

  lemma NothingLoadsAtEnd(buf: Bytes)
    requires |buf| == 4
    ensures LoadFrom([], buf) == []
  {
  }

  lemma LoadOneCut(e: Entry, buf: Bytes)
    requires Fits(e) && |buf| == 4
    ensures LoadFrom(Torn(e), buf) == [Normal(e)]
  {
    hide ReadRecord, Encode, PutUint32, Fits, Normal, OrEmpty;
    var cut := Torn(e);
    assert (Encode(e) + [])[..|Encode(e)| - 1] == cut;
    ReadCutRecord(e, [], |Encode(e)| - 1, buf);
    NothingLoadsAtEnd(PutUint32(|OrEmpty(e.offset)|));
  }

  /** What loads from an intact log with a tail: its records, then whatever the tail yields. */
  function TailOf(es: seq<Entry>, tail: Bytes): seq<Entry> {
    LoadFrom(tail, BufferAfter(es, Zeros(4)))
  }

  lemma LoadWithTail(es: seq<Entry>, tail: Bytes)
    requires AllFit(es)
    ensures Load(EncodeAll(es) + tail) == NormalAll(es) + TailOf(es, tail)
  {
    hide LoadFrom, EncodeAll, NormalAll, BufferAfter, Zeros;
    LoadPastIntact(es, tail, Zeros(4));
  }

  lemma TornTail(es: seq<Entry>, e: Entry)
    requires Fits(e)
    ensures TailOf(es, Torn(e)) == [Normal(e)]
  {
    hide LoadFrom, Torn, Normal, BufferAfter;
    LoadOneCut(e, BufferAfter(es, Zeros(4)));
  }

  lemma OverwrittenTail(es: seq<Entry>, e: Entry, post: Bytes)
    requires Fits(e) && post != [] && post[0] != ZERO
    ensures TailOf(es, Torn(e) + post) == []
  {
    hide LoadFrom, Torn, BufferAfter;
    ReadOverwrittenMarker(e, post, BufferAfter(es, Zeros(4)));
    LoadStops(Torn(e) + post, BufferAfter(es, Zeros(4)));
  }

  /** The log is not repaired after a cut: a record that lost only its last byte still loads, but
      it and everything after it stop loading once the server appends its next command. */
  lemma AppendAfterCutLoses(es: seq<Entry>, e: Entry, f: Entry, post: Bytes)
    requires AllFit(es) && Fits(e) && 0 < |f.command| < 256
    ensures Load(EncodeAll(es) + Torn(e)) == NormalAll(es) + [Normal(e)]
    ensures Load(EncodeAll(es) + (Torn(e) + (Encode(f) + post))) == NormalAll(es)
  {
    FirstByteIsLength(f, post);
    hide *;
    TornTail(es, e);
    LoadWithTail(es, Torn(e));
    OverwrittenTail(es, e, Encode(f) + post);
    LoadWithTail(es, Torn(e) + (Encode(f) + post));
    assert NormalAll(es) + [] == NormalAll(es);
  }

  lemma FirstByteIsLength(f: Entry, post: Bytes)
    requires 0 < |f.command| < 256
    ensures Encode(f) + post != [] && (Encode(f) + post)[0] != ZERO
  {
    hide OrEmpty;
    assert Field(f.command)[0] == ByteOf(|f.command|);
  }

  /** The bytes of one record, spelled out. */
  lemma RecordBytes(k: Byte, v: Byte)
    ensures Encode(Entry("SET", [k], Some([v]), None))
         == [ '\U{3}', ZERO, ZERO, ZERO, 'S', 'E', 'T', '\U{1}', ZERO, ZERO, ZERO, k,
              '\U{1}', ZERO, ZERO, ZERO, v, ZERO, ZERO, ZERO, ZERO, 'E', 'O', 'F', ZERO ]
  {
  }
}
