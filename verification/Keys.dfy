/** Locality of commands: a record touches only its own key, so what a key ends up holding depends
    only on the subsequence of records that name it. */
module Keys {
  import opened Bytes
  import opened Decimal
  import opened Requests
  import opened Persistence
  import opened Store
  import opened Commands

  /** Everything a database holds under one key. */
  datatype Cell = Cell(text: Option<Bytes>, deadline: Option<int>, list: Option<seq<Elem>>)

  function At<V>(m: map<Bytes, V>, k: Bytes): Option<V> {
    if k in m then Some(m[k]) else None
  }

  function CellAt(db: Db, k: Bytes): Cell {
    Cell(At(db.store, k), At(db.expiry, k), At(db.lists, k))
  }

  lemma SameCellsSameDb(a: Db, b: Db)
    requires forall k :: CellAt(a, k) == CellAt(b, k)
    ensures a == b
  {
    forall k
      ensures At(a.store, k) == At(b.store, k) && At(a.expiry, k) == At(b.expiry, k) && At(a.lists, k) == At(b.lists, k)
    {
      assert CellAt(a, k) == CellAt(b, k);
    }
    SameAtSameMap(a.store, b.store);
    SameAtSameMap(a.expiry, b.expiry);
    SameAtSameMap(a.lists, b.lists);
  }

  lemma SameAtSameMap<V>(a: map<Bytes, V>, b: map<Bytes, V>)
    requires forall k :: At(a, k) == At(b, k)
    ensures a == b
  {
    forall k ensures k in a <==> k in b {
      assert At(a, k) == At(b, k);
    }
    forall k | k in a ensures a[k] == b[k] {
      assert At(a, k) == At(b, k);
    }
  }

  /** A record whose replay panics: the type assertion on its value or offset fails. */
  predicate Poison(e: Entry) {
    (VerbOf(e.command) == SET && e.value.None?) || (VerbOf(e.command) == INCR && e.offset.None?)
  }

  function Effect(db: Db, e: Entry): Db {
    var next := ReplayOne(db, e);
    if next.Some? then next.value else db
  }

  function Effects(db: Db, es: seq<Entry>): Db {
    if es == [] then db else Effect(Effects(db, es[..|es| - 1]), es[|es| - 1])
  }

  /** The records naming a key, in order. */
  function OnKey(es: seq<Entry>, k: Bytes): seq<Entry> {
    if es == [] then []
    else OnKey(es[..|es| - 1], k) + if es[|es| - 1].key == k then [es[|es| - 1]] else []
  }

  lemma OnKeyAppend(es: seq<Entry>, e: Entry, k: Bytes)
    ensures OnKey(es + [e], k) == if e.key == k then OnKey(es, k) + [e] else OnKey(es, k)
  {
    assert (es + [e])[..|es|] == es;
    assert OnKey(es, k) + [] == OnKey(es, k);
  }

  lemma EffectsAppend(db: Db, es: seq<Entry>, e: Entry)
    ensures Effects(db, es + [e]) == Effect(Effects(db, es), e)
  {
    assert (es + [e])[..|es|] == es;
  }

  /** A record leaves every other key alone. */
  lemma EffectElsewhere(db: Db, e: Entry, k: Bytes)
    requires k != e.key
    ensures CellAt(Effect(db, e), k) == CellAt(db, k)
  {
    hide VerbOf;
  }

  /** What a record leaves under its own key depends only on what was there. */
  lemma EffectAtKey(a: Db, b: Db, e: Entry)
    requires CellAt(a, e.key) == CellAt(b, e.key)
    ensures CellAt(Effect(a, e), e.key) == CellAt(Effect(b, e), e.key)
  {
    var k := e.key;
    SameCell(a, b, k);
    hide VerbOf, Atoi, Incr, Push, Rpop, Lpop;
    match VerbOf(e.command) {
      case INCR =>
        if e.offset.Some? && Atoi(e.offset.value).Some? {
          IncrAtKey(a, b, k, Atoi(e.offset.value).value);
        }
      case PUSH => PushAtKey(a, b, k, e.value);
      case LPOP => PopAtKey(a, b, k);
      case RPOP => PopAtKey(a, b, k);
      case _ =>
    }
  }

  lemma SameCell(a: Db, b: Db, k: Bytes)
    requires CellAt(a, k) == CellAt(b, k)
    ensures (k in a.store <==> k in b.store) && (k in a.store ==> a.store[k] == b.store[k])
    ensures (k in a.lists <==> k in b.lists) && (k in a.lists ==> a.lists[k] == b.lists[k])
  {
  }

  lemma IncrAtKey(a: Db, b: Db, k: Bytes, n: int)
    requires CellAt(a, k) == CellAt(b, k)
    ensures CellAt(Incr(a, k, n).db, k) == CellAt(Incr(b, k, n).db, k)
  {
    SameCell(a, b, k);
    hide Atoi, Itoa, Wrap64;
  }

  lemma PushAtKey(a: Db, b: Db, k: Bytes, x: Elem)
    requires CellAt(a, k) == CellAt(b, k)
    ensures CellAt(Push(a, k, x).db, k) == CellAt(Push(b, k, x).db, k)
  {
    SameCell(a, b, k);
  }

  lemma PopAtKey(a: Db, b: Db, k: Bytes)
    requires CellAt(a, k) == CellAt(b, k)
    ensures CellAt(Lpop(a, k).db, k) == CellAt(Lpop(b, k).db, k)
    ensures CellAt(Rpop(a, k).db, k) == CellAt(Rpop(b, k).db, k)
  {
    SameCell(a, b, k);
  }

  /** Projection: the final contents of a key are those of the subsequence naming it. */
  lemma {:induction false} Projection(db: Db, es: seq<Entry>, k: Bytes)
    ensures CellAt(Effects(db, es), k) == CellAt(Effects(db, OnKey(es, k)), k)
  {
    if es != [] {
      var init, e := es[..|es| - 1], es[|es| - 1];
      Projection(db, init, k);
      hide Effect, CellAt;
      if e.key == k {
        EffectAtKey(Effects(db, init), Effects(db, OnKey(init, k)), e);
        EffectsAppend(db, OnKey(init, k), e);
      } else {
        EffectElsewhere(Effects(db, init), e, k);
        assert OnKey(init, k) + [] == OnKey(init, k);
      }
    }
  }

  /** Two histories that agree key by key leave the same database, however they interleave. */
  lemma SameOnEveryKey(db: Db, es: seq<Entry>, fs: seq<Entry>)
    requires forall k :: OnKey(es, k) == OnKey(fs, k)
    ensures Effects(db, es) == Effects(db, fs)
  {
    hide Effects, OnKey, CellAt;
    forall k ensures CellAt(Effects(db, es), k) == CellAt(Effects(db, fs), k) {
      Projection(db, es, k);
      Projection(db, fs, k);
    }
    SameCellsSameDb(Effects(db, es), Effects(db, fs));
  }

  lemma {:induction false} RebuildAppend(db: Db, es: seq<Entry>, e: Entry)
    ensures Rebuild(db, es + [e]) == if Rebuild(db, es).None? then None else ReplayOne(Rebuild(db, es).value, e)
    decreases |es|
  {
    hide ReplayOne;
    if es == [] {
      assert es + [e] == [e] && [e][1..] == [];
    } else {
      assert (es + [e])[1..] == es[1..] + [e];
      if ReplayOne(db, es[0]).Some? {
        RebuildAppend(ReplayOne(db, es[0]).value, es[1..], e);
      }
    }
  }

  /** Without poison, rebuilding is the composition of the records' effects. */
  lemma {:induction false} RebuildIsEffects(es: seq<Entry>)
    requires forall i :: 0 <= i < |es| ==> !Poison(es[i])
    ensures Rebuild(EMPTY, es) == Some(Effects(EMPTY, es))
  {
    hide Poison, ReplayOne;
    if es != [] {
      var init, e := es[..|es| - 1], es[|es| - 1];
      RebuildIsEffects(init);
      assert init + [e] == es;
      RebuildAppend(EMPTY, init, e);
      PoisonPanics(Effects(EMPTY, init), e);
    }
  }

  /** A restart panics exactly when the log holds a poisoned record. */
  lemma {:induction false} RebuildPanicsIff(db: Db, es: seq<Entry>)
    ensures Rebuild(db, es).None? <==> exists i :: 0 <= i < |es| && Poison(es[i])
    decreases |es|
  {
    if es != [] {
      PoisonPanics(db, es[0]);
      hide Poison, ReplayOne;
      if ReplayOne(db, es[0]).Some? {
        RebuildPanicsIff(ReplayOne(db, es[0]).value, es[1..]);
        if i :| 0 <= i < |es| && Poison(es[i]) {
          assert es[1..][i - 1] == es[i];
        }
        if i :| 0 <= i < |es[1..]| && Poison(es[1..][i]) {
          assert es[i + 1] == es[1..][i];
        }
      }
    }
  }

  lemma PoisonPanics(db: Db, e: Entry)
    ensures ReplayOne(db, e).None? <==> Poison(e)
  {
    hide VerbOf;
  }
}
