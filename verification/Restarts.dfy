/** What a restart makes of logged words: the five write words replay exactly as written, in upper
    case, and only so. */
module Restarts {
  import opened Bytes
  import opened Decimal
  import opened Requests
  import opened Persistence
  import opened Store
  import opened Commands
  import opened Service

  lemma {:induction false} RebuildBoth(db: Db, es: seq<Entry>, fs: seq<Entry>)
    ensures Rebuild(db, es + fs) == if Rebuild(db, es).None? then None else Rebuild(Rebuild(db, es).value, fs)
    decreases |es|
  {
    hide ReplayOne;
    if es == [] {
      assert es + fs == fs;
    } else {
      assert (es + fs)[1..] == es[1..] + fs;
      if ReplayOne(db, es[0]).Some? {
        RebuildBoth(ReplayOne(db, es[0]).value, es[1..], fs);
      }
    }
  }

  // ------------------------------------------------------------------ lists

  function Pushed(k: Bytes, items: seq<Bytes>): seq<Entry> {
    seq(|items|, i requires 0 <= i < |items| => Entry("PUSH", k, Some(items[i]), None))
  }

  function Popped(k: Bytes, left: bool, n: nat): seq<Entry> {
    seq(n, _ => Entry(if left then "LPOP" else "RPOP", k, None, None))
  }

  /** The database with this list under k. */
  function WithList(db: Db, k: Bytes, l: seq<Elem>): Db {
    db.(lists := db.lists[k := l])
  }

  lemma WithListTwice(db: Db, k: Bytes, l: seq<Elem>, m: seq<Elem>)
    ensures WithList(WithList(db, k, l), k, m) == WithList(db, k, m) && ListAt(WithList(db, k, l), k) == l
    ensures k in WithList(db, k, l).lists
    ensures k in db.lists && l == db.lists[k] ==> WithList(db, k, l) == db
  {
  }

  lemma ReplayPush(db: Db, k: Bytes, v: Bytes)
    requires k != []
    ensures ReplayOne(db, Entry("PUSH", k, Some(v), None)) == Some(WithList(db, k, ListAt(db, k) + [Some(v)]))
  {
  }

  lemma ReplayPop(db: Db, k: Bytes, left: bool)
    requires k != [] && k in db.lists && ListAt(db, k) != []
    ensures var l := ListAt(db, k);
            ReplayOne(db, Entry(if left then "LPOP" else "RPOP", k, None, None))
              == Some(WithList(db, k, if left then l[1..] else l[..|l| - 1]))
  {
  }

  lemma {:induction false} ReplayPushes(db: Db, k: Bytes, items: seq<Bytes>)
    requires k != [] && items != []
    ensures Rebuild(db, Pushed(k, items)) == Some(WithList(db, k, ListAt(db, k) + Items(items)))
    decreases |items|
  {
    var l := ListAt(db, k);
    var next, rest := WithList(db, k, l + [Some(items[0])]), Pushed(k, items[1..]);
    assert Pushed(k, items)[0] == Entry("PUSH", k, Some(items[0]), None) && Pushed(k, items)[1..] == rest;
    assert l + [Some(items[0])] + Items(items[1..]) == l + Items(items);
    ReplayPush(db, k, items[0]);
    WithListTwice(db, k, l + [Some(items[0])], l + Items(items));
    hide ReplayOne, WithList, ListAt, Pushed;
    if |items| > 1 {
      ReplayPushes(next, k, items[1..]);
    } else {
      assert rest == [] && l + [Some(items[0])] == l + Items(items);
    }
  }

  lemma PoppedFirst(k: Bytes, left: bool, n: nat)
    requires n > 0
    ensures |Popped(k, left, n)| == n
    ensures Popped(k, left, n)[0] == Entry(if left then "LPOP" else "RPOP", k, None, None)
    ensures Popped(k, left, n)[1..] == Popped(k, left, n - 1)
  {
  }

  lemma Shorter(l: seq<Elem>, left: bool, n: nat)
    requires 0 < n <= |l|
    ensures left ==> l[n..] == l[1..][n - 1..]
    ensures !left ==> l[..|l| - n] == l[..|l| - 1][..|l| - n]
  {
  }

  lemma NothingPopped(k: Bytes, left: bool)
    ensures Popped(k, left, 0) == []
  {
  }

  lemma HeldIs(db: Db, k: Bytes)
    requires k in db.lists
    ensures db.lists[k] == ListAt(db, k)
  {
  }

  lemma {:induction false} ReplayPops(db: Db, k: Bytes, left: bool, n: nat)
    requires k != [] && k in db.lists && n <= |ListAt(db, k)|
    ensures var l := ListAt(db, k);
            Rebuild(db, Popped(k, left, n)) == Some(WithList(db, k, if left then l[n..] else l[..|l| - n]))
    decreases n
  {
    hide ReplayOne, WithList, ListAt, Popped;
    var l := ListAt(db, k);
    var end := if left then l[n..] else l[..|l| - n];
    if n == 0 {
      HeldIs(db, k);
      WithListTwice(db, k, db.lists[k], l);
      NothingPopped(k, left);
      assert end == l && Rebuild(db, []) == Some(db);
    } else {
      var shorter := if left then l[1..] else l[..|l| - 1];
      Shorter(l, left, n);
      PoppedFirst(k, left, n);
      ReplayPop(db, k, left);
      WithListTwice(db, k, shorter, end);
      ReplayPops(WithList(db, k, shorter), k, left, n - 1);
    }
  }

  lemma QueueLeft(k: Bytes, items: seq<Bytes>, p: nat, q: nat)
    requires p + q <= |items|
    ensures Items(items)[p..][..|items| - p - q] == Items(items[p..|items| - q])
    ensures WithList(EMPTY, k, Items(items[p..|items| - q])) == EMPTY.(lists := map[k := Items(items[p..|items| - q])])
    ensures ListAt(EMPTY, k) + Items(items) == Items(items)
  {
  }

  /** A list after a restart: what was pushed under a new key, without the first p and the last q, for p
      records LPOP and q records RPOP. */
  lemma ReplayedQueue(k: Bytes, items: seq<Bytes>, p: nat, q: nat)
    requires k != [] && items != [] && p + q <= |items|
    ensures Rebuild(EMPTY, Pushed(k, items) + Popped(k, true, p) + Popped(k, false, q))
         == Some(EMPTY.(lists := map[k := Items(items[p..|items| - q])]))
  {
    hide *;
    var all, end := Items(items), Items(items[p..|items| - q]);
    QueueLeft(k, items, p, q);
    RebuildBoth(EMPTY, Pushed(k, items) + Popped(k, true, p), Popped(k, false, q));
    RebuildBoth(EMPTY, Pushed(k, items), Popped(k, true, p));
    ReplayPushes(EMPTY, k, items);
    WithListTwice(EMPTY, k, all, all[p..]);
    ReplayPops(WithList(EMPTY, k, all), k, true, p);
    WithListTwice(EMPTY, k, all[p..], end);
    ReplayPops(WithList(EMPTY, k, all[p..]), k, false, q);
  }

  // ------------------------------------------------------------------ texts

  function Incremented(k: Bytes, offsets: seq<Long>): seq<Entry> {
    seq(|offsets|, i requires 0 <= i < |offsets| => Entry("INCR", k, None, Some(Itoa(offsets[i]))))
  }

  function Sum(offsets: seq<Long>): int {
    if offsets == [] then 0 else offsets[0] + Sum(offsets[1..])
  }

  /** The database with the decimal text of this integer, in 64 bits, under k. */
  function WithNumber(db: Db, k: Bytes, n: int): Db {
    db.(store := db.store[k := Itoa(Wrap64(n))])
  }

  lemma WithNumberTwice(db: Db, k: Bytes, m: int, n: int)
    ensures WithNumber(WithNumber(db, k, m), k, n) == WithNumber(db, k, n) && k in WithNumber(db, k, m).store
    ensures Atoi(WithNumber(db, k, m).store[k]) == Some(Wrap64(m))
  {
    AtoiItoa(Wrap64(m));
    hide Atoi, Itoa, Wrap64;
  }

  lemma ReplaySet(db: Db, k: Bytes, v: Bytes)
    requires k != [] && v != []
    ensures ReplayOne(db, Entry("SET", k, Some(v), None)) == Some(db.(store := db.store[k := v]))
  {
  }

  lemma ReplayIncr(db: Db, k: Bytes, t: int, n: Long)
    requires k != [] && k in db.store && Atoi(db.store[k]) == Some(t)
    ensures ReplayOne(db, Entry("INCR", k, None, Some(Itoa(n)))) == Some(WithNumber(db, k, t + n))
  {
    AtoiItoa(n);
    ReplayIncrText(db, k, t, Itoa(n), n);
  }

  lemma ReplayIncrText(db: Db, k: Bytes, t: int, text: Bytes, n: int)
    requires k != [] && k in db.store && Atoi(db.store[k]) == Some(t) && Atoi(text) == Some(n)
    ensures ReplayOne(db, Entry("INCR", k, None, Some(text))) == Some(WithNumber(db, k, t + n))
  {
    hide Atoi, Itoa, Wrap64;
  }

  lemma {:induction false} ReplayIncrs(db: Db, k: Bytes, t: int, offsets: seq<Long>)
    requires k != [] && k in db.store && Atoi(db.store[k]) == Some(t) && offsets != []
    ensures Rebuild(db, Incremented(k, offsets)) == Some(WithNumber(db, k, t + Sum(offsets)))
    decreases |offsets|
  {
    hide ReplayOne, Atoi, Itoa, Wrap64, WithNumber;
    var n, rest := offsets[0], offsets[1..];
    assert Incremented(k, offsets)[0] == Entry("INCR", k, None, Some(Itoa(n)));
    assert Incremented(k, offsets)[1..] == Incremented(k, rest);
    ReplayIncr(db, k, t, n);
    WithNumberTwice(db, k, t + n, Wrap64(t + n) + Sum(rest));
    if rest != [] {
      ReplayIncrs(WithNumber(db, k, t + n), k, Wrap64(t + n), rest);
      SameNumber(db, k, t + n, Sum(rest));
      assert t + n + Sum(rest) == t + Sum(offsets);
    } else {
      assert Incremented(k, rest) == [];
    }
  }

  lemma SameNumber(db: Db, k: Bytes, m: int, n: int)
    ensures WithNumber(db, k, Wrap64(m) + n) == WithNumber(db, k, m + n)
  {
    WrapAdd(m, n);
    hide Itoa;
  }

  /** A text after a restart: what the record SET holds, or its integer plus the offsets of the records
      INCR after it. */
  lemma ReplayedCounter(k: Bytes, v: Bytes, offsets: seq<Long>)
    requires k != [] && v != []
    ensures Rebuild(EMPTY, [Entry("SET", k, Some(v), None)]) == Some(EMPTY.(store := map[k := v]))
    ensures Atoi(v).Some? && offsets != [] ==>
      Rebuild(EMPTY, [Entry("SET", k, Some(v), None)] + Incremented(k, offsets))
        == Some(EMPTY.(store := map[k := Itoa(Wrap64(Atoi(v).value + Sum(offsets)))]))
  {
    hide *;
    var held := EMPTY.(store := map[k := v]);
    ReplayedSet(k, v);
    if Atoi(v).Some? && offsets != [] {
      RebuildBoth(EMPTY, [Entry("SET", k, Some(v), None)], Incremented(k, offsets));
      ReplayIncrs(held, k, Atoi(v).value, offsets);
      WithNumberOnly(k, v, Atoi(v).value + Sum(offsets));
    }
  }

  lemma ReplayedSet(k: Bytes, v: Bytes)
    requires k != [] && v != []
    ensures Rebuild(EMPTY, [Entry("SET", k, Some(v), None)]) == Some(EMPTY.(store := map[k := v]))
  {
    var e := Entry("SET", k, Some(v), None);
    ReplaySet(EMPTY, k, v);
    hide ReplayOne;
    assert [e][1..] == [] && EMPTY.store[k := v] == map[k := v];
  }

  lemma WithNumberOnly(k: Bytes, v: Bytes, n: int)
    ensures WithNumber(EMPTY.(store := map[k := v]), k, n) == EMPTY.(store := map[k := Itoa(Wrap64(n))])
  {
    hide Itoa, Wrap64;
  }

  // ------------------------------------------------------------------ other spellings

  /** A command that the server took in other than upper case is logged as it came, and a restart does
      nothing for it. */
  lemma OtherSpellingsAreLost(db: Db, e: Entry, name: Bytes)
    requires name in {"SET", "INCR", "PUSH", "LPOP", "RPOP"} && Spells(e.command, name) && e.command != name
    ensures ReplayOne(db, e) == Some(db)
  {
    assert forall i :: 0 <= i < |name| ==> 'A' <= name[i] <= 'Z';
    SpellsIff(e.command, name);
    if VerbOf(e.command) != UNKNOWN {
      ExactWordIsUpper(e.command);
      assert false;
    }
    hide VerbOf;
  }

  lemma ExactWordIsUpper(word: Bytes)
    requires VerbOf(word) != UNKNOWN
    ensures ToUpper(word) == word
  {
  }
}
