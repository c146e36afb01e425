/** Counters: what a series of INCR commands on one key adds up to. */
module Counters {
  import opened Bytes
  import opened Collections
  import opened Decimal
  import opened Requests
  import opened Persistence
  import opened Store
  import opened Commands

  /** An INCR command on `key` whose offset is an integer. */
  predicate Increments(r: Request, key: Bytes) {
    && Loggable(r) && VerbOf(ToUpper(r.command.value)).INCR? && r.key.value == key
    && r.offset.Some? && Atoi(r.offset.value).Some?
  }

  function OffsetOf(r: Request): int {
    if r.offset.Some? && Atoi(r.offset.value).Some? then Atoi(r.offset.value).value else 0
  }

  predicate AllIncrement(rs: seq<Request>, key: Bytes) {
    forall i :: 0 <= i < |rs| ==> Increments(rs[i], key)
  }

  function ApplyAll(db: Db, rs: seq<Request>, now: int): Db
    requires forall i :: 0 <= i < |rs| ==> Loggable(rs[i])
  {
    if rs == [] then db else Apply(ApplyAll(db, rs[..|rs| - 1], now), rs[|rs| - 1], now).db
  }

  function Total(rs: seq<Request>): int {
    if rs == [] then 0 else Total(rs[..|rs| - 1]) + OffsetOf(rs[|rs| - 1])
  }

  lemma IncrementStep(db: Db, r: Request, key: Bytes, now: int)
    requires Increments(r, key) && key != [] && key in db.store && Atoi(db.store[key]).Some?
    ensures var n := Wrap64(Atoi(db.store[key]).value + OffsetOf(r));
            Apply(db, r, now) == Applied(db.(store := db.store[key := Itoa(n)]), Success(Number(n)))
  {
    hide VerbOf, ToUpper, Atoi, Itoa, Wrap64;
  }

  /** Counter arithmetic: every INCR of the run succeeds, and a non-empty run leaves the decimal
      text of the initial integer plus the sum of the offsets, in 64-bit two's complement, and
      changes nothing else. */
  lemma {:induction false} CounterTotal(db: Db, rs: seq<Request>, key: Bytes, now: int)
    requires key != [] && key in db.store && Atoi(db.store[key]).Some? && AllIncrement(rs, key) && rs != []
    ensures ApplyAll(db, rs, now)
         == db.(store := db.store[key := Itoa(Wrap64(Atoi(db.store[key]).value + Total(rs)))])
    ensures Apply(ApplyAll(db, rs[..|rs| - 1], now), rs[|rs| - 1], now).outcome
         == Success(Number(Wrap64(Atoi(db.store[key]).value + Total(rs))))
  {
    hide Apply, VerbOf, ToUpper, Atoi, Itoa, Wrap64;
    var init, last := rs[..|rs| - 1], rs[|rs| - 1];
    var n := Atoi(db.store[key]).value;
    if init == [] {
      IncrementStep(db, last, key, now);
    } else {
      CounterTotal(db, init, key, now);
      var sum := Wrap64(n + Total(init));
      AtoiItoa(sum);
      IncrementStep(ApplyAll(db, init, now), last, key, now);
      WrapAdd(n + Total(init), OffsetOf(last));
    }
  }

  /** The exact sum whenever it fits, even if partial sums have overflowed on the way. */
  lemma ExactTotal(db: Db, rs: seq<Request>, key: Bytes, now: int)
    requires key != [] && key in db.store && Atoi(db.store[key]).Some? && AllIncrement(rs, key) && rs != []
    ensures var sum, after := Atoi(db.store[key]).value + Total(rs), ApplyAll(db, rs, now);
            key in after.store && (Atoi(after.store[key]) == Some(sum) <==> FitsInt64(sum))
  {
    hide Apply, VerbOf, ToUpper, Atoi, Itoa, Wrap64;
    CounterTotal(db, rs, key, now);
    AtoiItoa(Wrap64(Atoi(db.store[key]).value + Total(rs)));
  }

  lemma {:induction false} TotalAppend(rs: seq<Request>, qs: seq<Request>)
    ensures Total(rs + qs) == Total(rs) + Total(qs)
  {
    if qs == [] {
      assert rs + qs == rs;
    } else {
      TotalAppend(rs, qs[..|qs| - 1]);
      assert (rs + qs)[..|rs + qs| - 1] == rs + qs[..|qs| - 1];
    }
  }

  lemma MultisetWithout<T>(s: seq<T>, i: nat)
    requires i < |s|
    ensures multiset(s) == multiset(Without(s, i)) + multiset{s[i]}
  {
    assert s == s[..i] + [s[i]] + s[i + 1..];
  }

  lemma TotalWithout(rs: seq<Request>, i: nat)
    requires i < |rs|
    ensures Total(rs) == Total(Without(rs, i)) + OffsetOf(rs[i])
  {
    SplitAt(rs, i);
    hide Total, OffsetOf, Without;
    TotalAppend(rs[..i] + [rs[i]], rs[i + 1..]);
    TotalAppendOne(rs[..i], rs[i]);
    TotalAppend(rs[..i], rs[i + 1..]);
  }

  lemma SplitAt<T>(s: seq<T>, i: nat)
    requires i < |s|
    ensures s == (s[..i] + [s[i]]) + s[i + 1..] && Without(s, i) == s[..i] + s[i + 1..]
  {
  }

  lemma TotalAppendOne(rs: seq<Request>, r: Request)
    ensures Total(rs + [r]) == Total(rs) + OffsetOf(r)
  {
    hide OffsetOf;
    assert (rs + [r])[..|rs|] == rs;
  }

  /** Rearranging increments changes nothing. */
  lemma {:induction false} TotalOfPermutation(rs: seq<Request>, qs: seq<Request>)
    requires multiset(rs) == multiset(qs)
    ensures Total(rs) == Total(qs)
    decreases |rs|
  {
    if rs == [] {
      assert |multiset(qs)| == 0;
    } else {
      hide Total, OffsetOf, Without;
      var i := SameElement(rs, qs);
      MultisetWithout(rs, 0);
      MultisetWithout(qs, i);
      TotalWithout(rs, 0);
      TotalWithout(qs, i);
      assert multiset(Without(rs, 0)) == multiset(rs) - multiset{rs[0]};
      assert multiset(Without(qs, i)) == multiset(qs) - multiset{rs[0]};
      assert |multiset(rs)| == |multiset(Without(rs, 0))| + 1;
      TotalOfPermutation(Without(rs, 0), Without(qs, i));
    }
  }

  lemma SameElement<T>(rs: seq<T>, qs: seq<T>) returns (i: nat)
    requires rs != [] && multiset(rs) == multiset(qs)
    ensures i < |qs| && qs[i] == rs[0]
  {
    assert rs[0] in multiset(qs);
    i :| 0 <= i < |qs| && qs[i] == rs[0];
  }

  lemma SameMembers<T>(s: seq<T>, t: seq<T>)
    requires multiset(s) == multiset(t)
    ensures |s| == |t|
    ensures forall i :: 0 <= i < |t| ==> exists j :: 0 <= j < |s| && s[j] == t[i]
  {
    assert |multiset(s)| == |multiset(t)|;
    forall i | 0 <= i < |t| ensures exists j :: 0 <= j < |s| && s[j] == t[i] {
      assert t[i] in multiset(s);
    }
  }

  lemma CounterOrderIrrelevant(db: Db, rs: seq<Request>, qs: seq<Request>, key: Bytes, now: int)
    requires key != [] && key in db.store && Atoi(db.store[key]).Some? && AllIncrement(rs, key) && rs != []
    requires multiset(rs) == multiset(qs)
    ensures AllIncrement(qs, key) && ApplyAll(db, rs, now) == ApplyAll(db, qs, now)
  {
    hide Apply, Increments, ApplyAll, Total, Atoi, Itoa, Wrap64;
    SameMembers(rs, qs);
    forall i | 0 <= i < |qs| ensures Increments(qs[i], key) {
      var j :| 0 <= j < |rs| && rs[j] == qs[i];
    }
    TotalOfPermutation(rs, qs);
    CounterTotal(db, rs, key, now);
    CounterTotal(db, qs, key, now);
  }
}
