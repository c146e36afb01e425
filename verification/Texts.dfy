/** What a string key holds over whole runs, from the values and offsets of the run alone. */
module Texts {
  import opened Bytes
  import opened Decimal
  import opened Store
  import opened Expiry

  /** Operation i is the latest to have stored a text under k, and nothing has flushed it since. */
  predicate LatestStore(ops: seq<Op>, k: Bytes, i: int) {
    && 0 <= i < |ops| && Stores(ops[i], k)
    && forall j :: i < j < |ops| ==> !Stores(ops[j], k) && !ops[j].Wipe?
  }

  /** Sweep j met k with a deadline before its own time. */
  predicate SweptAway(ops: seq<Op>, k: Bytes, j: int)
    requires 0 <= j < |ops|
  {
    ops[j].SweepAt? && exists p :: 0 <= p < j && DeadlineFrom(ops[..j], k, p) && ops[j].at > Due(ops[p])
  }

  predicate NotSwept(ops: seq<Op>, k: Bytes, i: int)
    requires 0 <= i
  {
    forall j :: i < j < |ops| ==> !SweptAway(ops, k, j)
  }

  predicate AddsTo(op: Op, k: Bytes) {
    op.Add? && op.key == k
  }

  /** Whether operations after i and before n added to k, and how much in all. */
  predicate AddedSince(ops: seq<Op>, k: Bytes, i: nat, n: nat)
    requires n <= |ops|
  {
    exists j :: i < j < n && AddsTo(ops[j], k)
  }

  function SumSince(ops: seq<Op>, k: Bytes, i: nat, n: nat): int
    requires n <= |ops|
  {
    if n <= i + 1 then 0
    else SumSince(ops, k, i, n - 1) + if AddsTo(ops[n - 1], k) then ops[n - 1].offset else 0
  }

  lemma {:induction false} NothingAdded(ops: seq<Op>, k: Bytes, i: nat, n: nat)
    requires n <= |ops|
    ensures !AddedSince(ops, k, i, n) ==> SumSince(ops, k, i, n) == 0
  {
    if n > i + 1 {
      hide AddsTo;
      NothingAdded(ops, k, i, n - 1);
    }
  }

  /** A text as it was stored, or an integer text after additions. */
  function Total(v: Bytes, added: bool, sum: int): Bytes {
    if added && Atoi(v).Some? then Itoa(Wrap64(Atoi(v).value + sum)) else v
  }

  /** What the additions have made of the text that operation i stored. */
  function Holding(ops: seq<Op>, k: Bytes, i: nat, n: nat): Bytes
    requires i < n <= |ops| && ops[i].Put?
  {
    Total(ops[i].value, AddedSince(ops, k, i, n), SumSince(ops, k, i, n))
  }

  function Plus(t: Bytes, offset: int): Bytes {
    if Atoi(t).Some? then Itoa(Wrap64(Atoi(t).value + offset)) else t
  }

  lemma TotalStep(v: Bytes, added: bool, sum: int, offset: int)
    requires !added ==> sum == 0
    ensures Total(v, true, sum + offset) == Plus(Total(v, added, sum), offset)
  {
    hide Atoi, Itoa, Wrap64;
    if added && Atoi(v).Some? {
      var n := Atoi(v).value + sum;
      AtoiItoa(Wrap64(n));
      WrapAdd(n, offset);
      assert n + offset == Atoi(v).value + (sum + offset);
    }
  }

  lemma HoldingNext(ops: seq<Op>, k: Bytes, i: nat, n: nat)
    requires i < n < |ops| && ops[i].Put?
    ensures Holding(ops, k, i, n + 1)
         == if AddsTo(ops[n], k) then Plus(Holding(ops, k, i, n), ops[n].offset) else Holding(ops, k, i, n)
  {
    hide Total, Plus, AddsTo;
    NothingAdded(ops, k, i, n);
    assert AddedSince(ops, k, i, n + 1) <==> AddedSince(ops, k, i, n) || AddsTo(ops[n], k);
    hide AddedSince;
    if AddsTo(ops[n], k) {
      assert ops[n].Add? by { AddsIsAdd(ops[n], k); }
      TotalStep(ops[i].value, AddedSince(ops, k, i, n), SumSince(ops, k, i, n), ops[n].offset);
    }
  }

  lemma AddsIsAdd(op: Op, k: Bytes)
    requires AddsTo(op, k)
    ensures op.Add?
  {
  }

  /** One operation's effect on a present text that it neither stores, flushes nor sweeps away. */
  lemma TextStep(db: Db, op: Op, k: Bytes)
    requires k != [] && k in db.store && !Stores(op, k) && !op.Wipe?
    requires op.SweepAt? && k in db.expiry ==> op.at <= db.expiry[k]
    ensures k in Expiry.After(db, op).store
    ensures Expiry.After(db, op).store[k] == if AddsTo(op, k) then Plus(db.store[k], op.offset) else db.store[k]
  {
    hide Deadline, Atoi, Itoa, Wrap64;
  }

  lemma NotSweptStep(ops: seq<Op>, k: Bytes, n: nat)
    requires n < |ops| && !SweptAway(ops, k, n)
    ensures var db := Run(ops[..n]); ops[n].SweepAt? && k in db.expiry ==> ops[n].at <= db.expiry[k]
  {
    hide DeadlineFrom, Due, Run;
    DeadlineIff(ops[..n], k);
  }

  lemma RunNext(ops: seq<Op>, n: nat)
    requires n < |ops|
    ensures Run(ops[..n + 1]) == Expiry.After(Run(ops[..n]), ops[n])
  {
    assert ops[..n + 1][..n] == ops[..n];
  }

  lemma {:induction false} TextAfter(ops: seq<Op>, k: Bytes, i: nat, n: nat)
    requires LatestStore(ops, k, i) && NotSwept(ops, k, i) && i < n <= |ops|
    ensures k in Run(ops[..n]).store && Run(ops[..n]).store[k] == Holding(ops, k, i, n)
  {
    RunNext(ops, n - 1);
    if n == i + 1 {
      hide Run, Deadline;
    } else {
      hide Run, Expiry.After, SweptAway, Stores, Holding, AddsTo, Plus;
      TextAfter(ops, k, i, n - 1);
      StoresNonEmpty(ops[i], k);
      NotSweptStep(ops, k, n - 1);
      TextStep(Run(ops[..n - 1]), ops[n - 1], k);
      HoldingNext(ops, k, i, n - 1);
    }
  }

  lemma StoresNonEmpty(op: Op, k: Bytes)
    requires Stores(op, k)
    ensures op.Put? && k != []
  {
  }

  /** Read your writes, for texts: a key whose latest stored value was v, and that no sweep has taken
      away since, holds v, or after additions to an integer text v the decimal text of their sum. */
  lemma TextLaw(ops: seq<Op>, k: Bytes, i: int)
    requires LatestStore(ops, k, i) && NotSwept(ops, k, i)
    ensures k in Run(ops).store
    ensures Run(ops).store[k] == Total(ops[i].value, AddedSince(ops, k, i, |ops|), SumSince(ops, k, i, |ops|))
  {
    assert ops[..|ops|] == ops;
    hide Run, AddedSince, SumSince, Total, NotSwept;
    TextAfter(ops, k, i, |ops|);
  }

  /** A key that nothing has stored since the start or the latest flush is absent. */
  lemma {:induction false} NeverStoredIsAbsent(ops: seq<Op>, k: Bytes, from: nat)
    requires from <= |ops| && (from == 0 || ops[from - 1].Wipe?)
    requires forall j :: from <= j < |ops| ==> !Stores(ops[j], k)
    ensures k !in Run(ops).store
  {
    if |ops| > from {
      var n := |ops| - 1;
      assert forall j :: from <= j < n ==> ops[..n][j] == ops[j];
      assert from > 0 ==> ops[..n][from - 1] == ops[from - 1];
      hide Stores, Expiry.After;
      NeverStoredIsAbsent(ops[..n], k, from);
      PresenceStep(Run(ops[..n]), ops[n], k);
      RunLast(ops);
      assert !Stores(ops[n], k);
    }
  }
}
