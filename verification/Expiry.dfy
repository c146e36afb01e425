/** Strings and deadlines over whole runs, in the times, TTLs and values of the run: where a key's
    deadline comes from, when the sweep removes the key, and what text it holds until then (Set,
    Incr and StartCleanup in internal/core/database.go). */
module Expiry {
  import opened Bytes
  import opened Decimal
  import opened Store

  /** The operations that touch strings or deadlines, and any other. */
  datatype Op =
    | Put(key: Bytes, value: Bytes, ttl: Long, at: Long)
    | Add(key: Bytes, offset: int)
    | SweepAt(at: Long)
    | Wipe
    | Idle

  function After(db: Db, op: Op): Db {
    match op
    case Put(key, value, ttl, at) => Set(db, key, value, ttl, at).db
    case Add(key, offset) => Incr(db, key, offset).db
    case SweepAt(at) => Sweep(db, at)
    case Wipe => EMPTY
    case Idle => db
  }

  function Run(ops: seq<Op>): Db {
    if ops == [] then EMPTY else After(Run(ops[..|ops| - 1]), ops[|ops| - 1])
  }

  // ------------------------------------------------------------------ deadlines

  /** This operation gives key k a deadline. */
  predicate SetsDeadline(op: Op, k: Bytes) {
    op.Put? && op.key == k && k != [] && op.value != [] && op.ttl > 0
  }

  /** The time and the TTL added up, or 2^64 less when the sum leaves the 64-bit range. */
  function Due(op: Op): int
    requires op.Put?
  {
    var sum: int := op.at + op.ttl;
    if sum <= 9_223_372_036_854_775_807 then sum else sum - 18_446_744_073_709_551_616
  }

  lemma DueIsDeadline(op: Op)
    requires op.Put? && op.ttl > 0
    ensures Deadline(op.at, op.ttl) == Due(op)
  {
  }

  /** Operation i is the latest to have set k's deadline, and nothing has flushed it since. */
  predicate LatestTtl(ops: seq<Op>, k: Bytes, i: int) {
    && 0 <= i < |ops| && SetsDeadline(ops[i], k)
    && forall j :: i < j < |ops| ==> !SetsDeadline(ops[j], k) && !ops[j].Wipe?
  }

  /** Moreover no sweep since has passed the deadline. */
  predicate DeadlineFrom(ops: seq<Op>, k: Bytes, i: int) {
    LatestTtl(ops, k, i) && forall j :: i < j < |ops| && ops[j].SweepAt? ==> ops[j].at <= Due(ops[i])
  }

  /** Only strings have deadlines, in every reachable state. */
  lemma {:induction false} DeadlinesHaveKeys(ops: seq<Op>)
    ensures Run(ops).expiry.Keys <= Run(ops).store.Keys
  {
    if ops != [] {
      DeadlinesHaveKeys(ops[..|ops| - 1]);
      hide Deadline, Atoi, Itoa;
    }
  }

  lemma DeadlineFromStep(ops: seq<Op>, k: Bytes, i: int)
    requires ops != []
    ensures var n := |ops| - 1;
            var kept := DeadlineFrom(ops[..n], k, i) && !ops[n].Wipe? && (ops[n].SweepAt? ==> ops[n].at <= Due(ops[i]));
            DeadlineFrom(ops, k, i) <==> if SetsDeadline(ops[n], k) then i == n else kept
  {
    var n := |ops| - 1;
    hide SetsDeadline, Due;
    if 0 <= i < n {
      if DeadlineFrom(ops[..n], k, i) {
        assert ops[..n][i] == ops[i];
        assert forall j :: i < j < n ==> ops[..n][j] == ops[j];
      }
      if DeadlineFrom(ops, k, i) {
        assert forall j :: i < j < n ==> ops[..n][j] == ops[j];
      }
    }
  }

  /** One operation's effect on the deadline of k. */
  lemma DeadlineStep(db: Db, op: Op, k: Bytes)
    ensures var after := After(db, op).expiry;
            SetsDeadline(op, k) ==> k in after && after[k] == Due(op)
    ensures var after := After(db, op).expiry;
            !SetsDeadline(op, k) ==>
              (k in after <==> k in db.expiry && !op.Wipe? && (op.SweepAt? ==> op.at <= db.expiry[k])) &&
              (k in after ==> after[k] == db.expiry[k])
  {
    if SetsDeadline(op, k) {
      DueIsDeadline(op);
    }
    hide Deadline, Due, Atoi, Itoa;
  }

  /** A key's deadline in every reachable state is that of the latest SET with a TTL, namely its time
      plus its TTL, if no sweep has passed it and no flush has happened; a SET without a TTL or an INCR
      does not change it. */
  lemma {:induction false} DeadlineIff(ops: seq<Op>, k: Bytes)
    ensures k in Run(ops).expiry <==> exists i :: DeadlineFrom(ops, k, i)
    ensures forall i :: DeadlineFrom(ops, k, i) ==>
      0 <= i < |ops| && ops[i].Put? && k in Run(ops).expiry && Run(ops).expiry[k] == Due(ops[i])
  {
    if ops != [] {
      var before, op, n := ops[..|ops| - 1], ops[|ops| - 1], |ops| - 1;
      DeadlineIff(before, k);
      DeadlineStep(Run(before), op, k);
      hide DeadlineFrom, After, Due;
      forall i | DeadlineFrom(ops, k, i)
        ensures 0 <= i < |ops| && ops[i].Put? && k in Run(ops).expiry
        ensures Run(ops).expiry[k] == Due(ops[i])
      {
        DeadlineFromStep(ops, k, i);
      }
      if k in Run(ops).expiry {
        DeadlineFromStep(ops, k, n);
        if !SetsDeadline(op, k) {
          var i :| DeadlineFrom(before, k, i);
          DeadlineFromStep(ops, k, i);
        }
      }
    }
  }

  // ------------------------------------------------------------------ presence

  /** This operation stores a text under k. */
  predicate Stores(op: Op, k: Bytes) {
    op.Put? && op.key == k && k != [] && op.value != []
  }

  /** One operation's effect on whether k is present: a sweep removes exactly the keys whose
      deadline has passed. */
  lemma PresenceStep(db: Db, op: Op, k: Bytes)
    ensures k in After(db, op).store <==>
      match op
      case Put(_, _, _, _) => k in db.store || Stores(op, k)
      case Add(_, _) => k in db.store
      case SweepAt(at) => k in db.store && !(k in db.expiry && at > db.expiry[k])
      case Wipe => false
      case Idle => k in db.store
  {
    hide Deadline, Atoi, Itoa;
  }

  /** This operation on db is neither a flush nor a sweep that finds k with a passed deadline. */
  predicate Spares(db: Db, op: Op, k: Bytes) {
    !op.Wipe? && (op.SweepAt? && k in db.expiry ==> op.at <= db.expiry[k])
  }

  predicate Spared(ops: seq<Op>, k: Bytes, from: nat) {
    forall j :: from <= j < |ops| ==> Spares(Run(ops[..j]), ops[j], k)
  }

  /** A key is never dropped early: present at one point of a run, it stays until a flush or a
      sweep after the deadline it then has. */
  lemma {:induction false} NeverDroppedEarly(ops: seq<Op>, k: Bytes, from: nat)
    requires from <= |ops| && k in Run(ops[..from]).store && Spared(ops, k, from)
    ensures k in Run(ops).store
  {
    if from == |ops| {
      assert ops[..from] == ops;
    } else {
      var before := ops[..|ops| - 1];
      assert before[..from] == ops[..from];
      forall j | from <= j < |before| ensures Spares(Run(before[..j]), before[j], k) {
        assert before[..j] == ops[..j] && before[j] == ops[j];
      }
      hide Run, After;
      NeverDroppedEarly(before, k, from);
      PresenceStep(Run(before), ops[|ops| - 1], k);
      RunLast(ops);
    }
  }

  lemma RunLast(ops: seq<Op>)
    requires ops != []
    ensures Run(ops) == After(Run(ops[..|ops| - 1]), ops[|ops| - 1])
  {
  }

  /** Times never go back. */
  predicate Timed(ops: seq<Op>) {
    && (forall i, j :: 0 <= i < j < |ops| && (ops[i].Put? || ops[i].SweepAt?) && (ops[j].Put? || ops[j].SweepAt?) ==>
          ops[i].at <= ops[j].at)
  }

  /** If the last sweep is at most `gap` ago, a key that still has a deadline is at most `gap` past
      it: with sweeps `gap` apart nothing stays visible longer than that. The one exception is a
      deadline that wrapped around into the past and has not met a sweep yet. */
  lemma NotVisibleLong(ops: seq<Op>, k: Bytes, now: int, gap: int, s: nat)
    requires Timed(ops) && s < |ops| && ops[s].SweepAt? && now - ops[s].at <= gap
    requires k in Run(ops).expiry
    ensures exists i ::
      DeadlineFrom(ops, k, i) && Run(ops).expiry[k] == Due(ops[i]) &&
      (now <= Due(ops[i]) + gap || (s < i && ops[i].at + ops[i].ttl > 9_223_372_036_854_775_807))
  {
    DeadlineIff(ops, k);
    var i :| DeadlineFrom(ops, k, i);
    hide Run;
    if i < s {
      assert ops[s].at <= Due(ops[i]);
    } else {
      assert ops[s].at <= ops[i].at;
    }
  }

  // ------------------------------------------------------------------ a TTL, from SET to sweep

  /** No sweep after i came later than its time plus its TTL. */
  predicate NoLateSweep(ops: seq<Op>, i: int)
    requires 0 <= i < |ops| && ops[i].Put?
  {
    forall j :: i < j < |ops| && ops[j].SweepAt? ==> ops[j].at <= Due(ops[i])
  }

  lemma {:induction false} PresentUntilDue(ops: seq<Op>, k: Bytes, i: int)
    requires LatestTtl(ops, k, i) && NoLateSweep(ops, i)
    ensures k in Run(ops).store && k in Run(ops).expiry && Run(ops).expiry[k] == Due(ops[i])
  {
    var n := |ops| - 1;
    DeadlineStep(Run(ops[..n]), ops[n], k);
    PresenceStep(Run(ops[..n]), ops[n], k);
    hide After, Due;
    if i < n {
      assert ops[..n][i] == ops[i];
      assert forall j :: i < j < n ==> ops[..n][j] == ops[j];
      PresentUntilDue(ops[..n], k, i);
    }
  }

  /** From a state without k on, without a new deadline and without a flush, k is present exactly if
      it has been stored. */
  lemma {:induction false} PresentIfStored(ops: seq<Op>, k: Bytes, from: nat)
    requires from <= |ops| && k !in Run(ops[..from]).store && k !in Run(ops[..from]).expiry
    requires forall j :: from <= j < |ops| ==> !SetsDeadline(ops[j], k) && !ops[j].Wipe?
    ensures k !in Run(ops).expiry
    ensures k in Run(ops).store <==> exists p :: from <= p < |ops| && Stores(ops[p], k)
  {
    if from == |ops| {
      assert ops[..from] == ops;
    } else {
      var n := |ops| - 1;
      assert ops[..n][..from] == ops[..from];
      assert forall j :: from <= j < n ==> ops[..n][j] == ops[j];
      PresentIfStored(ops[..n], k, from);
      DeadlineStep(Run(ops[..n]), ops[n], k);
      PresenceStep(Run(ops[..n]), ops[n], k);
      hide After, SetsDeadline, Stores;
      RunLast(ops);
      if p :| from <= p < n && Stores(ops[..n][p], k) {
        assert Stores(ops[p], k);
      }
    }
  }

  /** What a TTL means: a key whose latest SET with a TTL came at time `at` is there until a sweep at a
      time after at + ttl, and from the first such sweep on it is there exactly if it has been stored
      again. */
  lemma TtlKeepsUntil(ops: seq<Op>, k: Bytes, i: int, s: int)
    requires LatestTtl(ops, k, i)
    requires i < s < |ops| && ops[s].SweepAt? && ops[s].at > Due(ops[i]) && NoLateSweep(ops[..s], i)
    ensures k in Run(ops[..s]).store && k !in Run(ops[..s + 1]).store
    ensures k in Run(ops).store <==> exists p :: s < p < |ops| && Stores(ops[p], k)
  {
    hide *;
    TtlIsPut(ops, k, i);
    LatestTtlBefore(ops, k, i, s);
    PresentUntilDue(ops[..s], k, i);
    LateSweepRemoves(ops, k, s);
    PresentIfStored(ops, k, s + 1);
  }

  lemma TtlIsPut(ops: seq<Op>, k: Bytes, i: int)
    requires LatestTtl(ops, k, i)
    ensures 0 <= i < |ops| && ops[i].Put?
  {
  }

  lemma LatestTtlBefore(ops: seq<Op>, k: Bytes, i: int, s: int)
    requires LatestTtl(ops, k, i) && i < s <= |ops|
    ensures LatestTtl(ops[..s], k, i) && ops[..s][i] == ops[i]
    ensures forall j :: s <= j < |ops| ==> !SetsDeadline(ops[j], k) && !ops[j].Wipe?
  {
    hide SetsDeadline;
    assert forall j :: i <= j < s ==> ops[..s][j] == ops[j];
  }

  lemma LateSweepRemoves(ops: seq<Op>, k: Bytes, s: int)
    requires 0 <= s < |ops| && ops[s].SweepAt?
    requires k in Run(ops[..s]).expiry && ops[s].at > Run(ops[..s]).expiry[k]
    ensures k !in Run(ops[..s + 1]).store && k !in Run(ops[..s + 1]).expiry
  {
    assert ops[..s + 1][..s] == ops[..s] && ops[..s + 1][s] == ops[s];
    hide SetsDeadline;
    RunLast(ops[..s + 1]);
    hide Run;
  }
}
