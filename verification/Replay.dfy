/** Replaying one request's record against what the request did to the live database, exactly. */
module Replay {
  import opened Bytes
  import opened Decimal
  import opened Requests
  import opened Persistence
  import opened Store
  import opened Commands

  /** HandleCommand logs this request. */
  predicate Logged(r: Request) {
    Loggable(r) && IsWrite(VerbOf(ToUpper(r.command.value)))
  }

  predicate Exact(r: Request)
    requires r.command.Some?
  {
    VerbOf(r.command.value) != UNKNOWN
  }

  predicate NoTtl(r: Request) {
    r.exp.None? || ((r.exp.value.Int64? || r.exp.value.Narrow?) && r.exp.value.ms <= 0)
  }

  /** A logged request whose replay does to every database what the request itself does. */
  predicate Faithful(r: Request)
    requires Logged(r)
  {
    var nameless := r.key.value == [];
    match VerbOf(ToUpper(r.command.value))
    case SET =>
      if Exact(r) then OrEmpty(r.value) != [] && (nameless || NoTtl(r))
      else nameless || OrEmpty(r.value) == [] || (r.exp.Some? && (r.exp.value.Textual? || r.exp.value.Other?))
    case INCR =>
      if Exact(r) then OrEmpty(r.offset) != []
      else nameless || r.offset.None? || Atoi(r.offset.value).None?
    case PUSH => nameless || if Exact(r) then OrEmpty(r.value) != [] else r.value.None?
    case _ => Exact(r) || nameless
  }

  function Replayed(db: Db, r: Request): Option<Db>
    requires Loggable(r)
  {
    ReplayOne(db, Normal(EntryOf(r)))
  }

  lemma FaithfulReplays(r: Request, db: Db, now: int)
    requires Logged(r) && Faithful(r)
    ensures Replayed(db, r) == Some(Apply(db, r, now).db)
  {
    hide VerbOf, Atoi, ToUpper;
    if Exact(r) {
      ExactVerbIsUpper(r.command.value);
    }
  }

  /** A database on which an unfaithful request and its replay part ways. */
  function Witness(r: Request): Db
    requires Logged(r)
  {
    var key := r.key.value;
    match VerbOf(ToUpper(r.command.value))
    case INCR => EMPTY.(store := map[key := ['+', '0']])
    case LPOP => EMPTY.(lists := map[key := [Some(['x'])]])
    case RPOP => EMPTY.(lists := map[key := [Some(['x'])]])
    case _ => EMPTY
  }

  lemma UnfaithfulDiffers(r: Request, now: int)
    requires Logged(r) && !Faithful(r)
    ensures Replayed(Witness(r), r) != Some(Apply(Witness(r), r, now).db)
  {
    if Exact(r) {
      ExactVerbIsUpper(r.command.value);
    }
    hide VerbOf, ToUpper;
    var key, live, replayed := r.key.value, Apply(Witness(r), r, now).db, Replayed(Witness(r), r);
    match VerbOf(ToUpper(r.command.value)) {
      case SET =>
        assert replayed.None? || (key in live.store) != (key in replayed.value.store)
          || (key in live.expiry) != (key in replayed.value.expiry);
      case INCR =>
        PlusZero();
        hide Atoi, Itoa;
        assert replayed.None? || live.store[key] != replayed.value.store[key];
      case PUSH =>
        assert replayed.None? || (key in live.lists) != (key in replayed.value.lists)
          || live.lists[key][0] != replayed.value.lists[key][0];
      case LPOP =>
        assert |live.lists[key]| != |replayed.value.lists[key]|;
      case RPOP =>
        assert |live.lists[key]| != |replayed.value.lists[key]|;
      case _ =>
    }
  }

  lemma PlusZero()
    ensures Atoi(['+', '0']) == Some(0)
    ensures forall n :: Itoa(n) != ['+', '0']
  {
    var plusZero: Bytes := ['+', '0'];
    assert plusZero[1..] == ['0'];
    ValueZero(plusZero[1..]);
    forall n ensures Itoa(n) != plusZero {
      assert IsDigit(Digits(if n < 0 then -n else n)[0]);
    }
  }

  /** Replay refinement for one request, exactly: replaying its record equals applying it on every
      database if and only if the request is faithful. */
  lemma ReplayIffFaithful(r: Request, now: int)
    requires Logged(r)
    ensures (forall db :: Replayed(db, r) == Some(Apply(db, r, now).db)) <==> Faithful(r)
  {
    hide Faithful, Replayed, Apply, Witness;
    if Faithful(r) {
      forall db ensures Replayed(db, r) == Some(Apply(db, r, now).db) {
        FaithfulReplays(r, db, now);
      }
    } else {
      UnfaithfulDiffers(r, now);
    }
  }
}
