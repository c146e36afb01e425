/** Concurrent connections. A write logs its record in one critical section and changes the
    database in a later one, so handlers interleave between the two. */
module Concurrency {
  import opened Bytes
  import opened Requests
  import opened Persistence
  import opened Store
  import opened Commands
  import opened CodecLaws
  import opened Keys
  import opened Replay

  datatype Task = Write(request: Request) | Flush

  /** A handler's two critical sections. */
  datatype Move = Begin(handler: nat, task: Task) | End(handler: nat, now: int)

  /** The shared state, the handlers between their two sections, and two histories since the last
      FLUSHDB: the normalised records in log order and in the order they were applied. */
  datatype System = System(log: Bytes, db: Db, inFlight: map<nat, Task>, logged: seq<Entry>, applied: seq<Entry>)

  const START: System := System([], EMPTY, map[], [], [])

  function RecordOf(r: Request): Entry
    requires Loggable(r)
  {
    Normal(EntryOf(r))
  }

  predicate WellBehaved(t: Task) {
    t.Write? ==> Logged(t.request) && Faithful(t.request) && Fits(EntryOf(t.request))
  }

  function Do(s: System, m: Move): (next: System)
    requires Enabled(s, m)
    ensures m.Begin? ==> next.inFlight == s.inFlight[m.handler := m.task] && next.db == s.db
    ensures m.End? ==> next.inFlight == s.inFlight - {m.handler} && next.log == s.log && next.logged == s.logged
  {
    match m
    case Begin(h, Write(r)) =>
      s.(log := s.log + Encode(EntryOf(r)), inFlight := s.inFlight[h := Write(r)], logged := s.logged + [RecordOf(r)])
    case Begin(h, Flush) =>
      s.(log := [], inFlight := s.inFlight[h := Flush], logged := [])
    case End(h, now) =>
      var rest := s.inFlight - {h};
      match s.inFlight[h]
      case Write(r) =>
        s.(db := Apply(s.db, r, now).db, inFlight := rest, applied := s.applied + [RecordOf(r)])
      case Flush =>
        s.(db := EMPTY, inFlight := rest, applied := [])
  }

  predicate Enabled(s: System, m: Move) {
    match m
    case Begin(h, t) => h !in s.inFlight && WellBehaved(t)
    case End(h, _) => h in s.inFlight && WellBehaved(s.inFlight[h])
  }

  /** Two writes to one key conflict; FLUSHDB conflicts with everything. */
  predicate Conflict(t: Task, u: Task) {
    t.Flush? || u.Flush? || t.request.key == u.request.key
  }

  predicate NoOverlap(s: System, m: Move) {
    m.Begin? ==> forall h :: h in s.inFlight ==> !Conflict(m.task, s.inFlight[h])
  }

  // ------------------------------------------------------------------ what every move keeps

  /** The log decodes to `logged`, and the database is what `applied` makes of an empty one. */
  ghost predicate Consistent(s: System) {
    && AllFit(s.logged)
    && s.log == EncodeAll(s.logged)
    && (forall i :: 0 <= i < |s.logged| ==> s.logged[i] == Normal(s.logged[i]) && !Poison(s.logged[i]))
    && s.db == Effects(EMPTY, s.applied)
    && (forall h :: h in s.inFlight ==> WellBehaved(s.inFlight[h]))
  }

  lemma EncodeNormal(e: Entry)
    ensures Encode(Normal(e)) == Encode(e)
    ensures Fits(Normal(e)) == Fits(e)
    ensures Normal(Normal(e)) == Normal(e)
  {
    assert OrEmpty(Normal(e).value) == OrEmpty(e.value);
    assert OrEmpty(Normal(e).offset) == OrEmpty(e.offset);
  }

  /** A faithful request's record is not poisoned, and applying it is the record's effect. */
  lemma FaithfulEffect(r: Request, db: Db, now: int)
    requires Logged(r) && Faithful(r)
    ensures !Poison(RecordOf(r))
    ensures Apply(db, r, now).db == Effect(db, RecordOf(r))
  {
    hide Apply, ReplayOne, VerbOf, ToUpper, Faithful;
    FaithfulReplays(r, db, now);
    PoisonPanics(db, RecordOf(r));
  }

  lemma LogKeepsConsistent(s: System, m: Move)
    requires Consistent(s) && Enabled(s, m) && m.Begin?
    ensures Consistent(Do(s, m))
  {
    hide VerbOf, ToUpper, Faithful, Poison, Effects, Encode, EncodeAll, Normal, Fits;
    if m.task.Write? {
      var r := m.task.request;
      EncodeNormal(EntryOf(r));
      FaithfulEffect(r, s.db, 0);
      EncodeAllLast(s.logged, RecordOf(r));
    } else {
      EncodeAllNone();
    }
  }

  lemma ApplyKeepsConsistent(s: System, m: Move)
    requires Consistent(s) && Enabled(s, m) && m.End?
    ensures Consistent(Do(s, m))
  {
    hide Apply, VerbOf, ToUpper, Faithful, Poison, Effect, Effects, EncodeAll, Normal, Fits;
    if s.inFlight[m.handler].Write? {
      var r := s.inFlight[m.handler].request;
      FaithfulEffect(r, s.db, m.now);
      EffectsAppend(EMPTY, s.applied, RecordOf(r));
    } else {
      NoEffects();
    }
  }

  lemma DoKeepsConsistent(s: System, m: Move)
    requires Consistent(s) && Enabled(s, m)
    ensures Consistent(Do(s, m))
  {
    hide Consistent, Do, Enabled;
    if m.Begin? {
      LogKeepsConsistent(s, m);
    } else {
      ApplyKeepsConsistent(s, m);
    }
  }

  lemma NoEffects()
    ensures Effects(EMPTY, []) == EMPTY
  {
  }

  lemma NormalAlready(es: seq<Entry>)
    requires forall i :: 0 <= i < |es| ==> es[i] == Normal(es[i])
    ensures NormalAll(es) == es
  {
    hide Normal;
  }

  /** Recovery at any instant builds the effects of the log, in log order. */
  lemma RecoverIsLogged(s: System)
    requires Consistent(s)
    ensures Rebuild(EMPTY, Load(s.log)) == Some(Effects(EMPTY, s.logged))
  {
    hide EncodeAll, Load, Rebuild, Effects, Normal, NormalAll, Poison, Fits;
    NormalAlready(s.logged);
    LoadIntact(s.logged);
    RebuildIsEffects(s.logged);
  }

  /** The order theorem: the database equals the replay of the log whenever, key by key, the
      handlers have applied what they logged in the order they logged it. */
  lemma OrderedPerKey(s: System)
    requires Consistent(s)
    requires forall k :: OnKey(s.logged, k) == OnKey(s.applied, k)
    ensures Rebuild(EMPTY, Load(s.log)) == Some(s.db)
  {
    RecoverIsLogged(s);
    SameOnEveryKey(EMPTY, s.logged, s.applied);
  }

  // ------------------------------------------------------------------ runs without overlap

  predicate Names(t: Task, k: Bytes) {
    t.Write? && t.request.key == Some(k)
  }

  /** On key k the log is ahead of the database by exactly the given record. */
  predicate Ahead(s: System, k: Bytes, e: Entry) {
    OnKey(s.logged, k) == OnKey(s.applied, k) + [e]
  }

  predicate Settled(s: System, k: Bytes) {
    OnKey(s.logged, k) == OnKey(s.applied, k)
  }

  ghost predicate Unowned(s: System, k: Bytes) {
    forall h :: h in s.inFlight ==> s.inFlight[h].Write? && !Names(s.inFlight[h], k)
  }

  /** No two handlers in flight conflict, and a flush in flight has emptied the log. */
  ghost predicate Exclusive(s: System) {
    && (forall h :: h in s.inFlight ==> WellBehaved(s.inFlight[h]))
    && (forall g, h :: g in s.inFlight && h in s.inFlight && g != h ==> !Conflict(s.inFlight[g], s.inFlight[h]))
    && (forall h :: h in s.inFlight && s.inFlight[h].Flush? ==> s.logged == [])
  }

  /** Each handler between its sections owns its key: on that key the log is ahead of the database
      by exactly its record, and on every unowned key the two agree. A flush owns everything. */
  ghost predicate Owned(s: System) {
    && Exclusive(s)
    && (forall h, k :: h in s.inFlight && Names(s.inFlight[h], k) ==> Ahead(s, k, RecordOf(s.inFlight[h].request)))
    && (forall k :: Unowned(s, k) ==> Settled(s, k))
  }

  lemma BeginWriteKeepsExclusive(s: System, h: nat, r: Request)
    requires Exclusive(s) && Enabled(s, Begin(h, Write(r))) && NoOverlap(s, Begin(h, Write(r)))
    ensures Exclusive(Do(s, Begin(h, Write(r))))
    ensures r.key == Some(RecordOf(r).key) && Unowned(s, RecordOf(r).key)
  {
    hide VerbOf, ToUpper, Faithful, Fits;
  }

  lemma BeginWriteKeepsAhead(s: System, h: nat, r: Request, g: nat, k: Bytes)
    requires Owned(s) && Enabled(s, Begin(h, Write(r))) && NoOverlap(s, Begin(h, Write(r)))
    requires var s' := Do(s, Begin(h, Write(r))); g in s'.inFlight && Names(s'.inFlight[g], k)
    ensures var s' := Do(s, Begin(h, Write(r)));
            Loggable(s'.inFlight[g].request) && Ahead(s', k, RecordOf(s'.inFlight[g].request))
  {
    hide OnKey, Encode, VerbOf, ToUpper, Faithful, Fits;
    OnKeyAppend(s.logged, RecordOf(r), k);
    if g != h {
      assert Names(s.inFlight[g], k) && !Conflict(Write(r), s.inFlight[g]);
      assert Ahead(s, k, RecordOf(s.inFlight[g].request));
    } else {
      BeginWriteKeepsExclusive(s, h, r);
    }
  }

  lemma BeginWriteKeepsSettled(s: System, h: nat, r: Request, k: Bytes)
    requires Owned(s) && Enabled(s, Begin(h, Write(r))) && NoOverlap(s, Begin(h, Write(r)))
    requires Unowned(Do(s, Begin(h, Write(r))), k)
    ensures Settled(Do(s, Begin(h, Write(r))), k)
  {
    hide OnKey, Encode, VerbOf, ToUpper, Faithful, Fits;
    var s' := Do(s, Begin(h, Write(r)));
    OnKeyAppend(s.logged, RecordOf(r), k);
    assert h in s'.inFlight && k != RecordOf(r).key;
    forall g | g in s.inFlight ensures s.inFlight[g].Write? && !Names(s.inFlight[g], k) {
      assert g in s'.inFlight;
    }
    assert Settled(s, k);
  }

  lemma BeginWriteKeepsOwned(s: System, h: nat, r: Request)
    requires Owned(s) && Enabled(s, Begin(h, Write(r))) && NoOverlap(s, Begin(h, Write(r)))
    ensures Owned(Do(s, Begin(h, Write(r))))
  {
    var s' := Do(s, Begin(h, Write(r)));
    BeginWriteKeepsExclusive(s, h, r);
    forall g, k | g in s'.inFlight && Names(s'.inFlight[g], k)
      ensures Loggable(s'.inFlight[g].request) && Ahead(s', k, RecordOf(s'.inFlight[g].request))
    {
      BeginWriteKeepsAhead(s, h, r, g, k);
    }
    forall k | Unowned(s', k) ensures Settled(s', k) {
      BeginWriteKeepsSettled(s, h, r, k);
    }
    hide Do, RecordOf, Ahead, Settled, Unowned, Exclusive, Logged;
  }

  lemma EndWriteKeepsAhead(s: System, h: nat, now: int, g: nat, k: Bytes)
    requires Owned(s) && Enabled(s, End(h, now)) && s.inFlight[h].Write?
    requires g in s.inFlight && g != h && Names(s.inFlight[g], k)
    ensures Loggable(s.inFlight[g].request) && Ahead(Do(s, End(h, now)), k, RecordOf(s.inFlight[g].request))
  {
    hide OnKey, Normal, Apply, Faithful, Fits, VerbOf, ToUpper;
    var e := RecordOf(s.inFlight[h].request);
    NormalKey(s.inFlight[h].request);
    OnKeyAppend(s.applied, e, k);
    assert !Conflict(s.inFlight[g], s.inFlight[h]);
    assert Ahead(s, k, RecordOf(s.inFlight[g].request));
  }

  lemma EndWriteKeepsSettled(s: System, h: nat, now: int, k: Bytes)
    requires Owned(s) && Enabled(s, End(h, now)) && s.inFlight[h].Write?
    requires Unowned(Do(s, End(h, now)), k)
    ensures Settled(Do(s, End(h, now)), k)
  {
    hide OnKey, Normal, Apply, Faithful, Fits, VerbOf, ToUpper;
    var s', e := Do(s, End(h, now)), RecordOf(s.inFlight[h].request);
    NormalKey(s.inFlight[h].request);
    OnKeyAppend(s.applied, e, k);
    if k == e.key {
      assert Names(s.inFlight[h], k) && Ahead(s, k, e);
    } else {
      forall g | g in s.inFlight ensures s.inFlight[g].Write? && !Names(s.inFlight[g], k) {
        assert g == h || g in s'.inFlight;
      }
      assert Unowned(s, k) && Settled(s, k);
    }
  }

  lemma EndWriteKeepsOwned(s: System, h: nat, now: int)
    requires Owned(s) && Enabled(s, End(h, now)) && s.inFlight[h].Write?
    ensures Owned(Do(s, End(h, now)))
  {
    var s' := Do(s, End(h, now));
    hide OnKey, Apply, VerbOf, ToUpper, Do, Ahead, Settled, RecordOf, Unowned, WellBehaved;
    forall g, k | g in s'.inFlight && Names(s'.inFlight[g], k)
      ensures Loggable(s'.inFlight[g].request) && Ahead(s', k, RecordOf(s'.inFlight[g].request))
    {
      EndWriteKeepsAhead(s, h, now, g, k);
    }
    forall k | Unowned(s', k) ensures Settled(s', k) {
      EndWriteKeepsSettled(s, h, now, k);
    }
  }

  lemma FlushKeepsOwned(s: System, m: Move)
    requires Owned(s) && Enabled(s, m) && NoOverlap(s, m)
    requires if m.Begin? then m.task.Flush? else s.inFlight[m.handler].Flush?
    ensures Owned(Do(s, m))
  {
    hide OnKey, Normal, Apply, Faithful, Fits, VerbOf, ToUpper;
    if m.Begin? {
      assert s.inFlight == map[];
    } else {
      assert s.inFlight.Keys == {m.handler};
    }
  }

  /** A run: every move is enabled when it is made. */
  ghost predicate Feasible(ms: seq<Move>)
    decreases |ms|, 0
  {
    ms != [] ==> Feasible(ms[..|ms| - 1]) && Enabled(Exec(ms[..|ms| - 1]), ms[|ms| - 1])
  }

  ghost function Exec(ms: seq<Move>): System
    requires Feasible(ms)
    decreases |ms|, 1
  {
    if ms == [] then START else Do(Exec(ms[..|ms| - 1]), ms[|ms| - 1])
  }

  /** No handler begins while one that conflicts with it is in flight. */
  ghost predicate Legal(ms: seq<Move>)
    requires Feasible(ms)
  {
    ms != [] ==>
      var init, m := ms[..|ms| - 1], ms[|ms| - 1];
      Legal(init) && NoOverlap(Exec(init), m)
  }

  lemma {:induction false} RunKeepsOwned(ms: seq<Move>)
    requires Feasible(ms) && Legal(ms)
    ensures Consistent(Exec(ms)) && Owned(Exec(ms))
  {
    if ms != [] {
      var init, m := ms[..|ms| - 1], ms[|ms| - 1];
      RunKeepsOwned(init);
      hide Consistent, Owned, Do;
      DoKeepsConsistent(Exec(init), m);
      match m {
        case Begin(h, Write(r)) => BeginWriteKeepsOwned(Exec(init), h, r);
        case Begin(h, Flush) => FlushKeepsOwned(Exec(init), m);
        case End(h, now) =>
          if Exec(init).inFlight[h].Write? {
            EndWriteKeepsOwned(Exec(init), h, now);
          } else {
            FlushKeepsOwned(Exec(init), m);
          }
      }
    }
  }

  /** Over every run without same-key overlap, whenever no handler is in flight the log replays to
      exactly the live database. */
  lemma QuiescentReplay(ms: seq<Move>)
    requires Feasible(ms) && Legal(ms) && Exec(ms).inFlight == map[]
    ensures Rebuild(EMPTY, Load(Exec(ms).log)) == Some(Exec(ms).db)
  {
    RunKeepsOwned(ms);
    forall k ensures OnKey(Exec(ms).logged, k) == OnKey(Exec(ms).applied, k) {
      assert Unowned(Exec(ms), k);
    }
    hide Consistent;
    OrderedPerKey(Exec(ms));
  }

  lemma StartIsConsistent()
    ensures Consistent(START)
  {
  }

  /** A crash at any instant of such a run: a key that a handler owns comes back with that handler's
      record applied, every other key as it is in the live database. */
  lemma InstantCells(ms: seq<Move>, k: Bytes)
    requires Feasible(ms) && Legal(ms)
    ensures Consistent(Exec(ms))
    ensures var s := Exec(ms); var recovered := Rebuild(EMPTY, Load(s.log));
            recovered.Some? &&
            (Unowned(s, k) ==> CellAt(recovered.value, k) == CellAt(s.db, k)) &&
            (forall h :: h in s.inFlight && Names(s.inFlight[h], k) ==>
               CellAt(recovered.value, k) == CellAt(Effect(s.db, RecordOf(s.inFlight[h].request)), k)) &&
            ((exists h :: h in s.inFlight && s.inFlight[h].Flush?) ==> recovered.value == EMPTY)
  {
    var s := Exec(ms);
    RunKeepsOwned(ms);
    RecoverIsLogged(s);
    Projection(EMPTY, s.logged, k);
    Projection(EMPTY, s.applied, k);
    forall h | h in s.inFlight && Names(s.inFlight[h], k)
      ensures CellAt(Effects(EMPTY, s.logged), k) == CellAt(Effect(s.db, RecordOf(s.inFlight[h].request)), k)
    {
      OwnedCell(s, h, k);
    }
    NoEffects();
  }

  lemma OwnedCell(s: System, h: nat, k: Bytes)
    requires Consistent(s) && Owned(s) && h in s.inFlight && Names(s.inFlight[h], k)
    ensures CellAt(Effects(EMPTY, s.logged), k) == CellAt(Effect(s.db, RecordOf(s.inFlight[h].request)), k)
  {
    hide Effect, Effects, OnKey, CellAt, VerbOf, ToUpper, Faithful, Fits, Encode, EncodeAll, Poison, Normal;
    var e := RecordOf(s.inFlight[h].request);
    assert Ahead(s, k, e);
    Projection(EMPTY, s.logged, k);
    Projection(EMPTY, s.applied, k);
    EffectsAppend(EMPTY, OnKey(s.applied, k), e);
    NormalKey(s.inFlight[h].request);
    EffectAtKey(Effects(EMPTY, OnKey(s.applied, k)), s.db, e);
  }

  lemma NormalKey(r: Request)
    requires Loggable(r)
    ensures Some(RecordOf(r).key) == r.key
  {
  }
}
