/** Which requests leave a connected cluster's databases equal: a check on the request's fields, the
    node it arrives at and the nodes' clocks, exact for all clean equal databases. */
module Routing {
  import opened Bytes
  import opened Collections
  import opened Decimal
  import opened Requests
  import opened Persistence
  import opened Store
  import opened Commands
  import opened Replay
  import opened Replication
  import opened Convergence

  /** A command on a database, whatever the log beside it. */
  function Change(db: Db, r: Request, now: int): Applied {
    var step := Handle(Replica(db, []), r, now);
    Applied(step.replica.db, step.outcome)
  }

  lemma ChangeIsHandle(s: Replica, r: Request, now: int)
    ensures Change(s.db, r, now) == Applied(Handle(s, r, now).replica.db, Handle(s, r, now).outcome)
    ensures r.command.None? ==> Change(s.db, r, now) == Applied(s.db, Failure(MissingCommand))
  {
    hide VerbOf, ToUpper, Apply, Encode;
  }

  predicate Agree(c: State)
    requires c.leader in c.replicas
  {
    forall m :: m in c.replicas ==> c.replicas[m].db == c.replicas[c.leader].db
  }

  predicate UniformOn(c: State, db: Db) {
    forall m :: m in c.replicas ==> c.replicas[m].db == db
  }

  /** The same cluster with one database on every node. */
  function Uniform(c: State, db: Db): (d: State)
    ensures UniformOn(d, db) && SameMembers(c, d)
  {
    c.(replicas := map m | m in c.replicas :: c.replicas[m].(db := db))
  }

  // ------------------------------------------------------------------ what a route does

  /** A connected cluster with at least one follower. */
  predicate Replicated(c: State, reachable: set<int>) {
    Connected(c, reachable) && c.listed != {}
  }

  /** The word reaches the leader's replication: it is a write word exactly. */
  predicate Distributed(r: Request) {
    r.command.Some? && IsWriteCommand(r.command.value)
  }

  lemma LocalRoute(c: State, db: Db, n: int, r: Request, reachable: set<int>, clock: Clock)
    requires Connected(c, reachable) && UniformOn(c, db) && n in c.replicas
    requires !Distributed(r) && (r.command.Some? || n == c.leader)
    ensures var out, own := Route(c, n, r, reachable, clock), Change(db, r, clock(n));
            out.outcome == own.outcome && SameMembers(c, out.state) &&
            (own.db == db ==> UniformOn(out.state, db)) &&
            (c.listed != {} && own.db != db ==> !Agree(out.state))
  {
    hide VerbOf, Handle, Change;
    ChangeIsHandle(c.replicas[n], r, clock(n));
    var end := Route(c, n, r, reachable, clock).state;
    assert end.replicas == c.replicas[n := Handle(c.replicas[n], r, clock(n)).replica];
    assert end.replicas[n].db == Change(db, r, clock(n)).db;
    if c.listed != {} {
      SomeMember(c.listed);
      var f :| f in c.listed;
      assert f in c.replicas && f != c.leader;
      assert end.replicas[if n == c.leader then f else c.leader].db == db;
    }
  }

  lemma DistributedRoute(c: State, db: Db, n: int, r: Request, reachable: set<int>, clock: Clock)
    requires Connected(c, reachable) && UniformOn(c, db) && n in c.replicas && Distributed(r)
    ensures var out := Route(c, n, r, reachable, clock);
            var own := Change(db, AtLeader(c, n, r), clock(c.leader));
            out.outcome == (if n == c.leader then own.outcome else Carried(own.outcome)) && SameMembers(c, out.state) &&
            out.state.replicas[c.leader].db == own.db &&
            (forall m :: m in c.listed ==>
               m in c.replicas &&
               out.state.replicas[m].db == if own.outcome.Success? then Change(db, Forwarded(r), clock(m)).db else db)
  {
    hide VerbOf, Handle, Change, ConvertCommandToRequest;
    ChangeIsHandle(c.replicas[c.leader], AtLeader(c, n, r), clock(c.leader));
    forall m | m in c.listed ensures m in c.replicas && m != c.leader &&
      Change(db, Forwarded(r), clock(m)).db == Handle(c.replicas[m], Forwarded(r), clock(m)).replica.db {
      ChangeIsHandle(c.replicas[m], Forwarded(r), clock(m));
    }
  }

  // ------------------------------------------------------------------ the fields that decide

  /** The TTL a node reads in a request, and the one its protobuf form carries. */
  function Ttl(r: Request): int {
    if r.exp.Some? && (r.exp.value.Int64? || r.exp.value.Narrow?) then r.exp.value.ms else 0
  }

  function SentTtl(r: Request): int {
    if r.exp.Some? && r.exp.value.Int64? then ToInt32(r.exp.value.ms) else 0
  }

  predicate HasExp(r: Request, textual: bool) {
    r.exp.Some? && if textual then r.exp.value.Textual? else r.exp.value.Other?
  }

  /** A write that neither panics nor changes anything, on whatever database. */
  predicate Inert(r: Request)
    requires Loggable(r)
  {
    var nameless := r.key.value == [];
    match VerbOf(ToUpper(r.command.value))
    case SET => !HasExp(r, false) && (nameless || HasExp(r, true) || OrEmpty(r.value) == [])
    case INCR => nameless || r.offset.None? || Atoi(r.offset.value).None?
    case PUSH => nameless || r.value.None?
    case _ => nameless
  }

  /** Safe on one node alone: a read, an error, or a write that is inert. */
  predicate LocalSafe(r: Request) {
    r.command.Some? ==>
      var v := VerbOf(ToUpper(r.command.value));
      !v.FLUSHDB? && (IsWrite(v) ==> r.key.Some? && Inert(r))
  }

  /** The leader's deadline for t and every follower's for u are the same, or there is none. */
  predicate DeadlinesAgree(c: State, t: int, u: int, clock: Clock) {
    || (t <= 0 && u <= 0)
    || (t > 0 && u > 0 && forall m :: m in c.listed ==> Deadline(clock(m), u) == Deadline(clock(c.leader), t))
  }

  /** A write that the leader executes as it came and sends on. */
  predicate DirectSafe(c: State, r: Request, clock: Clock)
    requires r.command.Some?
  {
    r.key.Some? &&
    match VerbOf(r.command.value)
    case SET => Inert(r) || (!HasExp(r, false) && DeadlinesAgree(c, Ttl(r), SentTtl(r), clock))
    case PUSH => r.key.value == [] || r.value != Some([])
    case _ => true
  }

  /** A write that reaches the leader in the form that it sends on. */
  predicate ForwardedSafe(c: State, r: Request, clock: Clock)
    requires r.command.Some?
  {
    OrEmpty(r.key) != [] &&
    (VerbOf(r.command.value).SET? ==> OrEmpty(r.value) == [] || DeadlinesAgree(c, SentTtl(r), SentTtl(r), clock))
  }

  predicate DistributedSafe(c: State, n: int, r: Request, clock: Clock)
    requires r.command.Some?
  {
    if n == c.leader then DirectSafe(c, r, clock) else ForwardedSafe(c, r, clock)
  }

  /** A request that leaves clean equal databases equal, wherever it arrives. */
  predicate RoutedSafe(c: State, n: int, r: Request, clock: Clock) {
    if Distributed(r) then DistributedSafe(c, n, r, clock)
    else LocalSafe(r) && (r.command.Some? || n == c.leader)
  }

  // ------------------------------------------------------------------ on one node

  lemma InertSet(r: Request, db: Db, now: int)
    requires Loggable(r) && VerbOf(ToUpper(r.command.value)) == SET && Inert(r)
    ensures !ApplySet(db, r, now).outcome.Panic? && ApplySet(db, r, now).db == db
  {
    hide VerbOf, ToUpper;
  }

  lemma InertIncr(r: Request, db: Db)
    requires Loggable(r) && VerbOf(ToUpper(r.command.value)) == INCR && Inert(r)
    ensures !ApplyIncr(db, r).outcome.Panic? && ApplyIncr(db, r).db == db
  {
    hide VerbOf, ToUpper, Atoi;
  }

  lemma InertPush(r: Request, db: Db)
    requires Loggable(r) && VerbOf(ToUpper(r.command.value)) == PUSH && Inert(r)
    ensures !ApplyPush(db, r).outcome.Panic? && ApplyPush(db, r).db == db
  {
    hide VerbOf, ToUpper;
  }

  lemma InertApply(r: Request, db: Db, now: int)
    requires Loggable(r) && IsWrite(VerbOf(ToUpper(r.command.value))) && Inert(r)
    ensures !Apply(db, r, now).outcome.Panic? && Apply(db, r, now).db == db
  {
    hide VerbOf, ToUpper, Atoi, ApplySet, ApplyIncr, ApplyPush;
    match VerbOf(ToUpper(r.command.value)) {
      case SET => InertSet(r, db, now);
      case INCR => InertIncr(r, db);
      case PUSH => InertPush(r, db);
      case _ =>
    }
  }

  lemma LocalSafeHolds(r: Request, db: Db, now: int)
    requires LocalSafe(r)
    ensures !Change(db, r, now).outcome.Panic? && Change(db, r, now).db == db
  {
    hide VerbOf, ToUpper, Apply, Encode, Inert;
    if r.command.Some? && IsWrite(VerbOf(ToUpper(r.command.value))) {
      InertApply(r, db, now);
    }
  }

  /** A clean database on which an unsafe request shows. */
  function LocalWitness(r: Request): Db {
    var key := OrEmpty(r.key);
    if r.command.None? then EMPTY
    else
      match VerbOf(ToUpper(r.command.value))
      case INCR => EMPTY.(store := map[key := ['+', '0']])
      case LPOP => EMPTY.(lists := map[key := [Some(['x'])]])
      case RPOP => EMPTY.(lists := map[key := [Some(['x'])]])
      case FLUSHDB => EMPTY.(store := map[key := ['0']])
      case _ => EMPTY
  }

  lemma LocalUnsafeFails(r: Request, now: int)
    requires !LocalSafe(r)
    ensures var db := LocalWitness(r);
            Clean(db) && (Change(db, r, now).outcome.Panic? || Change(db, r, now).db != db)
  {
    PlusZero();
    hide VerbOf, ToUpper, Atoi, Itoa, Encode, Wrap64;
    var key, db, after := OrEmpty(r.key), LocalWitness(r), Change(LocalWitness(r), r, now);
    if !after.outcome.Panic? {
      match VerbOf(ToUpper(r.command.value)) {
        case SET => assert key in after.db.store;
        case INCR => assert after.db.store[key] != ['+', '0'];
        case PUSH => assert key in after.db.lists;
        case LPOP => assert |after.db.lists[key]| == 0;
        case RPOP => assert |after.db.lists[key]| == 0;
        case FLUSHDB => assert key in db.store;
      }
    }
  }

  // ------------------------------------------------------------------ on every node

  /** The leader does not panic, and what it does the followers do. */
  predicate Spreads(c: State, db: Db, n: int, r: Request, clock: Clock)
    requires r.command.Some?
  {
    var own := Change(db, AtLeader(c, n, r), clock(c.leader));
    && !own.outcome.Panic?
    && (own.outcome.Success? ==> forall m :: m in c.listed ==> Change(db, Forwarded(r), clock(m)).db == own.db)
    && (!own.outcome.Success? ==> own.db == db)
  }

  lemma ChangeIsApply(db: Db, r: Request, now: int)
    requires Distributed(r)
    ensures IsWrite(VerbOf(ToUpper(r.command.value))) && VerbOf(ToUpper(r.command.value)) == VerbOf(r.command.value)
    ensures Change(db, r, now) == if r.key.None? then Applied(db, Panic) else Apply(db, r, now)
  {
    ExactVerbIsUpper(r.command.value);
    hide VerbOf, ToUpper, Apply, Encode;
  }

  predicate IsSet(r: Request) {
    r.command.Some? && VerbOf(ToUpper(r.command.value)).SET?
  }

  /** Only SET looks at the TTL or the time. */
  lemma TimelessApply(db: Db, r: Request, now: int, later: int)
    requires Loggable(r) && !IsSet(r)
    ensures Apply(db, r, now) == Apply(db, r.(exp := None), later)
  {
    hide VerbOf, ToUpper, Atoi;
  }

  /** A distributed write that is no SET, has a key and does not push the empty string. */
  predicate Timeless(r: Request) {
    Distributed(r) && !IsSet(r) && OrEmpty(r.key) != [] && (VerbOf(r.command.value).PUSH? ==> r.value != Some([]))
  }

  lemma TimelessStep(db: Db, r: Request, now: int)
    requires Timeless(r) && Clean(db)
    ensures var own := Change(db, r, now);
            !own.outcome.Panic? && (!own.outcome.Success? ==> own.db == db) && Clean(own.db)
  {
    var q := r.(exp := None);
    ChangeIsApply(db, r, now);
    TimelessApply(db, r, now, now);
    hide VerbOf, ToUpper, Apply, Change, Clean;
    ApplyKeepsClean(q, db, now);
    NeverPanics(db, q, now);
    if !Apply(db, q, now).outcome.Success? {
      FailureIsNoOp(q, db, now);
    }
  }

  lemma NeverPanics(db: Db, r: Request, now: int)
    requires Loggable(r) && !HasExp(r, false)
    ensures !Apply(db, r, now).outcome.Panic?
  {
    hide VerbOf, ToUpper, Atoi;
  }

  lemma TimelessForwarded(db: Db, r: Request, now: int, later: int)
    requires Timeless(r)
    ensures Timeless(Forwarded(r)) && Change(db, Forwarded(r), later).db == Change(db, r, now).db
  {
    var q := r.(exp := None);
    ChangeIsApply(db, r, now);
    ForwardedApplies(q, db, now);
    ChangeIsApply(db, Forwarded(r), later);
    hide VerbOf, ToUpper, Apply, Change;
    TimelessApply(db, r, now, now);
    TimelessApply(db, Forwarded(r), later, now);
    assert Forwarded(r).(exp := None) == Forwarded(q);
  }

  lemma TimelessChange(db: Db, r: Request, now: int, later: int)
    requires Timeless(r)
    ensures Change(db, r, later).db == Change(db, r, now).db
  {
    ChangeIsApply(db, r, now);
    ChangeIsApply(db, r, later);
    hide VerbOf, ToUpper, Apply, Change;
    TimelessApply(db, r, now, now);
    TimelessApply(db, r, later, now);
  }

  /** A SET that takes effect. */
  function Stored(db: Db, k: Bytes, v: Bytes, ttl: int, now: int): Db {
    db.(store := db.store[k := v], expiry := if ttl > 0 then db.expiry[k := Deadline(now, ttl)] else db.expiry)
  }

  lemma SetChange(db: Db, r: Request, now: int)
    requires Distributed(r) && IsSet(r)
    ensures var own := Change(db, r, now);
            if r.key.None? || HasExp(r, false) then own == Applied(db, Panic)
            else if Inert(r) then own.db == db && own.outcome.Failure?
            else own == Applied(Stored(db, r.key.value, OrEmpty(r.value), Ttl(r), now), Success(Done))
    ensures r.key.Some? && Inert(r) ==> !HasExp(r, false)
    ensures r.key.Some? && !Inert(r) && !HasExp(r, false) ==> r.key.value != [] && OrEmpty(r.value) != []
  {
    ChangeIsApply(db, r, now);
    hide VerbOf, ToUpper, Change;
  }

  lemma ForwardedSet(r: Request)
    requires Distributed(r) && IsSet(r)
    ensures var f := Forwarded(r);
            Distributed(f) && IsSet(f) && !HasExp(f, false) && Ttl(f) == SentTtl(r) &&
            (f.key.Some? <==> OrEmpty(r.key) != []) && f.key == NonEmpty(OrEmpty(r.key)) &&
            OrEmpty(f.value) == OrEmpty(r.value) && (f.key.Some? ==> (Inert(f) <==> OrEmpty(r.value) == []))
  {
    hide VerbOf, ToUpper, ToInt32;
  }

  predicate SameDeadline(t: int, now: int, u: int, later: int) {
    (t <= 0 && u <= 0) || (t > 0 && u > 0 && Deadline(later, u) == Deadline(now, t))
  }

  lemma StoredAlike(k: Bytes, v: Bytes, t: int, now: int, u: int, later: int)
    ensures SameDeadline(t, now, u, later) ==> forall db :: Stored(db, k, v, u, later) == Stored(db, k, v, t, now)
    ensures Stored(EMPTY, k, v, u, later) == Stored(EMPTY, k, v, t, now) ==> SameDeadline(t, now, u, later)
  {
    hide Deadline;
    var a, b := Stored(EMPTY, k, v, t, now).expiry, Stored(EMPTY, k, v, u, later).expiry;
    if a == b {
      assert (k in a <==> k in b) && (k in a ==> a[k] == b[k]);
    }
  }

  /** Safety of a SET in the form g that the leader executes. */
  predicate SetSafe(c: State, g: Request, r: Request, clock: Clock)
    requires g.command.Some?
  {
    g.key.Some? && (Inert(g) || (!HasExp(g, false) && DeadlinesAgree(c, Ttl(g), SentTtl(r), clock)))
  }

  lemma SetSpreads(c: State, db: Db, n: int, r: Request, clock: Clock)
    requires Distributed(r) && IsSet(r) && Clean(db) && SetSafe(c, AtLeader(c, n, r), r, clock)
    ensures Spreads(c, db, n, r, clock)
    ensures Clean(Change(db, AtLeader(c, n, r), clock(c.leader)).db)
  {
    var g, f := AtLeader(c, n, r), Forwarded(r);
    ForwardedSet(r);
    SetChange(db, g, clock(c.leader));
    hide VerbOf, ToUpper, Change, Forwarded, Deadline, Stored, Inert, Clean;
    if !Inert(g) {
      forall m | m in c.listed ensures Change(db, f, clock(m)).db == Change(db, g, clock(c.leader)).db {
        SetChange(db, f, clock(m));
        StoredAlike(g.key.value, OrEmpty(g.value), Ttl(g), clock(c.leader), SentTtl(r), clock(m));
      }
    }
  }

  lemma SetFails(c: State, n: int, r: Request, clock: Clock)
    requires Distributed(r) && IsSet(r) && !SetSafe(c, AtLeader(c, n, r), r, clock) && c.listed != {}
    ensures !Spreads(c, EMPTY, n, r, clock)
  {
    var g, f := AtLeader(c, n, r), Forwarded(r);
    ForwardedSet(r);
    SetChange(EMPTY, g, clock(c.leader));
    if g.key.Some? && !HasExp(g, false) {
      SomeMember(c.listed);
      var m :| m in c.listed && !SameDeadline(Ttl(g), clock(c.leader), SentTtl(r), clock(m));
      SetChange(EMPTY, f, clock(m));
      hide VerbOf, ToUpper, Change, Deadline, Stored, Inert, SameDeadline;
      StoredAlike(g.key.value, OrEmpty(g.value), Ttl(g), clock(c.leader), SentTtl(r), clock(m));
    }
  }

  lemma SetSafeIff(c: State, n: int, r: Request, clock: Clock)
    requires Distributed(r) && IsSet(r)
    ensures DistributedSafe(c, n, r, clock) <==> SetSafe(c, AtLeader(c, n, r), r, clock)
  {
    ForwardedSet(r);
    ChangeIsApply(EMPTY, r, 0);
    hide VerbOf, ToUpper, Inert, DeadlinesAgree, ConvertCommandToRequest, ConvertRequestToCommand;
  }

  lemma TimelessSpreads(c: State, db: Db, n: int, r: Request, clock: Clock)
    requires Distributed(r) && !IsSet(r) && DistributedSafe(c, n, r, clock) && Clean(db)
    ensures Spreads(c, db, n, r, clock) && Clean(Change(db, AtLeader(c, n, r), clock(c.leader)).db)
  {
    var g, now := AtLeader(c, n, r), clock(c.leader);
    if g.key == Some([]) {
      ChangeIsApply(db, g, now);
      NamelessFails(db, g, now);
    } else {
      TimelessAtLeader(c, n, r, clock);
      hide VerbOf, ToUpper, Change, Timeless, Clean;
      TimelessStep(db, g, now);
      forall m ensures Change(db, Forwarded(r), clock(m)).db == Change(db, g, now).db {
        if n == c.leader {
          TimelessForwarded(db, r, now, clock(m));
        } else {
          TimelessChange(db, g, now, clock(m));
        }
      }
    }
  }

  lemma NamelessFails(db: Db, r: Request, now: int)
    requires Loggable(r) && r.key.value == [] && !IsSet(r)
    ensures Apply(db, r, now).db == db && Apply(db, r, now).outcome.Failure?
  {
    hide VerbOf, ToUpper, Atoi;
  }

  lemma TimelessAtLeader(c: State, n: int, r: Request, clock: Clock)
    requires Distributed(r) && !IsSet(r) && DistributedSafe(c, n, r, clock) && AtLeader(c, n, r).key != Some([])
    ensures Timeless(AtLeader(c, n, r))
  {
    ChangeIsApply(EMPTY, r, 0);
    hide VerbOf, ToUpper, DeadlinesAgree;
  }

  lemma TimelessFails(c: State, n: int, r: Request, clock: Clock)
    requires Distributed(r) && !IsSet(r) && !DistributedSafe(c, n, r, clock) && c.listed != {}
    ensures !Spreads(c, EMPTY, n, r, clock)
  {
    var g, f := AtLeader(c, n, r), Forwarded(r);
    SomeMember(c.listed);
    var m :| m in c.listed;
    ChangeIsApply(EMPTY, g, clock(c.leader));
    ChangeIsApply(EMPTY, f, clock(m));
    ChangeIsApply(EMPTY, r, 0);
    hide VerbOf, ToUpper, Change, DeadlinesAgree, Atoi, Inert;
  }

  lemma DistributedIff(c: State, n: int, r: Request, clock: Clock)
    requires Distributed(r) && c.listed != {}
    ensures (forall db :: Clean(db) ==> Spreads(c, db, n, r, clock)) <==> DistributedSafe(c, n, r, clock)
  {
    hide Spreads, DistributedSafe, IsSet, SetSafe, AtLeader;
    if DistributedSafe(c, n, r, clock) {
      forall db | Clean(db) ensures Spreads(c, db, n, r, clock) {
        DistributedSpreads(c, db, n, r, clock);
      }
    } else if IsSet(r) {
      SetSafeIff(c, n, r, clock);
      SetFails(c, n, r, clock);
    } else {
      TimelessFails(c, n, r, clock);
    }
  }

  lemma DistributedSpreads(c: State, db: Db, n: int, r: Request, clock: Clock)
    requires Distributed(r) && DistributedSafe(c, n, r, clock) && Clean(db)
    ensures Spreads(c, db, n, r, clock) && Clean(Change(db, AtLeader(c, n, r), clock(c.leader)).db)
  {
    hide Spreads, DistributedSafe, SetSafe, Clean;
    if IsSet(r) {
      SetSafeIff(c, n, r, clock);
      SetSpreads(c, db, n, r, clock);
    } else {
      TimelessSpreads(c, db, n, r, clock);
    }
  }

  // ------------------------------------------------------------------ the exact condition

  /** The node that answers does not panic, and all databases are equal afterwards. */
  predicate Harmless(c: State, n: int, r: Request, reachable: set<int>, clock: Clock)
    requires Connected(c, reachable) && n in c.replicas
  {
    var out := Route(c, n, r, reachable, clock);
    !out.outcome.Panic? && c.leader in out.state.replicas && out.state.leader == c.leader && Agree(out.state)
  }

  lemma DistributedHarmless(c: State, db: Db, n: int, r: Request, reachable: set<int>, clock: Clock)
    requires Connected(c, reachable) && UniformOn(c, db) && n in c.replicas && Distributed(r)
    ensures Spreads(c, db, n, r, clock) ==> Harmless(c, n, r, reachable, clock)
    ensures c.listed != {} && !Spreads(c, db, n, r, clock) ==> !Harmless(c, n, r, reachable, clock)
  {
    DistributedRoute(c, db, n, r, reachable, clock);
    if c.listed != {} {
      SomeMember(c.listed);
    }
    hide Route, Change, AtLeader, Forwarded, Distributed;
  }

  lemma LocalHarmless(c: State, db: Db, n: int, r: Request, reachable: set<int>, clock: Clock)
    requires Replicated(c, reachable) && UniformOn(c, db) && n in c.replicas && !Distributed(r)
    requires r.command.Some? || n == c.leader
    ensures var own := Change(db, r, clock(n));
            Harmless(c, n, r, reachable, clock) <==> !own.outcome.Panic? && own.db == db
  {
    LocalRoute(c, db, n, r, reachable, clock);
    hide Route, Change, Distributed, Agree;
  }

  lemma SameSpreads(c: State, d: State, db: Db, n: int, r: Request, clock: Clock)
    requires SameMembers(c, d) && r.command.Some?
    ensures Spreads(c, db, n, r, clock) == Spreads(d, db, n, r, clock)
    ensures DistributedSafe(c, n, r, clock) == DistributedSafe(d, n, r, clock)
  {
    hide Change, Forwarded, Deadline, Inert, VerbOf;
  }

  /** One request on one uniform state, by the branch it takes. */
  lemma HarmlessCases(c: State, db: Db, n: int, r: Request, reachable: set<int>, clock: Clock)
    requires Replicated(c, reachable) && n in c.replicas
    ensures Harmless(Uniform(c, db), n, r, reachable, clock) <==>
      if Distributed(r) then Spreads(c, db, n, r, clock)
      else (r.command.Some? || n == c.leader) &&
           !Change(db, r, clock(n)).outcome.Panic? && Change(db, r, clock(n)).db == db
  {
    var d := Uniform(c, db);
    hide Uniform, Spreads, Change, Agree;
    if Distributed(r) {
      DistributedHarmless(d, db, n, r, reachable, clock);
      SameSpreads(c, d, db, n, r, clock);
    } else if r.command.Some? || n == c.leader {
      LocalHarmless(d, db, n, r, reachable, clock);
    }
  }

  /** The exact condition: from whatever clean database that all nodes share, a request arriving at
      node n is answered without a panic and leaves all databases equal, if and only if its fields,
      the node and the clocks pass the check. */
  lemma HarmlessIff(c: State, n: int, r: Request, reachable: set<int>, clock: Clock)
    requires Replicated(c, reachable) && n in c.replicas
    ensures (forall db :: Clean(db) ==> Harmless(Uniform(c, db), n, r, reachable, clock))
       <==> RoutedSafe(c, n, r, clock)
  {
    forall db ensures Harmless(Uniform(c, db), n, r, reachable, clock) <==>
      if Distributed(r) then Spreads(c, db, n, r, clock)
      else (r.command.Some? || n == c.leader) &&
           !Change(db, r, clock(n)).outcome.Panic? && Change(db, r, clock(n)).db == db
    {
      HarmlessCases(c, db, n, r, reachable, clock);
    }
    EmptyIsClean();
    hide Harmless, Spreads, Change, Clean, LocalSafe, DistributedSafe, Uniform;
    if Distributed(r) {
      DistributedIff(c, n, r, clock);
    } else if LocalSafe(r) {
      forall db ensures !Change(db, r, clock(n)).outcome.Panic? && Change(db, r, clock(n)).db == db {
        LocalSafeHolds(r, db, clock(n));
      }
    } else {
      LocalUnsafeFails(r, clock(n));
    }
  }

  lemma EmptyIsClean()
    ensures Clean(EMPTY)
  {
  }

  // ------------------------------------------------------------------ whole runs

  lemma SafeStep(c: State, n: int, r: Request, reachable: set<int>, clock: Clock)
    requires Connected(c, reachable) && n in c.replicas && RoutedSafe(c, n, r, clock)
    requires Agree(c) && Clean(c.replicas[c.leader].db)
    ensures var out := Route(c, n, r, reachable, clock);
            !out.outcome.Panic? && SameMembers(c, out.state) && Agree(out.state) &&
            Clean(out.state.replicas[c.leader].db)
  {
    var db := c.replicas[c.leader].db;
    hide Route, Spreads, Change, Clean, LocalSafe, DistributedSafe, AtLeader, Forwarded;
    assert UniformOn(c, db);
    if Distributed(r) {
      DistributedSpreads(c, db, n, r, clock);
      DistributedRoute(c, db, n, r, reachable, clock);
      DistributedHarmless(c, db, n, r, reachable, clock);
    } else {
      LocalSafeHolds(r, db, clock(n));
      LocalRoute(c, db, n, r, reachable, clock);
    }
  }

  predicate SafeArrival(c: State, a: Arrival) {
    a.node in c.replicas && RoutedSafe(c, a.node, a.request, a.clock)
  }

  lemma SameSafe(c: State, d: State, a: Arrival)
    requires SameMembers(c, d)
    ensures SafeArrival(c, a) == SafeArrival(d, a)
  {
    hide DistributedSafe, LocalSafe;
    if a.request.command.Some? {
      SameSpreads(c, d, EMPTY, a.node, a.request, a.clock);
    }
  }

  /** Over every run of safe requests, reads and errors included, wherever they arrive: no panic,
      and all databases stay equal. */
  lemma {:induction false} SafeRunsAgree(c: State, arrivals: seq<Arrival>, reachable: set<int>)
    requires Connected(c, reachable) && Agree(c) && Clean(c.replicas[c.leader].db)
    requires forall i :: 0 <= i < |arrivals| ==> SafeArrival(c, arrivals[i])
    ensures var end := RunCluster(c, arrivals, reachable);
            SameMembers(c, end) && Agree(end) && Clean(end.replicas[c.leader].db)
    ensures forall i :: 0 <= i < |arrivals| ==>
      !Arrive(RunCluster(c, arrivals[..i], reachable), arrivals[i], reachable).outcome.Panic?
  {
    if arrivals != [] {
      var init, a := arrivals[..|arrivals| - 1], arrivals[|arrivals| - 1];
      SafeRunsAgree(c, init, reachable);
      var before := RunCluster(c, init, reachable);
      SameSafe(c, before, a);
      hide RoutedSafe, Route, Clean, Agree;
      SafeStep(before, a.node, a.request, reachable, a.clock);
      forall i | 0 <= i < |arrivals|
        ensures !Arrive(RunCluster(c, arrivals[..i], reachable), arrivals[i], reachable).outcome.Panic?
      {
        assert arrivals[..i] == init[..i];
        if i < |init| {
          assert init[i] == arrivals[i];
        } else {
          assert arrivals[..i] == init;
        }
      }
    }
  }

  lemma ReadingIsSafe(c: State, n: int, r: Request, clock: Clock)
    requires Reading(r)
    ensures RoutedSafe(c, n, r, clock)
  {
    if VerbOf(r.command.value) != UNKNOWN {
      ExactVerbIsUpper(r.command.value);
    }
    hide VerbOf, ToUpper, Inert, DistributedSafe;
  }

  lemma ReplicableIsSafe(c: State, n: int, r: Request, clock: Clock)
    requires Replicable(r)
    ensures RoutedSafe(c, n, r, clock)
  {
    ExactVerbIsUpper(r.command.value);
    hide VerbOf, ToUpper, ToInt32, Inert;
    if VerbOf(r.command.value).SET? && r.exp.Some? {
      assert !r.exp.value.Other? && !r.exp.value.Textual?;
    }
  }

  /** The plain form of a write, and every read, is safe wherever it arrives. */
  lemma AcceptableIsSafe(c: State, a: Arrival)
    requires Acceptable(c, a)
    ensures SafeArrival(c, a)
  {
    hide Reading, Replicable, RoutedSafe;
    if Reading(a.request) {
      ReadingIsSafe(c, a.node, a.request, a.clock);
    } else {
      ReplicableIsSafe(c, a.node, a.request, a.clock);
    }
  }

  // ------------------------------------------------------------------ two inputs

  /** A follower does not forward the lower-case word, and its handler accepts it: the write
      succeeds on that node alone. */
  lemma LowerCaseStaysLocal(c: State, n: int, k: Bytes, v: Bytes, reachable: set<int>, clock: Clock)
    requires Connected(c, reachable) && n in c.replicas && n != c.leader && k != [] && v != []
    ensures var out := Route(c, n, LowerCaseSet(k, v), reachable, clock);
            out.outcome == Success(Done) &&
            out.state.replicas[n].db == c.replicas[n].db.(store := c.replicas[n].db.store[k := v]) &&
            forall m :: m in c.replicas && m != n ==> out.state.replicas[m] == c.replicas[m]
  {
    LowerCaseHandled(c.replicas[n], k, v, clock(n));
    hide VerbOf, Handle, Forward;
  }

  function LowerCaseSet(k: Bytes, v: Bytes): Request {
    Request(Some("set"), Some(k), Some(v), None, None, None)
  }

  lemma LowerCaseHandled(s: Replica, k: Bytes, v: Bytes, now: int)
    requires k != [] && v != []
    ensures !IsWriteCommand("set")
    ensures var step := Handle(s, LowerCaseSet(k, v), now);
            step.outcome == Success(Done) && step.replica.db == s.db.(store := s.db.store[k := v])
  {
    var word: Bytes := "set";
    assert ToUpper(word) == "SET";
    assert VerbOf(word) == UNKNOWN && VerbOf("SET") == SET;
    hide VerbOf, ToUpper, Encode;
  }

  /** The protobuf form of a request cannot tell an empty key from a missing one, and the leader
      panics on a missing key: a forwarded SET with an empty key takes the leader down. */
  lemma ForwardedEmptyKeyPanics(c: State, n: int, r: Request, reachable: set<int>, clock: Clock)
    requires Connected(c, reachable) && n in c.replicas && n != c.leader && Distributed(r) && r.key == Some([])
    ensures Route(c, n, r, reachable, clock).outcome == Panic
  {
    ChangeIsApply(EMPTY, r, 0);
    hide VerbOf, ToUpper, Apply, Encode;
  }
}
