/** After a failover the new leader's node map can contain the leader itself, because it was copied
    from the old leader. Replication then applies the command on the leader a second time. */
module SelfListed {
  import opened Bytes
  import opened Decimal
  import opened Requests
  import opened Persistence
  import opened Store
  import opened Commands
  import opened Replay
  import opened Replication
  import opened Convergence

  /** A write whose second application changes nothing: SET, INCR by zero, and a pop that took the
      only element. */
  predicate SafeTwice(db: Db, r: Request)
    requires Logged(r)
  {
    match VerbOf(ToUpper(r.command.value))
    case SET => true
    case INCR => r.offset.Some? && Atoi(r.offset.value) == Some(0)
    case PUSH => false
    case _ => r.key.value in db.lists && |db.lists[r.key.value]| == 1
  }

  lemma IncrOfItoa(db: Db, key: Bytes, n: int, offset: int)
    requires key != [] && key in db.store && FitsInt64(n) && db.store[key] == Itoa(n)
    ensures var sum := Wrap64(n + offset);
            Incr(db, key, offset) == After(db.(store := db.store[key := Itoa(sum)]), Ok(sum))
  {
    hide Atoi, Itoa, Wrap64;
    AtoiItoa(n);
  }

  lemma IncrTwice(db: Db, key: Bytes, offset: int)
    requires FitsInt64(offset) && Incr(db, key, offset).result.Ok?
    ensures var once := Incr(db, key, offset).db; Incr(once, key, offset).db == once <==> offset == 0
  {
    hide Wrap64, Atoi, Itoa;
    var once, n := Incr(db, key, offset).db, Incr(db, key, offset).result.value;
    IncrOfItoa(once, key, n, offset);
    hide Incr;
    WrapShift(n, offset);
    var twice := once.store[key := Itoa(Wrap64(n + offset))];
    if offset == 0 {
      assert twice == once.store;
    } else if twice == once.store {
      assert twice[key] == once.store[key];
      ItoaInjective(Wrap64(n + offset), n);
    }
  }

  /** A successful write is idempotent exactly when it is safe twice. */
  lemma TwiceIffSafe(db: Db, r: Request, now: int)
    requires Replicable(r) && Apply(db, r, now).outcome.Success?
    ensures var once := Apply(db, r, now).db; Apply(once, r, now).db == once <==> SafeTwice(db, r)
  {
    hide VerbOf, ToUpper, Atoi, Itoa, Incr;
    var key := r.key.value;
    var once := Apply(db, r, now).db;
    var twice := Apply(once, r, now).db;
    match VerbOf(ToUpper(r.command.value)) {
      case SET =>
        assert once.store[key := once.store[key]] == once.store;
      case INCR =>
        IncrTwice(db, key, Atoi(r.offset.value).value);
      case PUSH =>
        assert |twice.lists[key]| == |once.lists[key]| + 1;
      case LPOP =>
        assert |once.lists[key]| > 0 ==> |twice.lists[key]| < |once.lists[key]|;
      case RPOP =>
        assert |once.lists[key]| > 0 ==> |twice.lists[key]| < |once.lists[key]|;
      case _ =>
    }
  }

  /** Everything but the leader's own listing is as in a connected cluster. */
  predicate SelfConnected(c: State, reachable: set<int>) {
    c.leader in c.replicas && c.listed == c.replicas.Keys && c.listed <= reachable
  }

  /** With the leader in its own node map and all databases equal, a successful write, whichever
      node it arrives at, leaves them equal exactly when it is safe twice. */
  lemma SelfListedConverges(c: State, n: int, r: Request, reachable: set<int>, clock: Clock, m: int)
    requires SelfConnected(c, reachable) && Replicable(r)
    requires n in c.replicas && m in c.replicas && m != c.leader
    requires forall i :: i in c.replicas ==> c.replicas[i].db == c.replicas[c.leader].db
    requires Apply(c.replicas[c.leader].db, r, clock(c.leader)).outcome.Success?
    ensures var end := Route(c, n, r, reachable, clock).state;
            end.replicas[m].db == end.replicas[c.leader].db <==> SafeTwice(c.replicas[c.leader].db, r)
  {
    var s, db, now := c.replicas[c.leader], c.replicas[c.leader].db, clock(c.leader);
    TwiceIffSafe(db, r, now);
    ClockFree(db, r, now, clock(m));
    SelfListedRoute(c, n, r, reachable, clock, m);
    hide Apply, Replicable, SafeTwice, Encode, Route;
  }

  /** A write without a TTL does the same at any time. */
  lemma ClockFree(db: Db, r: Request, now: int, later: int)
    requires Replicable(r)
    ensures Apply(db, r, now) == Apply(db, r, later)
  {
    ExactVerbIsUpper(r.command.value);
    hide VerbOf, ToUpper, Atoi, Incr, Push, Lpop, Rpop;
  }

  /** Followers apply the write once, the leader twice. */
  lemma SelfListedRoute(c: State, n: int, r: Request, reachable: set<int>, clock: Clock, m: int)
    requires SelfConnected(c, reachable) && Replicable(r)
    requires n in c.replicas && m in c.replicas && m != c.leader
    requires Apply(c.replicas[c.leader].db, r, clock(c.leader)).outcome.Success?
    ensures var end, now := Route(c, n, r, reachable, clock).state, clock(c.leader);
            m in end.replicas && c.leader in end.replicas &&
            end.replicas[c.leader] == AfterWrite(AfterWrite(c.replicas[c.leader], r, now), r, now) &&
            end.replicas[m] == AfterWrite(c.replicas[m], r, clock(m))
  {
    var s, now := c.replicas[c.leader], clock(c.leader);
    ExactVerbIsUpper(r.command.value);
    hide Apply, Handle, VerbOf, ToUpper, Encode, ConvertCommandToRequest, AfterWrite, Route, ApplyCommand;
    LeaderStep(s, r, now);
    ForwardedHandled(s, r, now);
    WriteRoute(c, n, r, reachable, clock);
    DeliveredHandled(AfterWrite(s, r, now), r, now);
    DeliveredHandled(c.replicas[m], r, clock(m));
  }

  lemma LeaderStep(s: Replica, r: Request, now: int)
    requires Replicable(r)
    ensures Handle(s, r, now).replica == AfterWrite(s, r, now)
    ensures Handle(s, r, now).outcome == Apply(s.db, r, now).outcome
  {
    hide Apply, VerbOf, ToUpper, Encode;
  }
}
