/** Followers follow: conversions keep a command's record, and over every run each successful write
    reaches every node exactly once. */
module Convergence {
  import opened Bytes
  import opened Decimal
  import opened Requests
  import opened Persistence
  import opened Store
  import opened Commands
  import opened CodecLaws
  import opened Keys
  import opened Replay
  import opened Traces
  import opened Replication

  // ------------------------------------------------------------------ conversions

  /** Proto to request to proto loses nothing but an expiry: the request carries it as an int32,
      and the way back only reads an int64. */
  lemma CommandRoundTrip(c: Command)
    ensures ConvertRequestToCommand(ConvertCommandToRequest(c)) == Some(c) <==> c.exp == 0
  {
  }

  /** The request that arrives at another node. */
  function Forwarded(r: Request): Request
    requires r.command.Some?
  {
    ConvertCommandToRequest(ConvertRequestToCommand(r).value)
  }

  /** A forwarded request is logged with the same bytes as the original, provided it has a key. */
  lemma ForwardedRecord(r: Request)
    requires Loggable(r)
    ensures Loggable(Forwarded(r)) <==> r.key.value != []
    ensures r.key.value != [] ==> EntryOf(Forwarded(r)) == Normal(EntryOf(r))
    ensures r.key.value != [] ==> Encode(EntryOf(Forwarded(r))) == Encode(EntryOf(r))
  {
    var e := EntryOf(r);
    assert OrEmpty(Normal(e).value) == OrEmpty(e.value) && OrEmpty(Normal(e).offset) == OrEmpty(e.offset);
  }

  /** A command that the leader executed successfully has a key, so every node that handles the
      replicated command appends exactly the leader's bytes. */
  lemma ReplicatedRecordIdentity(s: Replica, f: Replica, r: Request, now: int, later: int)
    requires Logged(r) && Handle(s, r, now).outcome.Success?
    ensures Logged(Forwarded(r))
    ensures exists bytes :: Handle(s, r, now).replica.log == s.log + bytes
                         && ApplyCommand(f, ConvertRequestToCommand(r).value, later).log == f.log + bytes
  {
    HandleLogged(s, r, now);
    SuccessHasKey(s.db, r, now);
    ForwardedRecord(r);
    HandleLogged(f, Forwarded(r), later);
    hide Handle, Encode, EntryOf;
  }

  lemma SuccessHasKey(db: Db, r: Request, now: int)
    requires Loggable(r) && Apply(db, r, now).outcome.Success?
    ensures r.key.value != []
  {
    hide VerbOf, ToUpper, Atoi;
  }

  // ------------------------------------------------------------------ one write

  /** A write that means the same on the node it arrives at and on the nodes it is sent to: its
      word is upper case, it has a key, it has no TTL here or in the int32 that is sent, and it
      does not push the empty string. */
  predicate Replicable(r: Request) {
    && Logged(r) && Exact(r) && r.key.value != [] && NoTtl(r)
    && (r.exp.Some? && r.exp.value.Int64? ==> ToInt32(r.exp.value.ms) <= 0)
    && (VerbOf(r.command.value).PUSH? ==> r.value != Some([]))
  }

  /** Lists hold no empty string, which a pop would remove but report as an error. */
  predicate Clean(db: Db) {
    forall k, i :: k in db.lists && 0 <= i < |db.lists[k]| ==> db.lists[k][i] != Some([])
  }

  lemma ForwardedApplies(r: Request, db: Db, now: int)
    requires Replicable(r)
    ensures Logged(Forwarded(r)) && EntryOf(Forwarded(r)) == Normal(EntryOf(r))
    ensures Apply(db, Forwarded(r), now).db == Apply(db, r, now).db
    ensures Apply(db, Forwarded(r), now).outcome.Success? == Apply(db, r, now).outcome.Success?
  {
    hide VerbOf, ToUpper, Incr, Push, Lpop, Rpop, Atoi, ToInt32;
    ExactVerbIsUpper(r.command.value);
    ForwardedRecord(r);
    EmptyIsNoNumber();
  }

  /** What the leader answers to a forwarded write that succeeds is what it answers to the write. */
  lemma ForwardedAnswer(r: Request, db: Db, now: int)
    requires Replicable(r) && Apply(db, r, now).outcome.Success?
    ensures Apply(db, Forwarded(r), now).outcome == Apply(db, r, now).outcome
  {
    hide VerbOf, ToUpper, Incr, Push, Lpop, Rpop, Atoi, ToInt32;
    ExactVerbIsUpper(r.command.value);
    EmptyIsNoNumber();
  }

  lemma EmptyIsNoNumber()
    ensures Atoi([]) == None
  {
  }

  /** A failed replicable write changes nothing. */
  lemma FailureIsNoOp(r: Request, db: Db, now: int)
    requires Replicable(r) && Clean(db) && !Apply(db, r, now).outcome.Success?
    ensures Apply(db, r, now).db == db
  {
    hide VerbOf, ToUpper, Atoi;
  }

  lemma PushKeepsClean(db: Db, k: Bytes, x: Elem)
    requires Clean(db) && x != Some([])
    ensures Clean(Push(db, k, x).db)
  {
  }

  lemma PopKeepsClean(db: Db, k: Bytes)
    requires Clean(db)
    ensures Clean(Lpop(db, k).db) && Clean(Rpop(db, k).db)
  {
  }

  lemma SameListsClean(a: Db, b: Db)
    requires Clean(a) && a.lists == b.lists
    ensures Clean(b)
  {
  }

  lemma TextKeepsLists(r: Request, db: Db, now: int)
    requires Loggable(r)
    ensures ApplySet(db, r, now).db.lists == db.lists && ApplyIncr(db, r).db.lists == db.lists
  {
    hide Atoi, Itoa, Deadline;
  }

  lemma ApplyKeepsClean(r: Request, db: Db, now: int)
    requires Replicable(r) && Clean(db)
    ensures Clean(Apply(db, r, now).db)
  {
    ExactVerbIsUpper(r.command.value);
    hide VerbOf, ToUpper, Atoi, Push, Lpop, Rpop, Clean, ApplySet, ApplyIncr;
    TextKeepsLists(r, db, now);
    match VerbOf(ToUpper(r.command.value)) {
      case PUSH =>
        if r.value.Some? {
          PushKeepsClean(db, r.key.value, r.value);
        }
      case LPOP => PopKeepsClean(db, r.key.value);
      case RPOP => PopKeepsClean(db, r.key.value);
      case SET => SameListsClean(db, Apply(db, r, now).db);
      case INCR => SameListsClean(db, Apply(db, r, now).db);
      case _ =>
    }
  }

  lemma SuccessIsFaithful(r: Request, db: Db, now: int)
    requires Replicable(r) && Apply(db, r, now).outcome.Success?
    ensures Faithful(r)
  {
    ExactVerbIsUpper(r.command.value);
    EmptyIsNoNumber();
    hide VerbOf, ToUpper, Atoi;
  }

  /** One node after logging and applying a write. */
  function AfterWrite(s: Replica, r: Request, now: int): Replica
    requires Logged(r)
  {
    Replica(Apply(s.db, r, now).db, s.log + Encode(EntryOf(r)))
  }

  lemma ForwardedHandled(s: Replica, r: Request, now: int)
    requires Replicable(r)
    ensures var step := Handle(s, Forwarded(r), now);
            step.replica == AfterWrite(s, r, now) && step.outcome.Success? == Apply(s.db, r, now).outcome.Success?
  {
    ForwardedApplies(r, s.db, now);
    ForwardedRecord(r);
    hide Apply, Handle, Forwarded, Encode, VerbOf, ToUpper;
    HandleLogged(s, Forwarded(r), now);
  }

  /** Fixed membership with the leader absent from its own list, and every follower reachable. */
  predicate Connected(c: State, reachable: set<int>) {
    && c.leader in c.replicas
    && c.listed == c.replicas.Keys - {c.leader}
    && c.listed <= reachable
  }

  /** The nodes that `ok` says are written, each once. */
  function WriteTo(c: State, r: Request, ok: bool, clock: Clock): State
    requires Logged(r)
  {
    c.(replicas := map m | m in c.replicas ::
      if m == c.leader || ok then AfterWrite(c.replicas[m], r, clock(m)) else c.replicas[m])
  }

  lemma DeliveredHandled(s: Replica, r: Request, now: int)
    requires Replicable(r)
    ensures var cmd := ConvertRequestToCommand(r);
            cmd.Some? && ApplyCommand(s, cmd.value, now) == AfterWrite(s, r, now)
  {
    hide Handle, AfterWrite, VerbOf, ToUpper;
    ForwardedHandled(s, r, now);
  }

  lemma ReplicateEffect(c: State, d: State, r: Request, reachable: set<int>, clock: Clock)
    requires Connected(c, reachable) && Replicable(r)
    requires d == c.(replicas := c.replicas[c.leader := AfterWrite(c.replicas[c.leader], r, clock(c.leader))])
    ensures d == WriteTo(c, r, false, clock)
    ensures ValidState(d)
    ensures Replicate(d, ConvertRequestToCommand(r).value, reachable, clock) == WriteTo(c, r, true, clock)
  {
    hide ApplyCommand, AfterWrite, VerbOf, ToUpper;
    var cmd := ConvertRequestToCommand(r).value;
    forall m | m in c.replicas
      ensures ApplyCommand(c.replicas[m], cmd, clock(m)) == AfterWrite(c.replicas[m], r, clock(m))
    {
      DeliveredHandled(c.replicas[m], r, clock(m));
    }
    assert d.replicas == WriteTo(c, r, false, clock).replicas;
    assert d.replicas.Keys == c.replicas.Keys;
  }

  /** The request as the leader executes it. */
  function AtLeader(c: State, n: int, r: Request): Request
    requires r.command.Some?
  {
    if n == c.leader then r else Forwarded(r)
  }

  /** A write word: the leader executes the request and, after success, sends it on. */
  lemma WriteRoute(c: State, n: int, r: Request, reachable: set<int>, clock: Clock)
    requires ValidState(c) && n in c.replicas && r.command.Some? && IsWriteCommand(r.command.value)
    ensures var own := Handle(c.replicas[c.leader], AtLeader(c, n, r), clock(c.leader));
            var d := c.(replicas := c.replicas[c.leader := own.replica]);
            ValidState(d) && Route(c, n, r, reachable, clock) ==
              Routed(if own.outcome.Success?
                     then Replicate(d, ConvertRequestToCommand(r).value, reachable, clock) else d,
                     if n == c.leader then own.outcome else Carried(own.outcome))
  {
    hide Handle, VerbOf, Replicate, ConvertCommandToRequest;
  }

  /** Every node logs and applies a successful write exactly once, wherever it arrived; a failed
      one reaches the leader only. */
  lemma RouteEffect(c: State, n: int, r: Request, reachable: set<int>, clock: Clock)
    requires Connected(c, reachable) && n in c.replicas && Replicable(r)
    ensures var ok := Apply(c.replicas[c.leader].db, r, clock(c.leader)).outcome.Success?;
            Route(c, n, r, reachable, clock).outcome.Success? == ok &&
            Route(c, n, r, reachable, clock).state == WriteTo(c, r, ok, clock)
  {
    ExactVerbIsUpper(r.command.value);
    hide Apply, Handle, Encode, VerbOf, ToUpper, ConvertCommandToRequest, Replicate, WriteTo, EntryOf, Route;
    HandleLogged(c.replicas[c.leader], r, clock(c.leader));
    ForwardedHandled(c.replicas[c.leader], r, clock(c.leader));
    WriteRoute(c, n, r, reachable, clock);
    var d := c.(replicas := c.replicas[c.leader := AfterWrite(c.replicas[c.leader], r, clock(c.leader))]);
    ReplicateEffect(c, d, r, reachable, clock);
  }

  /** The same answer wherever a successful write arrives, except that a follower's client does not
      get the number that INCR answers. */
  lemma AnswerAnywhere(c: State, n: int, r: Request, reachable: set<int>, clock: Clock)
    requires Connected(c, reachable) && n in c.replicas && Replicable(r)
    requires Apply(c.replicas[c.leader].db, r, clock(c.leader)).outcome.Success?
    ensures var own := Route(c, c.leader, r, reachable, clock).outcome;
            own == Apply(c.replicas[c.leader].db, r, clock(c.leader)).outcome &&
            Route(c, n, r, reachable, clock).outcome
              == if n != c.leader && own.reply.Number? then Success(Done) else own
  {
    var s, now := c.replicas[c.leader], clock(c.leader);
    ExactVerbIsUpper(r.command.value);
    hide Apply, Handle, Encode, VerbOf, ToUpper, ConvertCommandToRequest, Replicate, EntryOf, Route;
    HandleLogged(s, r, now);
    ForwardedApplies(r, s.db, now);
    HandleLogged(s, Forwarded(r), now);
    ForwardedAnswer(r, s.db, now);
    WriteRoute(c, n, r, reachable, clock);
    WriteRoute(c, c.leader, r, reachable, clock);
  }

  // ------------------------------------------------------------------ whole runs

  /** A client request arriving at some node. */
  datatype Arrival = Arrival(node: int, request: Request, clock: Clock)

  predicate Reading(r: Request) {
    r.command.Some? &&
    var v := VerbOf(ToUpper(r.command.value)); v.PING? || v.ECHO? || v.GET? || v.UNKNOWN?
  }

  predicate Acceptable(c: State, a: Arrival) {
    a.node in c.replicas && (Replicable(a.request) || Reading(a.request))
  }

  function Fresh(leader: int, followers: set<int>): State {
    State(leader, followers, map n | n in followers + {leader} :: FRESH)
  }

  function Arrive(c: State, a: Arrival, reachable: set<int>): Routed {
    if ValidState(c) && a.node in c.replicas then Route(c, a.node, a.request, reachable, a.clock)
    else Routed(c, Panic)
  }

  function RunCluster(c: State, arrivals: seq<Arrival>, reachable: set<int>): State {
    if arrivals == [] then c
    else Arrive(RunCluster(c, arrivals[..|arrivals| - 1], reachable), arrivals[|arrivals| - 1], reachable).state
  }

  /** The records of the writes that arrived, and of those among them that succeeded. */
  function Attempts(arrivals: seq<Arrival>): seq<Entry> {
    if arrivals == [] then []
    else
      var before, r := Attempts(arrivals[..|arrivals| - 1]), arrivals[|arrivals| - 1].request;
      if Replicable(r) then before + [EntryOf(r)] else before
  }

  function Successes(c: State, arrivals: seq<Arrival>, reachable: set<int>): seq<Entry> {
    if arrivals == [] then []
    else
      var init, a := arrivals[..|arrivals| - 1], arrivals[|arrivals| - 1];
      var before := Successes(c, init, reachable);
      if Replicable(a.request) && Arrive(RunCluster(c, init, reachable), a, reachable).outcome.Success?
      then before + [EntryOf(a.request)] else before
  }

  lemma ReadingHandled(s: Replica, r: Request, now: int)
    requires Reading(r)
    ensures Handle(s, r, now).replica == s && !IsWriteCommand(r.command.value)
  {
    if VerbOf(r.command.value) != UNKNOWN {
      ExactVerbIsUpper(r.command.value);
    }
    hide VerbOf, ToUpper;
  }

  lemma ReadEffect(c: State, a: Arrival, reachable: set<int>)
    requires ValidState(c) && a.node in c.replicas && Reading(a.request)
    ensures Arrive(c, a, reachable).state == c
  {
    hide Handle, VerbOf, ToUpper, Replicate, IsWriteCommand;
    ReadingHandled(c.replicas[a.node], a.request, a.clock(a.node));
    assert c.replicas[a.node := c.replicas[a.node]] == c.replicas;
  }

  /** All databases are what the successful writes make of an empty one; followers have logged
      exactly those, the leader every attempt. */
  predicate Converged(c: State, attempts: seq<Entry>, successes: seq<Entry>) {
    && c.leader in c.replicas
    && Clean(Effects(EMPTY, NormalAll(successes)))
    && forall m :: m in c.replicas ==>
         c.replicas[m] == Replica(Effects(EMPTY, NormalAll(successes)),
                                  EncodeAll(if m == c.leader then attempts else successes))
  }

  lemma WriteConverges(c: State, attempts: seq<Entry>, successes: seq<Entry>, r: Request, ok: bool, clock: Clock)
    requires Converged(c, attempts, successes) && Replicable(r)
    requires ok == Apply(c.replicas[c.leader].db, r, clock(c.leader)).outcome.Success?
    ensures Converged(WriteTo(c, r, ok, clock), attempts + [EntryOf(r)],
                      if ok then successes + [EntryOf(r)] else successes)
  {
    if ok {
      SuccessConverges(c, attempts, successes, r, clock);
    } else {
      FailureConverges(c, attempts, successes, r, clock);
    }
  }

  lemma FailureConverges(c: State, attempts: seq<Entry>, successes: seq<Entry>, r: Request, clock: Clock)
    requires Converged(c, attempts, successes) && Replicable(r)
    requires !Apply(c.replicas[c.leader].db, r, clock(c.leader)).outcome.Success?
    ensures Converged(WriteTo(c, r, false, clock), attempts + [EntryOf(r)], successes)
  {
    hide Apply, VerbOf, ToUpper, Encode, EncodeAll, Effects, NormalAll, Clean, EntryOf;
    EncodeAllLast(attempts, EntryOf(r));
    FailureIsNoOp(r, c.replicas[c.leader].db, clock(c.leader));
  }

  lemma SuccessConverges(c: State, attempts: seq<Entry>, successes: seq<Entry>, r: Request, clock: Clock)
    requires Converged(c, attempts, successes) && Replicable(r)
    requires Apply(c.replicas[c.leader].db, r, clock(c.leader)).outcome.Success?
    ensures Converged(WriteTo(c, r, true, clock), attempts + [EntryOf(r)], successes + [EntryOf(r)])
  {
    hide Apply, VerbOf, ToUpper, Encode, EncodeAll, Effects, NormalAll, Clean, EntryOf;
    EncodeAllLast(attempts, EntryOf(r));
    EncodeAllLast(successes, EntryOf(r));
    SuccessesConverge(c.replicas[c.leader].db, successes, r, clock, c.leader);
  }

  lemma SuccessesConverge(db: Db, es: seq<Entry>, r: Request, clock: Clock, leader: int)
    requires Replicable(r) && db == Effects(EMPTY, NormalAll(es)) && Clean(db)
    requires Apply(db, r, clock(leader)).outcome.Success?
    ensures Clean(Effects(EMPTY, NormalAll(es + [EntryOf(r)])))
    ensures forall m :: Apply(db, r, clock(m)).db == Effects(EMPTY, NormalAll(es + [EntryOf(r)]))
  {
    hide Apply, Effects, NormalAll, Clean, EntryOf, Faithful, VerbOf, ToUpper;
    ApplyKeepsClean(r, db, clock(leader));
    SuccessIsFaithful(r, db, clock(leader));
    forall m ensures Apply(db, r, clock(m)).db == Effects(EMPTY, NormalAll(es + [EntryOf(r)])) {
      SuccessEffect(r, es, db, clock(m));
    }
  }

  lemma SuccessEffect(r: Request, es: seq<Entry>, db: Db, now: int)
    requires Logged(r) && Faithful(r) && db == Effects(EMPTY, NormalAll(es))
    ensures Apply(db, r, now).db == Effects(EMPTY, NormalAll(es + [EntryOf(r)]))
  {
    hide Apply, Faithful, ReplayOne, Effects, NormalAll, Normal, VerbOf, ToUpper;
    FaithfulReplays(r, db, now);
    NormalAllLast(es, EntryOf(r));
    EffectsAppend(EMPTY, NormalAll(es), Normal(EntryOf(r)));
  }

  predicate SameMembers(c: State, d: State) {
    c.leader == d.leader && c.listed == d.listed && c.replicas.Keys == d.replicas.Keys
  }

  lemma ArrivalConverges(c: State, attempts: seq<Entry>, successes: seq<Entry>, a: Arrival, reachable: set<int>)
    requires Converged(c, attempts, successes) && Connected(c, reachable) && Acceptable(c, a)
    ensures var routed := Arrive(c, a, reachable);
            SameMembers(c, routed.state) &&
            if Replicable(a.request)
            then Converged(routed.state, attempts + [EntryOf(a.request)],
                           if routed.outcome.Success? then successes + [EntryOf(a.request)] else successes)
            else Converged(routed.state, attempts, successes)
  {
    hide Converged, VerbOf, ToUpper, Apply, Route;
    if Replicable(a.request) {
      RouteEffect(c, a.node, a.request, reachable, a.clock);
      var ok := Apply(c.replicas[c.leader].db, a.request, a.clock(c.leader)).outcome.Success?;
      WriteConverges(c, attempts, successes, a.request, ok, a.clock);
    } else {
      ReadEffect(c, a, reachable);
    }
  }

  /** Follower convergence over every run of a fresh cluster. */
  lemma {:induction false} FollowersConverge(c: State, arrivals: seq<Arrival>, reachable: set<int>)
    requires c == Fresh(c.leader, c.listed) && Connected(c, reachable)
    requires forall i :: 0 <= i < |arrivals| ==> Acceptable(c, arrivals[i])
    ensures Converged(RunCluster(c, arrivals, reachable), Attempts(arrivals), Successes(c, arrivals, reachable))
    ensures SameMembers(c, RunCluster(c, arrivals, reachable))
  {
    if arrivals == [] {
      FreshConverged(c);
    } else {
      var init, a := arrivals[..|arrivals| - 1], arrivals[|arrivals| - 1];
      FollowersConverge(c, init, reachable);
      hide Converged, Replicable, Reading, Apply, Arrive;
      ArrivalConverges(RunCluster(c, init, reachable), Attempts(init), Successes(c, init, reachable), a, reachable);
    }
  }

  lemma FreshConverged(c: State)
    requires c == Fresh(c.leader, c.listed)
    ensures Converged(c, [], [])
  {
  }
}
