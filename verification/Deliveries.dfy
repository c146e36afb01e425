/** Replication without a lock: a write is logged, applied on the leader and then delivered to each
    follower in separate steps, so two writes can reach different nodes in different orders. */
module Deliveries {
  import opened Bytes
  import opened Collections
  import opened Decimal
  import opened Requests
  import opened Persistence
  import opened Store
  import opened Commands
  import opened Keys
  import opened Replay
  import opened Convergence
  import opened Concurrency
  import opened Overlap

  /** The leader's shared state, and for every follower its database and the writes not yet delivered
      to it, in the order in which the leader applied them. */
  datatype Net = Net(lead: System, dbs: map<int, Db>, queues: map<int, seq<Move>>)

  /** A critical section of a handler on the leader, or one delivery. */
  datatype Stage = Lead(move: Move) | Deliver(node: int, i: nat, now: int)

  /** A write of the plain form that replays faithfully. */
  predicate Plain(t: Task) {
    t.Write? && Replicable(t.request) && WellBehaved(t)
  }

  predicate Ready(c: Net, a: Stage) {
    match a
    case Lead(m) =>
      Enabled(c.lead, m) && if m.Begin? then Plain(m.task) else Plain(c.lead.inFlight[m.handler])
    case Deliver(n, i, _) =>
      n in c.dbs && n in c.queues && i < |c.queues[n]| && c.queues[n][i].Begin? && Plain(c.queues[n][i].task)
  }

  /** The leader replicates after success only. */
  predicate Replicates(c: Net, m: Move)
    requires Ready(c, Lead(m))
  {
    m.End? && Apply(c.lead.db, c.lead.inFlight[m.handler].request, m.now).outcome.Success?
  }

  function Enqueued(queues: map<int, seq<Move>>, m: Move): map<int, seq<Move>> {
    map n | n in queues :: queues[n] + [m]
  }

  function Advance(c: Net, a: Stage): Net
    requires Ready(c, a)
  {
    match a
    case Lead(m) =>
      Net(Do(c.lead, m), c.dbs,
          if Replicates(c, m) then Enqueued(c.queues, Begin(m.handler, c.lead.inFlight[m.handler])) else c.queues)
    case Deliver(n, i, now) =>
      var r := c.queues[n][i].task.request;
      c.(dbs := c.dbs[n := Apply(c.dbs[n], Forwarded(r), now).db], queues := c.queues[n := Without(c.queues[n], i)])
  }

  // ------------------------------------------------------------------ what every stage keeps

  predicate AllPlain(w: seq<Move>) {
    forall i :: 0 <= i < |w| ==> w[i].Begin? && Plain(w[i].task)
  }

  lemma PlainIsClean(w: seq<Move>)
    requires AllPlain(w)
    ensures WaitsCleanly(w)
  {
    hide WellBehaved, Replicable;
  }

  /** The follower's database is the leader's once the waiting writes are carried out, which commute. */
  predicate Behind(db: Db, w: seq<Move>, target: Db) {
    AllPlain(w) && WaitsCleanly(w) && PairwiseCommute(w) && DoAll(db, w) == target
  }

  predicate Tracked(c: Net) {
    Clean(c.lead.db) && AllBehind(c.dbs, c.queues, c.lead.db)
  }

  /** A write that the leader is about to replicate commutes with all that are still undelivered. */
  predicate OnlyCommutingUndelivered(c: Net, a: Stage)
    requires Ready(c, a)
  {
    a.Lead? && Replicates(c, a.move) ==>
      var t := c.lead.inFlight[a.move.handler];
      forall n :: n in c.queues ==> CommutesWithAll(t, c.queues[n])
  }

  predicate CommutesWithAll(t: Task, w: seq<Move>)
    requires WellBehaved(t)
  {
    forall j :: 0 <= j < |w| && w[j].Begin? && WellBehaved(w[j].task) ==> Commute(t, w[j].task)
  }

  lemma BehindMore(db: Db, w: seq<Move>, target: Db, m: Move)
    requires Behind(db, w, target) && m.Begin? && Plain(m.task)
    requires CommutesWithAll(m.task, w)
    ensures Behind(db, w + [m], TaskEffect(target, m.task))
  {
    hide WellBehaved, Commute, TaskEffect, Replicable, DoAll;
    DoAllAppend(db, w, m);
  }

  lemma DeliveredEffect(db: Db, t: Task, now: int)
    requires Plain(t)
    ensures Loggable(Forwarded(t.request)) && Apply(db, Forwarded(t.request), now).db == TaskEffect(db, t)
  {
    hide Apply, Effect, VerbOf, ToUpper, Faithful, Fits, Forwarded;
    ForwardedApplies(t.request, db, now);
    FaithfulEffect(t.request, db, now);
  }

  lemma BehindLess(db: Db, w: seq<Move>, target: Db, i: nat, now: int)
    requires Behind(db, w, target) && i < |w|
    ensures Loggable(Forwarded(w[i].task.request))
    ensures Behind(Apply(db, Forwarded(w[i].task.request), now).db, Without(w, i), target)
  {
    hide Plain, TaskEffect, DoAll, Without, Apply, Forwarded, PairwiseCommute, WaitsCleanly;
    DeliveredEffect(db, w[i].task, now);
    FirstOf(db, w, i);
    EndCommutes(w, i);
    WithoutAt(w, i);
  }

  lemma FirstOf(db: Db, w: seq<Move>, i: nat)
    requires WaitsCleanly(w) && PairwiseCommute(w) && i < |w|
    ensures DoAll(db, w) == DoAll(TaskEffect(db, w[i].task), Without(w, i))
  {
    hide TaskEffect, DoAll, Without, Commute, WellBehaved;
    GoesFirst(db, w, i);
  }

  lemma LeadEffect(c: Net, m: Move)
    requires Ready(c, Lead(m)) && Clean(c.lead.db)
    ensures Clean(Do(c.lead, m).db)
    ensures Do(c.lead, m).db
         == if Replicates(c, m) then TaskEffect(c.lead.db, c.lead.inFlight[m.handler]) else c.lead.db
  {
    hide Apply, Effect, VerbOf, ToUpper, Faithful, Fits, Encode, Clean;
    if m.End? {
      var r := c.lead.inFlight[m.handler].request;
      EndEffect(c.lead, m);
      ApplyKeepsClean(r, c.lead.db, m.now);
      if !Replicates(c, m) {
        FailureIsNoOp(r, c.lead.db, m.now);
      }
    }
  }

  predicate AllBehind(dbs: map<int, Db>, queues: map<int, seq<Move>>, target: Db) {
    dbs.Keys == queues.Keys && forall n :: n in dbs ==> Behind(dbs[n], queues[n], target)
  }

  lemma EnqueuedBehind(dbs: map<int, Db>, queues: map<int, seq<Move>>, target: Db, m: Move)
    requires AllBehind(dbs, queues, target) && m.Begin? && Plain(m.task)
    requires forall n :: n in queues ==> CommutesWithAll(m.task, queues[n])
    ensures AllBehind(dbs, Enqueued(queues, m), TaskEffect(target, m.task))
  {
    hide Behind, CommutesWithAll, TaskEffect, Plain;
    forall n | n in dbs ensures Behind(dbs[n], queues[n] + [m], TaskEffect(target, m.task)) {
      BehindMore(dbs[n], queues[n], target, m);
    }
  }

  lemma LeadTracked(c: Net, m: Move)
    requires Tracked(c) && Ready(c, Lead(m)) && OnlyCommutingUndelivered(c, Lead(m))
    ensures Tracked(Advance(c, Lead(m)))
  {
    LeadEffect(c, m);
    if Replicates(c, m) {
      var t := c.lead.inFlight[m.handler];
      assert Plain(t);
      hide Do, Plain, TaskEffect, Clean, AllBehind, Replicates, Enabled;
      EnqueuedBehind(c.dbs, c.queues, c.lead.db, Begin(m.handler, t));
    }
    hide Do, Plain, TaskEffect, Clean, AllBehind, Enqueued, Replicates, Enabled;
  }

  lemma DeliverTracked(c: Net, n: int, i: nat, now: int)
    requires Tracked(c) && Ready(c, Deliver(n, i, now))
    ensures Tracked(Advance(c, Deliver(n, i, now)))
  {
    BehindLess(c.dbs[n], c.queues[n], c.lead.db, i, now);
    hide Behind, Apply, Forwarded, Without, Clean, Plain;
  }

  // ------------------------------------------------------------------ every run

  function Started(followers: set<int>): Net {
    Net(START, map n | n in followers :: EMPTY, map n | n in followers :: [])
  }

  ghost predicate Possible(followers: set<int>, run: seq<Stage>)
    decreases |run|, 0
  {
    run != [] ==>
      var init := run[..|run| - 1];
      Possible(followers, init) && Ready(Reach(followers, init), run[|run| - 1])
  }

  ghost function Reach(followers: set<int>, run: seq<Stage>): Net
    requires Possible(followers, run)
    decreases |run|, 1
  {
    if run == [] then Started(followers)
    else Advance(Reach(followers, run[..|run| - 1]), run[|run| - 1])
  }

  ghost predicate Smooth(followers: set<int>, run: seq<Stage>)
    requires Possible(followers, run)
  {
    run != [] ==>
      var init := run[..|run| - 1];
      Smooth(followers, init) && OnlyCommutingUndelivered(Reach(followers, init), run[|run| - 1])
  }

  lemma {:induction false} RunTracked(followers: set<int>, run: seq<Stage>)
    requires Possible(followers, run) && Smooth(followers, run)
    ensures Tracked(Reach(followers, run)) && Reach(followers, run).dbs.Keys == followers
  {
    if run == [] {
      StartedTracked(followers);
    } else {
      var init, a := run[..|run| - 1], run[|run| - 1];
      RunTracked(followers, init);
      hide Tracked, OnlyCommutingUndelivered, Ready;
      match a {
        case Lead(m) => LeadTracked(Reach(followers, init), m);
        case Deliver(n, i, now) => DeliverTracked(Reach(followers, init), n, i, now);
      }
      SameFollowers(Reach(followers, init), a);
    }
  }

  lemma StartedTracked(followers: set<int>)
    ensures Tracked(Started(followers))
  {
  }

  lemma SameFollowers(c: Net, a: Stage)
    requires Ready(c, a)
    ensures Advance(c, a).dbs.Keys == c.dbs.Keys
  {
    hide Apply, Forwarded, Do, Plain;
  }

  /** The sections of the leader's handlers, without the deliveries. */
  function LeaderMoves(run: seq<Stage>): seq<Move> {
    if run == [] then []
    else
      var before, a := LeaderMoves(run[..|run| - 1]), run[|run| - 1];
      if a.Lead? then before + [a.move] else before
  }

  lemma {:induction false} LeaderRuns(followers: set<int>, run: seq<Stage>)
    requires Possible(followers, run)
    ensures Feasible(LeaderMoves(run)) && Reach(followers, run).lead == Exec(LeaderMoves(run))
  {
    if run != [] {
      var init, a := run[..|run| - 1], run[|run| - 1];
      LeaderRuns(followers, init);
      hide Do, Apply, Plain, Enabled;
      if a.Lead? {
        assert (LeaderMoves(init) + [a.move])[..|LeaderMoves(init)|] == LeaderMoves(init);
      }
    }
  }

  /** Every instant of every run in which only commuting writes are undelivered together: each
      follower becomes the leader by the writes that still wait for it. */
  lemma EveryFollowerCatchesUp(followers: set<int>, run: seq<Stage>, n: int)
    requires Possible(followers, run) && Smooth(followers, run) && n in followers
    ensures var c := Reach(followers, run);
            n in c.dbs && n in c.queues && DoAll(c.dbs[n], c.queues[n]) == c.lead.db &&
            (c.queues[n] == [] ==> c.dbs[n] == c.lead.db)
  {
    RunTracked(followers, run);
    hide Clean, AllPlain, Possible, Smooth, WaitsCleanly;
  }

  /** Nothing is between its log record and its last delivery. */
  predicate Idle(c: Net) {
    c.lead.inFlight == map[] && forall n :: n in c.queues ==> c.queues[n] == []
  }

  /** If moreover only commuting writes overlap on the leader, then whenever nothing is pending every
      follower's database, the leader's, and the one its log replays to are the same. */
  lemma IdleIsLevel(followers: set<int>, run: seq<Stage>)
    requires Possible(followers, run) && Smooth(followers, run)
    requires Feasible(LeaderMoves(run)) && Harmonious(LeaderMoves(run))
    requires Idle(Reach(followers, run))
    ensures var c := Reach(followers, run);
            c.dbs.Keys == followers &&
            (forall n :: n in followers ==> c.dbs[n] == c.lead.db) &&
            Rebuild(EMPTY, Load(c.lead.log)) == Some(c.lead.db)
  {
    var c := Reach(followers, run);
    RunTracked(followers, run);
    LeaderRuns(followers, run);
    CommutingQuiescentReplay(LeaderMoves(run));
    forall n | n in followers ensures c.dbs[n] == c.lead.db {
      EveryFollowerCatchesUp(followers, run, n);
    }
  }

  // ------------------------------------------------------------------ one reversed pair

  /** Nothing is pending, the log agrees with the database key by key, and so does every follower. */
  ghost predicate Level(c: Net) {
    && Quiet(c.lead) && Clean(c.lead.db) && c.dbs.Keys == c.queues.Keys
    && forall n :: n in c.dbs ==> c.dbs[n] == c.lead.db && c.queues[n] == []
  }

  predicate Succeeds(db: Db, t: Task)
    requires Plain(t)
  {
    Apply(db, t.request, 0).outcome.Success?
  }

  predicate BothSucceed(db: Db, t: Task, u: Task)
    requires Plain(t) && Plain(u)
  {
    Succeeds(db, t) && Succeeds(TaskEffect(db, t), u)
  }

  /** One handler's two sections on the leader. */
  function Served(c: Net, t: Task): (d: Net)
    requires c.lead.inFlight == map[] && Plain(t)
    ensures d.lead.inFlight == map[] && d.dbs == c.dbs
    ensures d.queues == if Succeeds(c.lead.db, t) then Enqueued(c.queues, Begin(0, t)) else c.queues
    ensures d.lead.db == TaskEffect(c.lead.db, t)
  {
    hide Apply, Encode, Normal, Replicable, Faithful, Fits, VerbOf, ToUpper;
    var b := Advance(c, Lead(Begin(0, t)));
    assert b.lead.inFlight == map[0 := t] && b.queues == c.queues && b.lead.db == c.lead.db;
    EndEffect(b.lead, End(0, 0));
    Advance(b, Lead(End(0, 0)))
  }

  /** The i-th waiting write delivered to n. */
  function Handed(c: Net, n: int, i: nat): (d: Net)
    requires Ready(c, Deliver(n, i, 0))
    ensures d.lead == c.lead && n in d.dbs && d.dbs[n] == TaskEffect(c.dbs[n], c.queues[n][i].task)
    ensures n in d.queues && d.queues[n] == Without(c.queues[n], i)
  {
    DeliveredEffect(c.dbs[n], c.queues[n][i].task, 0);
    Advance(c, Deliver(n, i, 0))
  }

  /** The leader serves t, then u, and both wait for n. */
  function ServedBoth(c: Net, n: int, t: Task, u: Task): (d: Net)
    requires c.lead.inFlight == map[] && Plain(t) && Plain(u) && BothSucceed(c.lead.db, t, u)
    requires n in c.dbs && n in c.queues && c.queues[n] == []
    ensures d.lead.db == TaskEffect(TaskEffect(c.lead.db, t), u) && d.dbs == c.dbs
    ensures n in d.queues && d.queues[n] == [Begin(0, t), Begin(0, u)]
  {
    hide Plain, TaskEffect, Apply;
    var once := Served(c, t);
    assert once.queues[n] == [Begin(0, t)];
    var twice := Served(once, u);
    assert twice.queues[n] == [Begin(0, t)] + [Begin(0, u)];
    twice
  }

  /** Then u is delivered to n. */
  function HalfSwapped(c: Net, n: int, t: Task, u: Task): (d: Net)
    requires c.lead.inFlight == map[] && Plain(t) && Plain(u) && BothSucceed(c.lead.db, t, u)
    requires n in c.dbs && n in c.queues && c.queues[n] == []
    ensures d.lead.db == TaskEffect(TaskEffect(c.lead.db, t), u)
    ensures n in d.dbs && d.dbs[n] == TaskEffect(c.dbs[n], u)
    ensures n in d.queues && d.queues[n] == [Begin(0, t)]
  {
    var both := ServedBoth(c, n, t, u);
    assert both.queues[n][1] == Begin(0, u) && both.queues[n][..1] == [Begin(0, t)];
    Handed(both, n, 1)
  }

  /** Then t is. */
  function Swapped(c: Net, n: int, t: Task, u: Task): (d: Net)
    requires c.lead.inFlight == map[] && Plain(t) && Plain(u) && BothSucceed(c.lead.db, t, u)
    requires n in c.dbs && n in c.queues && c.queues[n] == []
    ensures d.lead.db == TaskEffect(TaskEffect(c.lead.db, t), u)
    ensures n in d.dbs && d.dbs[n] == TaskEffect(TaskEffect(c.dbs[n], u), t)
  {
    Handed(HalfSwapped(c, n, t, u), n, 0)
  }

  function ActOfTask(t: Task): Act
    requires Plain(t)
  {
    ActOf(RecordOf(t.request))
  }

  predicate SameKey(t: Task, u: Task)
    requires Plain(t) && Plain(u)
  {
    t.request.key == u.request.key
  }

  /** Two writes that the leader served in this order and a follower may get in the other: they
      commute, or they are a pop from the left and then a push on the right, because the pop, having
      succeeded, left the elements after its own alone. */
  predicate MaySwap(t: Task, u: Task)
    requires Plain(t) && Plain(u)
  {
    Commute(t, u) || (SameKey(t, u) && ActOfTask(t).TakeLeft? && ActOfTask(u).Append?)
  }

  /** When an act takes effect live. */
  predicate Applicable(db: Db, k: Bytes, a: Act) {
    match a
    case Nothing => false
    case Bump(_) => k in db.store && Atoi(db.store[k]).Some?
    case TakeLeft => k in db.lists && db.lists[k] != []
    case TakeRight => k in db.lists && db.lists[k] != []
    case _ => true
  }

  lemma TextSuccessIff(db: Db, t: Task)
    requires Plain(t) && (IsVerb(t, SET) || IsVerb(t, INCR))
    ensures Succeeds(db, t) <==> Applicable(db, RecordOf(t.request).key, ActOfTask(t))
  {
    var r := t.request;
    ExactVerbIsUpper(r.command.value);
    EmptyIsNoNumber();
    hide VerbOf, ToUpper, Atoi, Fits, Incr;
    if IsVerb(t, INCR) && Atoi(OrEmpty(r.offset)).Some? {
      IncrSucceedsIff(db, r.key.value, Atoi(r.offset.value).value);
    }
  }

  lemma ListSuccessIff(db: Db, t: Task)
    requires Plain(t) && Clean(db) && !IsVerb(t, SET) && !IsVerb(t, INCR)
    ensures Succeeds(db, t) <==> Applicable(db, RecordOf(t.request).key, ActOfTask(t))
  {
    ExactVerbIsUpper(t.request.command.value);
    hide VerbOf, ToUpper, Fits, Clean, Lpop, Rpop;
    if !IsVerb(t, PUSH) {
      PopSucceedsIff(db, t.request.key.value);
    }
  }

  predicate IsVerb(t: Task, v: Verb) {
    t.Write? && t.request.command.Some? && VerbOf(t.request.command.value) == v
  }

  lemma SuccessIff(db: Db, t: Task)
    requires Plain(t) && Clean(db)
    ensures Succeeds(db, t) <==> Applicable(db, RecordOf(t.request).key, ActOfTask(t))
  {
    hide Plain, Applicable, Succeeds, ActOfTask, Clean;
    if IsVerb(t, SET) || IsVerb(t, INCR) {
      TextSuccessIff(db, t);
    } else {
      ListSuccessIff(db, t);
    }
  }

  lemma IncrSucceedsIff(db: Db, k: Bytes, n: int)
    requires k != []
    ensures Incr(db, k, n).result.Ok? <==> k in db.store && Atoi(db.store[k]).Some?
  {
    hide Atoi;
  }

  lemma PopSucceedsIff(db: Db, k: Bytes)
    requires Clean(db) && k != []
    ensures FinishPop(Lpop(db, k)).outcome.Success? <==> k in db.lists && db.lists[k] != []
    ensures FinishPop(Rpop(db, k)).outcome.Success? <==> k in db.lists && db.lists[k] != []
  {
  }

  lemma TaskActs(db: Db, t: Task)
    requires Plain(t)
    ensures RecordOf(t.request).key != [] && ValidAct(ActOfTask(t))
    ensures Some(RecordOf(t.request).key) == t.request.key
    ensures TaskEffect(db, t) == DoAct(db, RecordOf(t.request).key, ActOfTask(t))
  {
    EffectIsAct(db, RecordOf(t.request));
    ActIsValid(RecordOf(t.request));
    hide VerbOf, ToUpper, ActOf, Effect, Fits, Faithful;
  }

  lemma PopThenPush(db: Db, k: Bytes, x: Elem)
    requires k != [] && k in db.lists && db.lists[k] != []
    ensures Push(Lpop(db, k).db, k, x).db == Lpop(Push(db, k, x).db, k).db
  {
    var s := db.lists[k];
    assert s[1..] + [x] == (s + [x])[1..];
    assert db.lists[k := s[1..]][k := s[1..] + [x]] == db.lists[k := s + [x]][k := (s + [x])[1..]];
  }

  lemma SwapHarmless(db: Db, t: Task, u: Task)
    requires Plain(t) && Plain(u) && Clean(db) && BothSucceed(db, t, u) && MaySwap(t, u)
    ensures TaskEffect(TaskEffect(db, t), u) == TaskEffect(TaskEffect(db, u), t)
  {
    if Commute(t, u) {
      TasksCommute(t, u, db);
    } else {
      SuccessIff(db, t);
      TaskActs(db, t);
      TaskActs(db, u);
      TaskActs(TaskEffect(db, t), u);
      TaskActs(TaskEffect(db, u), t);
      hide Plain, TaskEffect, ActOfTask, Succeeds;
      PopThenPush(db, RecordOf(t.request).key, ActOfTask(u).item);
    }
  }

  /** A key's contents with which two writes that may not swap part ways. */
  function Contents(k: Bytes, a: Act, b: Act): Db {
    if a.Bump? then EMPTY.(store := map[k := ['0']])
    else if a.TakeRight? then EMPTY.(lists := map[k := [Some(if b == Append(Some(['x'])) then ['y'] else ['x'])]])
    else EMPTY
  }

  lemma ActsMayNotSwap(k: Bytes, a: Act, b: Act)
    requires k != [] && ValidAct(a) && ValidAct(b) && !CommuteActs(a, b) && !(a.TakeLeft? && b.Append?)
    ensures var db := Contents(k, a, b);
            Applicable(db, k, a) && Applicable(DoAct(db, k, a), k, b) &&
            DoAct(DoAct(db, k, a), k, b) != DoAct(DoAct(db, k, b), k, a)
  {
    hide Itoa, Wrap64, KeepThenBump, Atoi;
    var db := Contents(k, a, b);
    if a.Bump? {
      ZeroIsNumber();
      BumpThenKeep(k, b.text, a.offset);
    } else if a.TakeRight? {
      assert DoAct(DoAct(db, k, a), k, b).lists[k] == [b.item];
      assert DoAct(DoAct(db, k, b), k, a).lists[k] == db.lists[k];
    } else {
      ActsDiverge(k, a, b);
      if b.Bump? {
        KeptIsNumber(a.text, b.offset);
      }
    }
  }

  lemma ZeroIsNumber()
    ensures Atoi(['0']) == Some(0)
  {
    var zero: Bytes := ['0'];
    ValueZero(zero);
  }

  lemma KeptIsNumber(v: Bytes, n: int)
    requires !KeepThenBump(v, n)
    ensures Atoi(v).Some?
  {
  }

  lemma BumpThenKeep(k: Bytes, v: Bytes, n: int)
    requires k != [] && v != [] && FitsInt64(n) && !KeepThenBump(v, n)
    ensures var db := EMPTY.(store := map[k := ['0']]);
            Set(Incr(db, k, n).db, k, v, 0, 0).db != Incr(Set(db, k, v, 0, 0).db, k, n).db
  {
    var db := EMPTY.(store := map[k := ['0']]);
    KeptIsNumber(v, n);
    BumpText(v, n);
    hide Atoi, Itoa, Wrap64, KeepThenBump;
    assert Set(Incr(db, k, n).db, k, v, 0, 0).db.store[k] == v;
    assert Incr(Set(db, k, v, 0, 0).db, k, n).db.store[k] != v;
  }

  /** The record that makes those contents, if it takes one. */
  function Maker(k: Bytes, a: Act, b: Act): seq<Entry> {
    if a.Bump? then [Entry("SET", k, Some(['0']), None)]
    else if a.TakeRight? then
      [Entry("PUSH", k, Some(if b == Append(Some(['x'])) then ['y'] else ['x']), None)]
    else []
  }

  lemma OneEffect(e: Entry)
    ensures Effects(EMPTY, [e]) == Effect(EMPTY, e)
  {
    hide Effect;
    assert [] + [e] == [e];
    NoEffects();
    EffectsAppend(EMPTY, [], e);
  }

  lemma MakerEffect(k: Bytes, v: Bytes)
    requires k != [] && v != []
    ensures Effect(EMPTY, Entry("SET", k, Some(v), None)) == EMPTY.(store := map[k := v])
    ensures Effect(EMPTY, Entry("PUSH", k, Some(v), None)) == EMPTY.(lists := map[k := [Some(v)]])
  {
    assert ListAt(EMPTY, k) + [Some(v)] == [Some(v)];
  }

  lemma MakerMakes(k: Bytes, a: Act, b: Act)
    requires k != [] && |k| <= MAXREAD
    ensures var es := Maker(k, a, b);
            AllFit(es) && Effects(EMPTY, es) == Contents(k, a, b) &&
            (forall i :: 0 <= i < |es| ==> es[i] == Normal(es[i]) && !Poison(es[i]))
  {
    if Maker(k, a, b) == [] {
      NoEffects();
    } else {
      OneEffect(Maker(k, a, b)[0]);
      MakerEffect(k, ['0']);
      MakerEffect(k, ['x']);
      MakerEffect(k, ['y']);
      hide Effect, Effects, VerbOf;
    }
  }

  /** A quiet leader with that history, and one follower. */
  function LevelNet(es: seq<Entry>): Net {
    Net(System(EncodeAll(es), Effects(EMPTY, es), map[], es, es), map[0 := Effects(EMPTY, es)], map[0 := []])
  }

  lemma ContentsLevel(k: Bytes, a: Act, b: Act)
    requires k != [] && |k| <= MAXREAD
    ensures Level(LevelNet(Maker(k, a, b)))
  {
    assert Clean(Contents(k, a, b));
    hide EncodeAll, Effects, Normal, Poison, Maker, Contents, Fits, Clean, OnKey;
    MakerMakes(k, a, b);
  }

  lemma SwapDiverges(t: Task, u: Task)
    requires Plain(t) && Plain(u) && !MaySwap(t, u)
    ensures var c := LevelNet(Maker(RecordOf(t.request).key, ActOfTask(t), ActOfTask(u)));
            Level(c) && BothSucceed(c.lead.db, t, u) && 0 in c.dbs && c.queues[0] == [] &&
            TaskEffect(TaskEffect(c.lead.db, t), u) != TaskEffect(TaskEffect(c.lead.db, u), t)
  {
    var k, a, b := RecordOf(t.request).key, ActOfTask(t), ActOfTask(u);
    var db := Contents(k, a, b);
    MaySwapActs(t, u);
    TaskActs(db, t);
    TaskActs(db, u);
    TaskActs(TaskEffect(db, t), u);
    TaskActs(TaskEffect(db, u), t);
    MakerMakes(k, a, b);
    ContentsLevel(k, a, b);
    ActsMayNotSwap(k, a, b);
    SuccessAfter(db, t, u);
    hide Plain, TaskEffect, ActOfTask, MaySwap, Contents, Maker, Effects, DoAct, Applicable, Succeeds;
  }

  lemma MaySwapActs(t: Task, u: Task)
    requires Plain(t) && Plain(u) && !MaySwap(t, u)
    ensures RecordOf(t.request).key == RecordOf(u.request).key && |RecordOf(t.request).key| <= MAXREAD
    ensures !CommuteActs(ActOfTask(t), ActOfTask(u)) && !(ActOfTask(t).TakeLeft? && ActOfTask(u).Append?)
  {
    hide ActOf, CommuteActs, VerbOf, ToUpper, Faithful;
  }

  lemma SuccessAfter(db: Db, t: Task, u: Task)
    requires Plain(t) && Plain(u) && Clean(db)
    ensures BothSucceed(db, t, u)
       <==> Applicable(db, RecordOf(t.request).key, ActOfTask(t)) &&
            Applicable(TaskEffect(db, t), RecordOf(u.request).key, ActOfTask(u))
  {
    SuccessIff(db, t);
    TaskKeepsClean(db, t);
    SuccessIff(TaskEffect(db, t), u);
    hide Plain, TaskEffect, ActOfTask, Applicable, Succeeds, Clean;
  }

  lemma TaskKeepsClean(db: Db, t: Task)
    requires Plain(t) && Clean(db)
    ensures Clean(TaskEffect(db, t))
  {
    hide Apply, Effect, VerbOf, ToUpper, Faithful, Fits, Clean;
    FaithfulEffect(t.request, db, 0);
    ApplyKeepsClean(t.request, db, 0);
  }

  /** From this state, swapping the deliveries to n leaves it equal to the leader. */
  ghost predicate SwapAgrees(c: Net, n: int, t: Task, u: Task)
    requires Plain(t) && Plain(u)
  {
    Level(c) && n in c.dbs && BothSucceed(c.lead.db, t, u) ==>
      var d := Swapped(c, n, t, u);
      d.dbs[n] == d.lead.db
  }

  /** Two writes that the leader served in this order may reach a follower in the other, from whatever
      level state in which both succeed, and leave it equal to the leader, if and only if their fields
      let them swap. */
  lemma SwapIff(t: Task, u: Task)
    requires Plain(t) && Plain(u)
    ensures (forall c, n :: SwapAgrees(c, n, t, u)) <==> MaySwap(t, u)
  {
    hide Plain, TaskEffect, MaySwap, SwapAgrees;
    if MaySwap(t, u) {
      forall c, n ensures SwapAgrees(c, n, t, u) {
        SwapsWell(c, n, t, u);
      }
    } else {
      SwapsBadly(t, u);
    }
  }

  lemma SwapsWell(c: Net, n: int, t: Task, u: Task)
    requires Plain(t) && Plain(u) && MaySwap(t, u)
    ensures SwapAgrees(c, n, t, u)
  {
    hide Consistent, OnKey, Plain, TaskEffect, MaySwap, BothSucceed, Clean;
    if Level(c) && n in c.dbs && BothSucceed(c.lead.db, t, u) {
      SwapHarmless(c.lead.db, t, u);
    }
  }

  lemma SwapsBadly(t: Task, u: Task)
    requires Plain(t) && Plain(u) && !MaySwap(t, u)
    ensures exists c :: !SwapAgrees(c, 0, t, u)
  {
    var c := LevelNet(Maker(RecordOf(t.request).key, ActOfTask(t), ActOfTask(u)));
    SwapDiverges(t, u);
    hide Consistent, OnKey, TaskEffect, MaySwap, BothSucceed, Clean, LevelNet, WellBehaved, Replicable;
    assert c.dbs[0] == c.lead.db;
    assert !SwapAgrees(c, 0, t, u);
  }
}
