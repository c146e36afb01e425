/** Followers that join, or come back, in the middle of a cluster's run, and what the log file that
    such a follower kept is worth afterwards. */
module Joins {
  import opened Bytes
  import opened Requests
  import opened Persistence
  import opened Store
  import opened Commands
  import opened CodecLaws
  import opened Keys
  import opened Replay
  import opened Traces
  import opened Replication
  import opened Convergence
  import opened Routing
  import opened Sync

  // ------------------------------------------------------------------ the kept log

  lemma {:induction false} EffectsOfBoth(db: Db, es: seq<Entry>, fs: seq<Entry>)
    ensures Effects(db, es + fs) == Effects(Effects(db, es), fs)
  {
    hide Effect;
    if fs == [] {
      assert es + fs == es;
    } else {
      assert (es + fs)[..|es + fs| - 1] == es + fs[..|fs| - 1];
      EffectsOfBoth(db, es, fs[..|fs| - 1]);
    }
  }

  predicate Replayable(es: seq<Entry>) {
    AllFit(es) && forall i :: 0 <= i < |es| ==> !Poison(Normal(es[i]))
  }

  lemma ReplayableRecovers(es: seq<Entry>)
    requires Replayable(es)
    ensures Recover(EncodeAll(es)) == Some(Effects(EMPTY, NormalAll(es)))
  {
    LoadIntact(es);
    hide Poison, Normal, EncodeAll, Load, Effects, Rebuild;
    RebuildIsEffects(NormalAll(es));
  }

  lemma KeptRecovers(ks: seq<Entry>, es: seq<Entry>)
    requires Replayable(ks) && Replayable(es)
    ensures Recover(EncodeAll(ks) + EncodeAll(es))
         == Some(Effects(Effects(EMPTY, NormalAll(ks)), NormalAll(es)))
  {
    hide Poison, Normal, Effects, Fits, Recover, EncodeAll;
    EncodeAllAppend(ks, es);
    ReplayableRecovers(ks + es);
    assert NormalAll(ks + es) == NormalAll(ks) + NormalAll(es);
    EffectsOfBoth(EMPTY, NormalAll(ks), NormalAll(es));
  }

  /** A follower appends the leader's records to the log it kept. It can restart as the leader's
      equal, whatever those records are, if and only if what it kept replays to nothing. */
  lemma RestartAfterJoinIff(ks: seq<Entry>)
    requires Replayable(ks)
    ensures (forall es :: Replayable(es) ==>
               Recover(EncodeAll(ks) + EncodeAll(es)) == Some(Effects(EMPTY, NormalAll(es))))
       <==> Effects(EMPTY, NormalAll(ks)) == EMPTY
  {
    hide Recover, Poison;
    forall es | Replayable(es)
      ensures Recover(EncodeAll(ks) + EncodeAll(es)) == Some(Effects(Effects(EMPTY, NormalAll(ks)), NormalAll(es)))
    {
      KeptRecovers(ks, es);
    }
    assert Replayable([]) && NormalAll([]) == [];
    hide Replayable, EncodeAll;
    assert forall db :: Effects(db, []) == db;
  }

  // ------------------------------------------------------------------ joins during a run

  /** A request arrives at a node, or a node joins: it starts with a new database beside the log its
      file kept, is listed, and handles the leader's loaded records. */
  datatype Event = Served(arrival: Arrival) | Joined(node: int, kept: Bytes, now: int)

  function Join(c: State, n: int, kept: Bytes, now: int): State
    requires c.leader in c.replicas
  {
    State(c.leader, c.listed + {n},
          c.replicas[n := SyncAll(Joining(kept), Load(c.replicas[c.leader].log), now)])
  }

  function Step(c: State, ev: Event, reachable: set<int>): State {
    match ev
    case Served(a) => Arrive(c, a, reachable).state
    case Joined(n, kept, now) => if c.leader in c.replicas then Join(c, n, kept, now) else c
  }

  function RunEvents(c: State, evs: seq<Event>, reachable: set<int>): State {
    if evs == [] then c else Step(RunEvents(c, evs[..|evs| - 1], reachable), evs[|evs| - 1], reachable)
  }

  /** The leader executes the request, in its form as the leader sees it. */
  predicate ReachesLeader(c: State, a: Arrival) {
    a.request.command.Some? && (a.node == c.leader || Distributed(a.request))
  }

  /** What the leader logs can be synced faithfully, and fits the log format. */
  predicate Teachable(c: State, a: Arrival) {
    ReachesLeader(c, a) ==>
      var g := AtLeader(c, a.node, a.request);
      Logged(g) ==> SyncFaithful(g) && Fits(EntryOf(g))
  }

  predicate SafeEvent(c: State, ev: Event, reachable: set<int>) {
    match ev
    case Served(a) => SafeArrival(c, a) && Teachable(c, a)
    case Joined(n, _, _) => n != c.leader && n in reachable
  }

  predicate SafeEvents(c: State, evs: seq<Event>, reachable: set<int>) {
    evs != [] ==>
      var init := evs[..|evs| - 1];
      SafeEvents(c, init, reachable) && SafeEvent(RunEvents(c, init, reachable), evs[|evs| - 1], reachable)
  }

  /** Syncing the records es gives the replica's database, whenever and beside whatever other log. */
  ghost predicate SyncsFrom(s: Replica, es: seq<Entry>) {
    forall kept, later :: SyncMirrors(s, es, kept, later)
  }

  ghost predicate Teaches(s: Replica) {
    exists es :: SyncsFrom(s, es)
  }

  lemma TeachesDb(s: Replica, kept: Bytes, later: int)
    requires Teaches(s)
    ensures SyncAll(Joining(kept), Load(s.log), later).db == s.db
  {
    var es :| SyncsFrom(s, es);
    assert SyncMirrors(s, es, kept, later);
    hide EncodeAll, NormalAll, Load, SyncAll;
    LoadIntact(es);
  }

  lemma FreshTeaches()
    ensures Teaches(FRESH)
  {
    hide SyncMirrors;
    forall kept, later ensures SyncMirrors(FRESH, [], kept, later) {
      NothingSyncs(kept, later);
    }
    assert SyncsFrom(FRESH, []);
  }

  lemma LoggedSyncsFrom(s: Replica, es: seq<Entry>, g: Request, now: int)
    requires SyncsFrom(s, es) && Logged(g) && SyncFaithful(g) && Fits(EntryOf(g))
    ensures SyncsFrom(Handle(s, g, now).replica, es + [EntryOf(g)])
  {
    hide Handle, SyncMirrors, SyncFaithful, Fits, VerbOf, ToUpper;
    forall kept, later ensures SyncMirrors(Handle(s, g, now).replica, es + [EntryOf(g)], kept, later) {
      LoggedCommandSyncs(s, es, g, now, kept, later);
    }
  }

  lemma HandledTeaches(s: Replica, g: Request, now: int)
    requires Teaches(s) && !IsFlush(g) && (Logged(g) ==> SyncFaithful(g) && Fits(EntryOf(g)))
    ensures Teaches(Handle(s, g, now).replica)
  {
    hide Handle, SyncsFrom, SyncFaithful, Fits, VerbOf, ToUpper, IsFlush;
    var es :| SyncsFrom(s, es);
    if Logged(g) {
      LoggedSyncsFrom(s, es, g, now);
    } else {
      UnloggedCommand(s, g, now);
    }
  }

  lemma LeaderReplica(c: State, a: Arrival, reachable: set<int>)
    requires Connected(c, reachable) && a.node in c.replicas
    ensures var s, now := c.replicas[c.leader], a.clock(c.leader);
            var end := Arrive(c, a, reachable).state;
            c.leader in end.replicas && end.replicas[c.leader] ==
              if ReachesLeader(c, a) then Handle(s, AtLeader(c, a.node, a.request), now).replica else s
  {
    hide Handle, VerbOf;
    NoCommand(c.replicas[c.leader], a.request, a.clock(c.leader));
  }

  lemma NoCommand(s: Replica, r: Request, now: int)
    ensures r.command.None? ==> Handle(s, r, now) == Commands.Step(s, Failure(MissingCommand))
  {
    hide VerbOf, ToUpper, Apply;
  }

  lemma SafeIsNoFlush(c: State, a: Arrival)
    requires SafeArrival(c, a) && ReachesLeader(c, a)
    ensures !IsFlush(AtLeader(c, a.node, a.request))
  {
    if Distributed(a.request) {
      ChangeIsApply(EMPTY, a.request, 0);
    }
    hide VerbOf, ToUpper, Inert, DistributedSafe;
  }

  lemma ServedTeaches(c: State, a: Arrival, reachable: set<int>)
    requires Connected(c, reachable) && Teaches(c.replicas[c.leader]) && SafeArrival(c, a) && Teachable(c, a)
    ensures c.leader in Arrive(c, a, reachable).state.replicas
    ensures Teaches(Arrive(c, a, reachable).state.replicas[c.leader])
  {
    hide Teaches, Handle, SafeArrival, AtLeader, Arrive, Logged, SyncFaithful, Fits, IsFlush;
    assert a.node in c.replicas by { ArrivesSomewhere(c, a); }
    LeaderReplica(c, a, reachable);
    if ReachesLeader(c, a) {
      SafeIsNoFlush(c, a);
      HandledTeaches(c.replicas[c.leader], AtLeader(c, a.node, a.request), a.clock(c.leader));
    }
  }

  lemma ArrivesSomewhere(c: State, a: Arrival)
    requires SafeArrival(c, a)
    ensures a.node in c.replicas
  {
  }

  /** All databases are equal and clean, and a follower can join. */
  ghost predicate Joinable(c: State, reachable: set<int>) {
    Connected(c, reachable) && Agree(c) && Clean(c.replicas[c.leader].db) && Teaches(c.replicas[c.leader])
  }

  lemma StepJoinable(c: State, ev: Event, reachable: set<int>)
    requires Joinable(c, reachable) && SafeEvent(c, ev, reachable)
    ensures Joinable(Step(c, ev, reachable), reachable)
  {
    hide Teaches, Clean, Route, RoutedSafe, Teachable, SyncAll, Load;
    match ev {
      case Served(a) =>
        SafeStep(c, a.node, a.request, reachable, a.clock);
        ServedTeaches(c, a, reachable);
      case Joined(n, kept, now) =>
        TeachesDb(c.replicas[c.leader], kept, now);
    }
  }

  /** Joins during a run: a cluster that starts from new databases, serves safe requests whose records
      sync faithfully, and lets any node but the leader join or rejoin at any time, beside whatever log
      it kept, has equal databases all the time. */
  lemma {:induction false} JoinsAgree(c: State, evs: seq<Event>, reachable: set<int>)
    requires c == Fresh(c.leader, c.listed) && Connected(c, reachable)
    requires SafeEvents(c, evs, reachable)
    ensures Joinable(RunEvents(c, evs, reachable), reachable)
    ensures var end := RunEvents(c, evs, reachable); c.leader in end.replicas && end.leader == c.leader && Agree(end)
  {
    hide SafeEvent, Step;
    if evs == [] {
      FreshTeaches();
      hide Teaches, Clean;
      EmptyIsClean();
    } else {
      var init := evs[..|evs| - 1];
      JoinsAgree(c, init, reachable);
      StepJoinable(RunEvents(c, init, reachable), evs[|evs| - 1], reachable);
      SameLeader(RunEvents(c, init, reachable), evs[|evs| - 1], reachable);
    }
  }

  lemma SameLeader(c: State, ev: Event, reachable: set<int>)
    ensures Step(c, ev, reachable).leader == c.leader
  {
    hide Handle, VerbOf;
  }
}
