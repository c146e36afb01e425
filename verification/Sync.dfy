/** A follower that joins replays the leader's loaded log through its own command handler
    (SyncRequest on both sides of internal/cluster/replication/). */
module Sync {
  import opened Bytes
  import opened Decimal
  import opened Requests
  import opened Persistence
  import opened Store
  import opened Commands
  import opened CodecLaws
  import opened CutLogs
  import opened Replay
  import opened Keys
  import opened Traces
  import opened Runs
  import opened Replication
  import opened Convergence

  /** The request the follower handles for a request the leader logged. */
  function Synced(r: Request): Request
    requires Loggable(r)
  {
    SyncRequestOf(CommandOf(Normal(EntryOf(r))))
  }

  /** Handling the synced form does to every database what the original did. */
  predicate SyncFaithful(r: Request)
    requires Logged(r)
  {
    match VerbOf(ToUpper(r.command.value))
    case SET => r.key.value == [] || OrEmpty(r.value) == [] || NoTtl(r)
    case PUSH => r.key.value == [] || r.value.Some?
    case _ => true
  }

  lemma SyncFaithfulApplies(r: Request, db: Db, now: int, later: int)
    requires Logged(r) && SyncFaithful(r)
    ensures Logged(Synced(r))
    ensures Apply(db, Synced(r), later).db == Apply(db, r, now).db
  {
    hide VerbOf, ToUpper, Incr, Lpop, Rpop, Atoi;
    EmptyIsNoNumber();
  }

  lemma SyncUnfaithfulDiffers(r: Request, now: int, later: int)
    requires Logged(r) && !SyncFaithful(r)
    ensures Loggable(Synced(r)) && Apply(EMPTY, Synced(r), later).db != Apply(EMPTY, r, now).db
  {
    hide VerbOf, ToUpper;
    var key, live, synced := r.key.value, Apply(EMPTY, r, now).db, Apply(EMPTY, Synced(r), later).db;
    match VerbOf(ToUpper(r.command.value)) {
      case SET =>
        assert (key in live.store) != (key in synced.store) || (key in live.expiry) != (key in synced.expiry);
      case PUSH =>
        assert (key in live.lists) != (key in synced.lists);
      case _ =>
    }
  }

  /** Sync reproduces a request on every database exactly when it is sync-faithful. Unlike replay
      it also reproduces lower-case words, empty values and pushes of the empty string. */
  lemma SyncIffFaithful(r: Request, now: int, later: int)
    requires Logged(r)
    ensures Loggable(Synced(r))
    ensures (forall db :: Apply(db, Synced(r), later).db == Apply(db, r, now).db) <==> SyncFaithful(r)
  {
    hide SyncFaithful, Apply, VerbOf, ToUpper;
    if SyncFaithful(r) {
      forall db ensures Apply(db, Synced(r), later).db == Apply(db, r, now).db {
        SyncFaithfulApplies(r, db, now, later);
      }
    } else {
      SyncUnfaithfulDiffers(r, now, later);
    }
  }

  predicate WriteEntries(es: seq<Entry>) {
    forall i :: 0 <= i < |es| ==> IsWrite(VerbOf(ToUpper(es[i].command)))
  }

  lemma SyncStep(s: Replica, e: Entry, now: int)
    requires IsWrite(VerbOf(ToUpper(e.command)))
    ensures var r := SyncRequestOf(CommandOf(Normal(e)));
            Logged(r) && Handle(s, r, now).replica == Replica(Apply(s.db, r, now).db, s.log + Encode(e))
  {
    var r := SyncRequestOf(CommandOf(Normal(e)));
    HandleLogged(s, r, now);
    assert OrEmpty(EntryOf(r).value) == OrEmpty(e.value) && OrEmpty(EntryOf(r).offset) == OrEmpty(e.offset);
    hide Handle, Apply, VerbOf, ToUpper;
  }

  lemma SyncAllAppend(s: Replica, es: seq<Entry>, e: Entry, now: int)
    ensures SyncAll(s, es + [e], now) == Handle(SyncAll(s, es, now), SyncRequestOf(CommandOf(e)), now).replica
  {
    assert (es + [e])[..|es|] == es;
    hide Handle;
  }

  /** Syncing one more logged record. */
  lemma SyncOneMore(s: Replica, es: seq<Entry>, e: Entry, now: int)
    requires IsWrite(VerbOf(ToUpper(e.command)))
    ensures var r, before := SyncRequestOf(CommandOf(Normal(e))), SyncAll(s, NormalAll(es), now);
            Logged(r) &&
            SyncAll(s, NormalAll(es + [e]), now) == Replica(Apply(before.db, r, now).db, before.log + Encode(e))
  {
    var before := SyncAll(s, NormalAll(es), now);
    SyncStep(before, e, now);
    hide Handle, Apply, SyncAll, Encode, Normal, NormalAll, VerbOf, ToUpper;
    NormalAllLast(es, e);
    SyncAllAppend(s, NormalAll(es), Normal(e), now);
  }

  lemma NothingToSync(s: Replica, now: int)
    ensures SyncAll(s, NormalAll([]), now).log == s.log + EncodeAll([])
  {
    hide Handle;
    assert s.log + [] == s.log;
  }

  lemma LastIsWrite(es: seq<Entry>, e: Entry)
    ensures WriteEntries(es + [e]) <==> WriteEntries(es) && IsWrite(VerbOf(ToUpper(e.command)))
  {
    hide VerbOf, ToUpper;
    if WriteEntries(es + [e]) {
      assert (es + [e])[|es|] == e;
      forall i | 0 <= i < |es| ensures IsWrite(VerbOf(ToUpper(es[i].command))) {
        assert (es + [e])[i] == es[i];
      }
    }
  }

  /** The log of a synced follower: what it held before, then the leader's records byte for byte.
      The file is not emptied first, so only a fresh follower ends with the leader's bytes alone. */
  lemma {:induction false} SyncedLog(s: Replica, es: seq<Entry>, now: int)
    requires WriteEntries(es)
    ensures SyncAll(s, NormalAll(es), now).log == s.log + EncodeAll(es)
  {
    hide *;
    if es == [] {
      NothingToSync(s, now);
    } else {
      var init, e := es[..|es| - 1], es[|es| - 1];
      assert init + [e] == es;
      LastIsWrite(init, e);
      SyncedLog(s, init, now);
      SyncOneMore(s, init, e, now);
      EncodeAllLast(init, e);
      assert s.log + EncodeAll(init) + Encode(e) == s.log + (EncodeAll(init) + Encode(e));
    }
  }

  predicate SyncableIfLogged(ev: Event) {
    ev.Cmd? && Logged(ev.request) ==> SyncFaithful(ev.request)
  }

  /** Every logged request of a leader's run syncs faithfully and fits the log format. */
  predicate AllSyncable(evs: seq<Event>) {
    AllSized(evs) && forall i :: 0 <= i < |evs| ==> SyncableIfLogged(evs[i])
  }

  /** The leader never started again. */
  predicate Uninterrupted(evs: seq<Event>) {
    forall i :: 0 <= i < |evs| ==> !evs[i].Restart? && !evs[i].Crash?
  }

  /** What a joining follower holds: a database just created, beside whatever log its file kept. */
  function Joining(kept: Bytes): Replica {
    Replica(EMPTY, kept)
  }

  /** What a leader's run and a joining follower's sync of its records have in common. */
  predicate SyncMirrors(s: Replica, es: seq<Entry>, kept: Bytes, later: int) {
    && AllFit(es) && WriteEntries(es)
    && s.log == EncodeAll(es)
    && s.db == SyncAll(Joining(kept), NormalAll(es), later).db
    && s.db.expiry == map[]
  }

  lemma SyncKeepsExpiry(db: Db, r: Request, now: int)
    requires Loggable(r) && r.exp.None?
    ensures Apply(db, r, now).db.expiry == db.expiry
  {
    hide VerbOf, ToUpper, Atoi;
  }

  lemma LoggedDbSyncs(s: Replica, es: seq<Entry>, r: Request, now: int, kept: Bytes, later: int)
    requires SyncMirrors(s, es, kept, later) && Logged(r) && SyncFaithful(r)
    ensures var db := Apply(s.db, r, now).db;
            db == SyncAll(Joining(kept), NormalAll(es + [EntryOf(r)]), later).db && db.expiry == map[]
  {
    hide Apply, SyncAll, VerbOf, ToUpper, SyncFaithful, EncodeAll, Encode, Normal, NormalAll, Fits, WriteEntries;
    SyncFaithfulApplies(r, s.db, now, later);
    SyncKeepsExpiry(s.db, Synced(r), later);
    SyncOneMore(Joining(kept), es, EntryOf(r), later);
  }

  lemma LoggedCommandSyncs(s: Replica, es: seq<Entry>, r: Request, now: int, kept: Bytes, later: int)
    requires SyncMirrors(s, es, kept, later) && Logged(r) && SyncFaithful(r) && Fits(EntryOf(r))
    ensures SyncMirrors(Handle(s, r, now).replica, es + [EntryOf(r)], kept, later)
  {
    var e := EntryOf(r);
    assert IsWrite(VerbOf(ToUpper(e.command)));
    hide Handle, Apply, SyncAll, Logged, VerbOf, ToUpper, SyncFaithful, EncodeAll, Encode, NormalAll, Fits,
      WriteEntries, Joining;
    LoggedDbSyncs(s, es, r, now, kept, later);
    HandleLogged(s, r, now);
    EncodeAllLast(es, e);
    LastIsWrite(es, e);
  }

  lemma {:induction false} RunSyncs(evs: seq<Event>, kept: Bytes, later: int)
    requires AllSyncable(evs) && Uninterrupted(evs)
    ensures TraceOf(evs) == Intact(TraceOf(evs).es)
    ensures SyncMirrors(Run(evs), TraceOf(evs).es, kept, later)
  {
    if evs == [] {
      NothingSyncs(kept, later);
    } else {
      var before, ev := evs[..|evs| - 1], evs[|evs| - 1];
      RunSyncs(before, kept, later);
      assert SyncableIfLogged(ev) && Sized(ev);
      hide SyncMirrors, AfterEvent, TraceAfter, SyncableIfLogged, Sized, Intact;
      StepSyncs(Run(before), TraceOf(before).es, ev, kept, later);
    }
  }

  lemma StepSyncs(s: Replica, es: seq<Entry>, ev: Event, kept: Bytes, later: int)
    requires SyncMirrors(s, es, kept, later) && SyncableIfLogged(ev) && Sized(ev) && !ev.Restart? && !ev.Crash?
    ensures var t := TraceAfter(Intact(es), ev);
            t == Intact(t.es) && SyncMirrors(AfterEvent(s, ev), t.es, kept, later)
  {
    IntactIs(es);
    NothingSyncs(kept, later);
    hide SyncMirrors, Handle, VerbOf, ToUpper, SyncFaithful, Kept, EncodeAll, OnBoundary;
    if ev.Cmd? && Logged(ev.request) {
      LoggedCommandSyncs(s, es, ev.request, ev.now, kept, later);
    } else if ev.Cmd? {
      UnloggedCommand(s, ev.request, ev.now);
    } else {
      SyncedHasNoTtl(s, es, kept, later);
      SweepWithoutTtl(s.db, ev.now);
    }
  }

  lemma NothingSyncs(kept: Bytes, later: int)
    ensures SyncMirrors(FRESH, [], kept, later)
  {
  }

  lemma SyncedHasNoTtl(s: Replica, es: seq<Entry>, kept: Bytes, later: int)
    requires SyncMirrors(s, es, kept, later)
    ensures s.db.expiry == map[]
  {
  }

  // ------------------------------------------------------------------ leaders that start again

  /** A record whose replay on the leader and whose sync on a follower are the same effect. */
  ghost predicate SyncsAsReplayed(e: Entry) {
    && IsWrite(VerbOf(ToUpper(e.command)))
    && !Poison(Normal(e))
    && (forall db, now :: Apply(db, SyncRequestOf(CommandOf(Normal(e))), now).db == Effect(db, Normal(e)))
  }

  ghost predicate AllSyncAsReplayed(es: seq<Entry>) {
    forall i :: 0 <= i < |es| ==> SyncsAsReplayed(es[i])
  }

  lemma SyncIsEffect(r: Request, db: Db, now: int)
    requires Logged(r) && Faithful(r) && SyncFaithful(r)
    ensures Apply(db, Synced(r), now).db == Effect(db, Normal(EntryOf(r)))
    ensures !Poison(Normal(EntryOf(r)))
  {
    hide Apply, ReplayOne, VerbOf, ToUpper, Faithful, SyncFaithful, Poison, Normal, Synced;
    SyncFaithfulApplies(r, db, now, now);
    FaithfulReplays(r, db, now);
    PoisonPanics(db, Normal(EntryOf(r)));
  }

  lemma FaithfulSyncsAsReplayed(r: Request)
    requires Logged(r) && Faithful(r) && SyncFaithful(r)
    ensures SyncsAsReplayed(EntryOf(r))
  {
    SyncIsEffect(r, EMPTY, 0);
    hide Apply, Effect, VerbOf, ToUpper, Faithful, SyncFaithful, Poison, Normal;
    forall db, now ensures Apply(db, Synced(r), now).db == Effect(db, Normal(EntryOf(r))) {
      SyncIsEffect(r, db, now);
    }
  }

  lemma StepSyncsAsReplayed(t: Trace, ev: Event)
    requires AllSyncAsReplayed(t.es) && SyncableIfLogged(ev) && FaithfulIfLogged(ev)
    ensures AllSyncAsReplayed(TraceAfter(t, ev).es)
  {
    hide VerbOf, ToUpper, Faithful, SyncFaithful, SyncsAsReplayed, Survivors, Appendable, EncodeAll, IsFlush;
    if ev.Cmd? && Logged(ev.request) {
      FaithfulSyncsAsReplayed(ev.request);
    }
  }

  lemma {:induction false} RecordsSyncAsReplayed(evs: seq<Event>)
    requires AllSyncable(evs) && AllFaithful(evs)
    ensures AllSyncAsReplayed(TraceOf(evs).es)
  {
    if evs != [] {
      var n := |evs| - 1;
      assert SyncableIfLogged(evs[n]) && FaithfulIfLogged(evs[n]);
      hide AllSyncAsReplayed, SyncableIfLogged, FaithfulIfLogged, TraceAfter, Sized;
      RecordsSyncAsReplayed(evs[..n]);
      StepSyncsAsReplayed(TraceOf(evs[..n]), evs[n]);
    } else {
      hide EncodeAll;
    }
  }

  lemma SyncAsReplayed(s: Replica, e: Entry, now: int)
    requires SyncsAsReplayed(e)
    ensures Handle(s, SyncRequestOf(CommandOf(Normal(e))), now).replica
         == Replica(Effect(s.db, Normal(e)), s.log + Encode(e))
  {
    SyncStep(s, e, now);
    hide Handle, Apply, Effect, Encode, VerbOf, ToUpper, Normal;
  }

  lemma SyncIsReplayStep(s: Replica, es: seq<Entry>, e: Entry, now: int)
    requires SyncAll(s, NormalAll(es), now) == Replica(Effects(s.db, NormalAll(es)), s.log + EncodeAll(es))
    requires SyncsAsReplayed(e)
    ensures SyncAll(s, NormalAll(es + [e]), now)
         == Replica(Effects(s.db, NormalAll(es + [e])), s.log + EncodeAll(es + [e]))
  {
    hide *;
    var before := SyncAll(s, NormalAll(es), now);
    NormalAllLast(es, e);
    SyncAllAppend(s, NormalAll(es), Normal(e), now);
    SyncAsReplayed(before, e, now);
    EffectsAppend(s.db, NormalAll(es), Normal(e));
    EncodeAllLast(es, e);
    assert s.log + EncodeAll(es) + Encode(e) == s.log + (EncodeAll(es) + Encode(e));
  }

  lemma AllButLast(es: seq<Entry>)
    requires AllSyncAsReplayed(es) && es != []
    ensures es[..|es| - 1] + [es[|es| - 1]] == es
    ensures AllSyncAsReplayed(es[..|es| - 1]) && SyncsAsReplayed(es[|es| - 1])
  {
    hide SyncsAsReplayed;
  }

  lemma {:induction false} SyncIsReplay(s: Replica, es: seq<Entry>, now: int)
    requires AllSyncAsReplayed(es)
    ensures SyncAll(s, NormalAll(es), now) == Replica(Effects(s.db, NormalAll(es)), s.log + EncodeAll(es))
  {
    if es == [] {
      NothingToSync(s, now);
    } else {
      hide *;
      AllButLast(es);
      SyncIsReplay(s, es[..|es| - 1], now);
      SyncIsReplayStep(s, es[..|es| - 1], es[|es| - 1], now);
    }
  }

  lemma InterruptedRunSyncs(evs: seq<Event>, kept: Bytes, later: int)
    requires AllSyncable(evs) && AllFaithful(evs) && Whole(evs)
    ensures SyncAll(Joining(kept), Load(Run(evs).log), later) == Replica(Run(evs).db, kept + EncodeAll(Records(evs)))
  {
    var es := Records(evs);
    RunMirrorsLog(evs);
    RecordsSyncAsReplayed(evs);
    NoPoison(es);
    hide Records, Run, EncodeAll, SyncsAsReplayed, Load, SyncAll, Effects, Rebuild, Poison;
    RebuildIsEffects(NormalAll(es));
    SyncIsReplay(Joining(kept), es, later);
  }

  lemma NoPoison(es: seq<Entry>)
    requires AllSyncAsReplayed(es)
    ensures forall i :: 0 <= i < |es| ==> !Poison(NormalAll(es)[i])
  {
    forall i | 0 <= i < |es| ensures !Poison(NormalAll(es)[i]) {
      assert SyncsAsReplayed(es[i]);
    }
  }

  /** A follower that joins: after any run of the leader that left its log whole, its database equals
      the leader's live one, and its log is what its file held, then the records of the leader's log,
      byte for byte as there. A leader that started again, cut or not, must have logged only records
      that its own replay reproduces too. */
  lemma FollowerSyncs(evs: seq<Event>, kept: Bytes, later: int)
    requires AllSyncable(evs) && Whole(evs) && (Uninterrupted(evs) || AllFaithful(evs))
    ensures SyncAll(Joining(kept), Load(Run(evs).log), later) == Replica(Run(evs).db, kept + EncodeAll(Records(evs)))
    ensures Appendable(TraceOf(evs)) ==> Run(evs).log == EncodeAll(Records(evs))
  {
    LogHoldsRecords(evs);
    if Uninterrupted(evs) {
      UninterruptedRunSyncs(evs, kept, later);
    } else {
      InterruptedRunSyncs(evs, kept, later);
    }
  }

  lemma UninterruptedRunSyncs(evs: seq<Event>, kept: Bytes, later: int)
    requires AllSyncable(evs) && Uninterrupted(evs)
    ensures SyncAll(Joining(kept), Load(Run(evs).log), later) == Replica(Run(evs).db, kept + EncodeAll(Records(evs)))
  {
    var es := TraceOf(evs).es;
    RunSyncs(evs, kept, later);
    IntactIs(es);
    hide Run, TraceOf, EncodeAll, Load, SyncAll, Intact;
    LoadIntact(es);
    SyncedLog(Joining(kept), es, later);
  }
}
