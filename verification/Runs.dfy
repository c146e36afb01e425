/** Whole runs of one server against its log: at which states a restart builds the live database,
    what a crash recovers, and when a restart panics. */
module Runs {
  import opened Bytes
  import opened Requests
  import opened Persistence
  import opened Store
  import opened Commands
  import opened CodecLaws
  import opened Keys
  import opened Replay
  import opened Traces

  predicate FaithfulIfLogged(ev: Event) {
    ev.Cmd? && Logged(ev.request) ==> Faithful(ev.request)
  }

  predicate AllFaithful(evs: seq<Event>) {
    forall i :: 0 <= i < |evs| ==> FaithfulIfLogged(evs[i])
  }

  /** Every logged request is faithful and fits the log format. */
  predicate AllGood(evs: seq<Event>) {
    AllSized(evs) && AllFaithful(evs)
  }

  lemma AllGoodPrefix(evs: seq<Event>, k: nat)
    requires AllGood(evs) && k <= |evs|
    ensures AllGood(evs[..k])
  {
    hide Sized, FaithfulIfLogged;
  }

  /** A log that the replay understands and, if it is whole, that replays to the database. */
  predicate Mirrors(s: Replica, t: Trace) {
    && Holds(s.log, t)
    && Rebuild(EMPTY, NormalAll(t.es)).Some?
    && (t.whole ==> Rebuild(EMPTY, NormalAll(Kept(t))) == Some(s.db))
  }

  lemma ReplayKeepsExpiry(db: Db, e: Entry)
    ensures ReplayOne(db, e).Some? ==> ReplayOne(db, e).value.expiry == db.expiry
  {
    hide VerbOf;
  }

  lemma {:induction false} RebuildPrefix(db: Db, es: seq<Entry>, k: nat)
    requires Rebuild(db, es).Some? && k <= |es|
    ensures Rebuild(db, es[..k]).Some? && Rebuild(db, es[..k]).value.expiry == db.expiry
    decreases |es|
  {
    hide ReplayOne;
    if k > 0 {
      ReplayKeepsExpiry(db, es[0]);
      RebuildPrefix(ReplayOne(db, es[0]).value, es[1..], k - 1);
      assert es[..k][1..] == es[1..][..k - 1];
    }
  }

  lemma NormalAllPrefix(es: seq<Entry>, k: nat)
    requires k <= |es|
    ensures NormalAll(es[..k]) == NormalAll(es)[..k]
  {
  }

  /** The records before any cut of a replayable log rebuild a database without deadlines. */
  lemma KeptRebuilds(t: Trace)
    requires Rebuild(EMPTY, NormalAll(t.es)).Some?
    ensures var db := Rebuild(EMPTY, NormalAll(Kept(t))); db.Some? && db.value.expiry == map[]
  {
    hide Rebuild, NormalAll, Survivors;
    NormalAllPrefix(t.es, Survivors(t.es, t.c));
    RebuildPrefix(EMPTY, NormalAll(t.es), Survivors(t.es, t.c));
  }

  lemma WholeRecovers(log: Bytes, t: Trace)
    requires Holds(log, t) && t.whole
    ensures Recover(log) == Rebuild(EMPTY, NormalAll(Kept(t)))
  {
    hide LoadFrom, EncodeAll, NormalAll, Rebuild, Survivors, Zeros, Fits;
    LoadCutFrom(t.es, t.c, Zeros(4));
  }

  lemma LoggedMirrors(s: Replica, t: Trace, r: Request, now: int)
    requires Mirrors(s, t) && Logged(r) && Faithful(r) && Fits(EntryOf(r))
    ensures Mirrors(Handle(s, r, now).replica, TraceAfter(t, Cmd(r, now)))
  {
    var e := EntryOf(r);
    HandleLogged(s, r, now);
    LoggedHolds(s.log, t, r);
    hide Logged, Apply, Handle, ReplayOne, VerbOf, ToUpper, Faithful, Encode, Rebuild, EncodeAll, NormalAll, Normal,
      Holds, Kept, Appendable;
    if Appendable(t) {
      IntactIs(Kept(t) + [e]);
      FaithfulReplays(r, s.db, now);
      NormalAllLast(Kept(t), e);
      RebuildAppend(EMPTY, NormalAll(Kept(t)), Normal(e));
      AppendableIsWhole(t);
    }
  }

  lemma AppendableIsWhole(t: Trace)
    ensures Appendable(t) ==> t.whole
  {
  }

  lemma StartedMirrors(s: Replica, t: Trace, c: nat)
    requires Mirrors(s, t)
    ensures Mirrors(Started(s, Cut(s.log, c)), TraceAfter(t, Crash(c)))
  {
    var now := TraceAfter(t, Crash(c));
    CutHolds(s.log, t, c);
    hide Holds, NormalAll, Rebuild, Kept, Recover;
    if now.whole {
      WholeRecovers(Cut(s.log, c), now);
      KeptRebuilds(now);
    }
  }

  lemma SweepWithoutTtl(db: Db, now: int)
    requires db.expiry == map[]
    ensures Sweep(db, now) == db
  {
    assert Expired(db.expiry, now) == {};
  }

  /** On a whole log, sweeps and restarts do nothing. */
  lemma IdleStep(s: Replica, t: Trace, ev: Event)
    requires Mirrors(s, t) && (ev.SweepAt? || ev.Restart?)
    ensures t.whole ==> AfterEvent(s, ev) == s
  {
    hide Holds, NormalAll, Rebuild, Kept, Recover, Sweep;
    if t.whole {
      KeptRebuilds(t);
      WholeRecovers(s.log, t);
      SweepWithoutTtl(s.db, if ev.SweepAt? then ev.now else 0);
    }
  }

  lemma StepMirrors(s: Replica, t: Trace, ev: Event)
    requires Mirrors(s, t) && Sized(ev) && FaithfulIfLogged(ev)
    ensures Mirrors(AfterEvent(s, ev), TraceAfter(t, ev))
  {
    hide Mirrors, Handle, Logged, Faithful, Fits;
    match ev {
      case Cmd(r, now) =>
        if Logged(r) {
          LoggedMirrors(s, t, r, now);
        } else {
          UnloggedCommand(s, r, now);
          FreshMirrors();
        }
      case Crash(c) => StartedMirrors(s, t, c);
      case _ =>
        IdleStep(s, t, ev);
        IdleMirrors(s, t, ev);
    }
  }

  lemma IdleMirrors(s: Replica, t: Trace, ev: Event)
    requires Mirrors(s, t) && (ev.SweepAt? || ev.Restart?)
    requires t.whole ==> AfterEvent(s, ev) == s
    ensures Mirrors(AfterEvent(s, ev), t)
  {
    hide Holds, Kept, Rebuild;
  }

  lemma FreshMirrors()
    ensures Mirrors(FRESH, Intact([]))
  {
    IntactIs([]);
    IntactHolds([]);
    EncodeAllNone();
    hide Kept;
  }

  lemma {:induction false} RunMirrors(evs: seq<Event>)
    requires AllGood(evs)
    ensures Mirrors(Run(evs), TraceOf(evs))
  {
    if evs == [] {
      FreshMirrors();
    } else {
      var n := |evs| - 1;
      AllGoodPrefix(evs, n);
      RunMirrors(evs[..n]);
      assert Sized(evs[n]) && FaithfulIfLogged(evs[n]);
      hide Mirrors, AfterEvent, TraceAfter, Sized, FaithfulIfLogged, AllGood;
      StepMirrors(Run(evs[..n]), TraceOf(evs[..n]), evs[n]);
    }
  }

  /** Replay refinement over every run, with crashes at any byte: at every reachable state whose log
      is whole, the log yields the records of the run, and replaying them on a fresh database gives
      exactly the live one. */
  lemma RunMirrorsLog(evs: seq<Event>)
    requires AllGood(evs) && Whole(evs)
    ensures Load(Run(evs).log) == NormalAll(Records(evs))
    ensures Recover(Run(evs).log) == Some(Run(evs).db)
  {
    RunMirrors(evs);
    LogHoldsRecords(evs);
    hide Holds, Run, TraceOf, NormalAll, Rebuild, Load, AllSized, AllFaithful, Kept;
    WholeRecovers(Run(evs).log, TraceOf(evs));
  }

  /** The run without the restarts and sweeps that met a whole log. */
  function OnlyChanges(evs: seq<Event>): seq<Event> {
    if evs == [] then []
    else
      var before, ev := evs[..|evs| - 1], evs[|evs| - 1];
      OnlyChanges(before) + if (ev.SweepAt? || ev.Restart?) && Whole(before) then [] else [ev]
  }

  /** They leave no trace in the final state. */
  lemma {:induction false} RestartsAreInvisible(evs: seq<Event>)
    requires AllGood(evs)
    ensures Run(evs) == Run(OnlyChanges(evs)) && Records(evs) == Records(OnlyChanges(evs))
    ensures TraceOf(evs) == TraceOf(OnlyChanges(evs))
  {
    if evs != [] {
      var before, ev := evs[..|evs| - 1], evs[|evs| - 1];
      var kept := OnlyChanges(before);
      AllGoodPrefix(evs, |evs| - 1);
      RestartsAreInvisible(before);
      RunMirrors(before);
      hide Handle, Mirrors, Started, Kept, AllGood, Logged, Sweep;
      if (ev.SweepAt? || ev.Restart?) && Whole(before) {
        assert kept + [] == kept;
        IdleStep(Run(before), TraceOf(before), ev);
      } else {
        assert (kept + [ev])[..|kept|] == kept;
      }
    }
  }

  /** Crash recovery: whatever byte of a whole log the crash left last, the rebuilt database is the
      live database after some prefix of the run, namely one that logged all surviving records. */
  lemma CrashRecovery(evs: seq<Event>, c: nat) returns (k: nat)
    requires AllGood(evs) && Whole(evs) && c <= |Run(evs).log|
    ensures k <= |evs| && Whole(evs[..k]) && Records(evs[..k]) == Records(evs)[..Survivors(Records(evs), c)]
    ensures Recover(Run(evs).log[..c]) == Some(Run(evs[..k]).db)
    ensures Survivors(Records(evs), c) == |Records(evs)| ==> k == |evs|
  {
    var j := Survivors(Records(evs), c);
    k := PrefixWithRecords(evs, j);
    AllGoodPrefix(evs, k);
    RunMirrorsLog(evs[..k]);
    LoadAfterCut(evs, c);
    hide Run, Records, Load, Rebuild, NormalAll, Whole, AllGood, Survivors;
    NormalAllPrefix(Records(evs), j);
  }

  lemma LoadAfterCut(evs: seq<Event>, c: nat)
    requires AllSized(evs) && Whole(evs) && c <= |Run(evs).log|
    ensures Load(Run(evs).log[..c]) == NormalAll(Records(evs)[..Survivors(Records(evs), c)])
  {
    hide Load, NormalAll, TraceOf, Run, Kept, Holds;
    RunHolds(evs);
    CutLoads(Run(evs).log, TraceOf(evs), c);
    KeptAfterCut(TraceOf(evs), c);
  }

  lemma CutLoads(log: Bytes, t: Trace, c: nat)
    requires Holds(log, t) && t.whole && c <= |log|
    ensures c <= t.c && Load(log[..c]) == NormalAll(t.es[..Survivors(t.es, c)])
  {
    hide EncodeAll, LoadFrom, NormalAll, Survivors, Zeros, Fits;
    assert EncodeAll(t.es)[..t.c][..c] == EncodeAll(t.es)[..c];
    LoadCutFrom(t.es, c, Zeros(4));
  }

  lemma KeptAfterCut(t: Trace, c: nat)
    requires c <= t.c
    ensures Kept(t)[..Survivors(Kept(t), c)] == t.es[..Survivors(t.es, c)]
  {
    hide Survivors;
    SurvivorsOfKept(t.es, t.c, c);
    SurvivorsMonotone(t.es, t.c, c);
  }

  /** A restart after a run with a whole log fails exactly when the log holds an upper-case SET
      without a value or INCR without an offset. The live server only answered those with an error. */
  lemma RestartPanicsIff(evs: seq<Event>)
    requires AllSized(evs) && Whole(evs)
    ensures Recover(Run(evs).log).None? <==> exists i :: 0 <= i < |Records(evs)| && Poison(Normal(Records(evs)[i]))
  {
    var es := Records(evs);
    LogHoldsRecords(evs);
    hide Records, Run, Poison, Normal, EncodeAll, Rebuild, Load;
    RebuildPanicsIff(EMPTY, NormalAll(es));
    SamePoison(es);
  }

  lemma SamePoison(es: seq<Entry>)
    ensures (exists i :: 0 <= i < |es| && Poison(NormalAll(es)[i]))
       <==> (exists i :: 0 <= i < |es| && Poison(Normal(es[i])))
  {
    forall i | 0 <= i < |es| ensures NormalAll(es)[i] == Normal(es[i]) {
    }
    hide Poison, Normal, NormalAll;
  }
}
