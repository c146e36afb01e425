/** Runs of one server and what they leave in its log file, whatever the requests mean: commands of
    every kind, cleanup sweeps, restarts from the log, and crashes that cut the log at any byte. */
module Traces {
  import opened Bytes
  import opened Requests
  import opened Persistence
  import opened Store
  import opened Commands
  import opened CodecLaws
  import opened CutLogs
  import opened Replay

  /** A crash loses the bytes of the log after the first c, and the server starts again from the rest. */
  datatype Event = Cmd(request: Request, now: int) | SweepAt(now: int) | Restart | Crash(c: nat)

  const FRESH: Replica := Replica(EMPTY, [])

  /** The database that a restart would build from a log; None when the replay panics. */
  function Recover(log: Bytes): Option<Db> {
    Rebuild(EMPTY, Load(log))
  }

  function Cut(log: Bytes, c: nat): Bytes {
    if c < |log| then log[..c] else log
  }

  /** A node started on a log; one whose replay panics stays as it was. */
  function Started(s: Replica, log: Bytes): Replica {
    Replica(if Recover(log).Some? then Recover(log).value else s.db, log)
  }

  function AfterEvent(s: Replica, ev: Event): Replica {
    match ev
    case Cmd(r, now) => Handle(s, r, now).replica
    case SweepAt(now) => s.(db := Sweep(s.db, now))
    case Restart => Started(s, s.log)
    case Crash(c) => Started(s, Cut(s.log, c))
  }

  function Run(evs: seq<Event>): Replica {
    if evs == [] then FRESH else AfterEvent(Run(evs[..|evs| - 1]), evs[|evs| - 1])
  }

  // ------------------------------------------------------------------ the trace of a run

  /** What is known of a log: it starts with the first c bytes of the encoding of es. It is whole if
      it is nothing more; a record logged after a cut inside another one ends that. */
  datatype Trace = Trace(es: seq<Entry>, c: nat, whole: bool)

  /** The records that load from the known part. */
  function Kept(t: Trace): seq<Entry> {
    t.es[..Survivors(t.es, t.c)]
  }

  function Intact(es: seq<Entry>): Trace {
    Trace(es, |EncodeAll(es)|, true)
  }

  predicate Appendable(t: Trace) {
    t.whole && OnBoundary(t.es, t.c)
  }

  function TraceAfter(t: Trace, ev: Event): Trace {
    match ev
    case Cmd(r, _) =>
      if Logged(r) then if Appendable(t) then Intact(Kept(t) + [EntryOf(r)]) else t.(whole := false)
      else if IsFlush(r) then Intact([])
      else t
    case Crash(c) => if t.whole || c <= t.c then Trace(t.es, if c < t.c then c else t.c, true) else t
    case _ => t
  }

  predicate IsFlush(r: Request) {
    r.command.Some? && VerbOf(ToUpper(r.command.value)) == FLUSHDB
  }

  function TraceOf(evs: seq<Event>): Trace {
    if evs == [] then Intact([]) else TraceAfter(TraceOf(evs[..|evs| - 1]), evs[|evs| - 1])
  }

  /** The records that the log yields after a run: those logged since the last FLUSHDB that no crash
      lost. */
  function Records(evs: seq<Event>): seq<Entry> {
    Kept(TraceOf(evs))
  }

  /** Nothing was logged after a cut inside a record, or a FLUSHDB or a deeper cut has removed it. */
  predicate Whole(evs: seq<Event>) {
    TraceOf(evs).whole
  }

  /** A logged request fits the log format. */
  predicate Sized(ev: Event) {
    ev.Cmd? && Logged(ev.request) ==> Fits(EntryOf(ev.request))
  }

  predicate AllSized(evs: seq<Event>) {
    forall i :: 0 <= i < |evs| ==> Sized(evs[i])
  }

  lemma AllSizedInit(evs: seq<Event>)
    requires AllSized(evs) && evs != []
    ensures AllSized(evs[..|evs| - 1]) && Sized(evs[|evs| - 1])
  {
    hide Sized;
  }

  predicate Holds(log: Bytes, t: Trace) {
    && AllFit(t.es) && t.c <= |EncodeAll(t.es)|
    && EncodeAll(t.es)[..t.c] <= log
    && (t.whole ==> log == EncodeAll(t.es)[..t.c])
  }

  lemma HandleLogged(s: Replica, r: Request, now: int)
    requires Logged(r)
    ensures Handle(s, r, now)
         == Step(Replica(Apply(s.db, r, now).db, s.log + Encode(EntryOf(r))), Apply(s.db, r, now).outcome)
  {
    hide Apply, VerbOf, ToUpper, Encode;
  }

  lemma UnloggedCommand(s: Replica, r: Request, now: int)
    requires !Logged(r)
    ensures Handle(s, r, now).replica == if IsFlush(r) then FRESH else s
  {
    hide VerbOf, ToUpper;
  }

  // ------------------------------------------------------------------ boundaries

  lemma NextIsLonger(es: seq<Entry>, k: nat)
    requires k < |es|
    ensures |EncodeAll(es[..k + 1])| >= |EncodeAll(es[..k])| + 20
  {
    assert es[..k + 1] == es[..k] + [es[k]];
    EncodeAllLast(es[..k], es[k]);
    EncodeStart(es[k]);
  }

  lemma SurvivorsAt(es: seq<Entry>, k: nat)
    requires k <= |es|
    ensures Survivors(es, |EncodeAll(es[..k])|) == k
  {
    hide EncodeAll, Survivors;
    var c := |EncodeAll(es[..k])|;
    SurvivorsIsLargest(es, c, k);
    if k < |es| {
      SurvivorsIsLargest(es, c, k + 1);
      NextIsLonger(es, k);
    }
  }

  /** On a boundary the surviving records are those before it. */
  lemma BoundarySurvivors(es: seq<Entry>, c: nat)
    requires OnBoundary(es, c)
    ensures c <= |EncodeAll(es)| && EncodeAll(es)[..c] == EncodeAll(es[..Survivors(es, c)])
  {
    var k :| 0 <= k <= |es| && c == |EncodeAll(es[..k])|;
    hide EncodeAll, Survivors, OnBoundary;
    BoundaryPrefix(es, k);
    SurvivorsAt(es, k);
  }

  lemma IntactIs(es: seq<Entry>)
    ensures OnBoundary(es, |EncodeAll(es)|) && Kept(Intact(es)) == es
    ensures EncodeAll(es)[..|EncodeAll(es)|] == EncodeAll(es)
  {
    assert es[..|es|] == es;
    hide EncodeAll, Survivors;
    SurvivorsAt(es, |es|);
  }

  // ------------------------------------------------------------------ what the log holds

  lemma IntactHolds(es: seq<Entry>)
    requires AllFit(es)
    ensures Holds(EncodeAll(es), Intact(es))
  {
    hide EncodeAll, Fits;
    IntactIs(es);
  }

  lemma MoreHolds(log: Bytes, t: Trace, more: Bytes)
    requires Holds(log, t)
    ensures Holds(log + more, t.(whole := false))
  {
    hide EncodeAll, Fits;
    var known := EncodeAll(t.es)[..t.c];
    assert (log + more)[..|known|] == log[..|known|];
  }

  lemma LoggedHolds(log: Bytes, t: Trace, r: Request)
    requires Holds(log, t) && Logged(r) && Fits(EntryOf(r))
    ensures Holds(log + Encode(EntryOf(r)), TraceAfter(t, Cmd(r, 0)))
  {
    var e := EntryOf(r);
    hide Encode, EncodeAll, Survivors, OnBoundary, Logged, Fits, Holds, Appendable;
    if Appendable(t) {
      AppendedHolds(log, t, e);
    } else {
      MoreHolds(log, t, Encode(e));
    }
  }

  lemma AppendedHolds(log: Bytes, t: Trace, e: Entry)
    requires Holds(log, t) && Appendable(t) && Fits(e)
    ensures Holds(log + Encode(e), Intact(Kept(t) + [e]))
  {
    hide Encode, EncodeAll, Survivors, OnBoundary, Fits;
    BoundarySurvivors(t.es, t.c);
    EncodeAllLast(Kept(t), e);
    assert AllFit(Kept(t) + [e]);
    hide Holds, Kept;
    IntactHolds(Kept(t) + [e]);
  }

  lemma CutHolds(log: Bytes, t: Trace, c: nat)
    requires Holds(log, t)
    ensures Holds(Cut(log, c), TraceAfter(t, Crash(c)))
  {
    hide EncodeAll, Fits;
  }

  lemma StepHolds(s: Replica, t: Trace, ev: Event)
    requires Holds(s.log, t) && Sized(ev)
    ensures Holds(AfterEvent(s, ev).log, TraceAfter(t, ev))
  {
    hide Handle, Apply, Logged, Holds, Encode, EncodeAll, Cut, Recover, Appendable, Intact, Kept;
    if ev.Cmd? && Logged(ev.request) {
      HandleLogged(s, ev.request, ev.now);
      LoggedHolds(s.log, t, ev.request);
    } else if ev.Cmd? {
      UnloggedCommand(s, ev.request, ev.now);
      IntactHolds([]);
      EncodeAllNone();
    } else if ev.Crash? {
      CutHolds(s.log, t, ev.c);
    }
  }

  lemma {:induction false} RunHolds(evs: seq<Event>)
    requires AllSized(evs)
    ensures Holds(Run(evs).log, TraceOf(evs))
  {
    if evs == [] {
      IntactHolds([]);
      EncodeAllNone();
    } else {
      var before, ev := evs[..|evs| - 1], evs[|evs| - 1];
      AllSizedInit(evs);
      RunHolds(before);
      hide AfterEvent, TraceAfter, Holds, Sized;
      StepHolds(Run(before), TraceOf(before), ev);
    }
  }

  /** Without any hypothesis on what the requests mean: a whole log yields the records of the run,
      and on a boundary it is their encoding. */
  lemma LogHoldsRecords(evs: seq<Event>)
    requires AllSized(evs) && Whole(evs)
    ensures AllFit(Records(evs)) && Load(Run(evs).log) == NormalAll(Records(evs))
    ensures Appendable(TraceOf(evs)) ==> Run(evs).log == EncodeAll(Records(evs))
  {
    RunHolds(evs);
    hide EncodeAll, LoadFrom, Survivors, Fits, Run, TraceOf, OnBoundary, NormalAll, Zeros;
    var t := TraceOf(evs);
    LoadCutFrom(t.es, t.c, Zeros(4));
    if Appendable(t) {
      BoundarySurvivors(t.es, t.c);
    }
  }

  /** Every crash of the run cuts the log after some record. */
  predicate BoundaryCrashes(evs: seq<Event>) {
    evs != [] ==>
      var before, ev := evs[..|evs| - 1], evs[|evs| - 1];
      BoundaryCrashes(before) && (ev.Crash? ==> OnBoundary(TraceOf(before).es, ev.c))
  }

  /** If they all do, the log is whole and on a boundary all the time. */
  lemma {:induction false} BoundaryRunsAreWhole(evs: seq<Event>)
    requires BoundaryCrashes(evs)
    ensures Whole(evs) && Appendable(TraceOf(evs))
  {
    hide OnBoundary, EncodeAll, VerbOf, ToUpper, Kept;
    if evs == [] {
      IntactIs([]);
    } else {
      var before, ev := evs[..|evs| - 1], evs[|evs| - 1];
      BoundaryRunsAreWhole(before);
      IntactIs([]);
      if ev.Cmd? && Logged(ev.request) {
        IntactIs(Kept(TraceOf(before)) + [EntryOf(ev.request)]);
      }
    }
  }

  // ------------------------------------------------------------------ prefixes of a run

  /** Cutting what a cut has left. */
  lemma SurvivorsOfKept(es: seq<Entry>, c: nat, d: nat)
    requires d <= c
    ensures Survivors(es[..Survivors(es, c)], d) == Survivors(es, d)
  {
    hide EncodeAll, Survivors;
    var k, j := Survivors(es, c), Survivors(es, d);
    SurvivorsIsLargest(es, d, j);
    SurvivorsIsLargest(es, c, j);
    var i := Survivors(es[..k], d);
    assert es[..k][..i] == es[..i] && es[..k][..j] == es[..j];
    SurvivorsIsLargest(es[..k], d, i);
    SurvivorsIsLargest(es[..k], d, j);
    SurvivorsIsLargest(es, d, i);
  }

  /** An event that does not leave exactly the first j records keeps their being there from before. */
  lemma StepKeeps(t: Trace, ev: Event, j: nat)
    requires var now := TraceAfter(t, ev); j <= |Kept(now)| && !(now.whole && j == |Kept(now)|)
    ensures j <= |Kept(t)| && Kept(t)[..j] == Kept(TraceAfter(t, ev))[..j]
  {
    hide OnBoundary, EncodeAll, VerbOf, ToUpper, Survivors, IsFlush;
    match ev {
      case Cmd(r, _) =>
        if Logged(r) && Appendable(t) {
          IntactIs(Kept(t) + [EntryOf(r)]);
        } else if !Logged(r) && IsFlush(r) {
          IntactIs([]);
        }
      case Crash(c) =>
        SurvivorsMonotone(t.es, t.c, if c < t.c then c else t.c);
      case _ =>
    }
  }

  lemma SurvivorsMonotone(es: seq<Entry>, c: nat, d: nat)
    requires d <= c
    ensures Survivors(es, d) <= Survivors(es, c)
  {
    hide EncodeAll, Survivors;
    SurvivorsIsLargest(es, d, Survivors(es, d));
    SurvivorsIsLargest(es, c, Survivors(es, d));
  }

  /** A prefix of the run with a whole log that holds the first j records. */
  lemma {:induction false} PrefixWithRecords(evs: seq<Event>, j: nat) returns (k: nat)
    requires j <= |Records(evs)|
    ensures k <= |evs| && Whole(evs[..k]) && Records(evs[..k]) == Records(evs)[..j]
    ensures Whole(evs) && j == |Records(evs)| ==> k == |evs|
  {
    var n := |evs|;
    assert evs[..n] == evs;
    hide TraceAfter, Kept, Intact;
    if n == 0 {
      k := 0;
      IntactIs([]);
    } else if Whole(evs) && j == |Records(evs)| {
      k := n;
    } else {
      StepKeeps(TraceOf(evs[..n - 1]), evs[n - 1], j);
      k := PrefixWithRecords(evs[..n - 1], j);
      assert evs[..n - 1][..k] == evs[..k];
    }
  }
}
