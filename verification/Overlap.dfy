/** Overlapping handlers, exactly: two tasks may be in flight together if and only if they commute,
    and which tasks commute can be read off their fields. */
module Overlap {
  import opened Bytes
  import opened Collections
  import opened Decimal
  import opened Requests
  import opened Persistence
  import opened Store
  import opened Commands
  import opened Keys
  import opened Replay
  import opened Concurrency

  // ------------------------------------------------------------------ commuting records

  /** What a record does to its key. */
  datatype Act = Nothing | Keep(text: Bytes) | Bump(offset: int) | Append(item: Elem) | TakeLeft | TakeRight

  function ActOf(e: Entry): Act {
    if e.key == [] then Nothing
    else
      match VerbOf(e.command)
      case SET => if OrEmpty(e.value) == [] then Nothing else Keep(e.value.value)
      case INCR => if e.offset.None? || Atoi(e.offset.value).None? then Nothing else Bump(Atoi(e.offset.value).value)
      case PUSH => Append(e.value)
      case LPOP => TakeLeft
      case RPOP => TakeRight
      case _ => Nothing
  }

  function DoAct(db: Db, k: Bytes, a: Act): Db {
    match a
    case Nothing => db
    case Keep(text) => Set(db, k, text, 0, 0).db
    case Bump(n) => Incr(db, k, n).db
    case Append(item) => Push(db, k, item).db
    case TakeLeft => Lpop(db, k).db
    case TakeRight => Rpop(db, k).db
  }

  lemma EffectIsAct(db: Db, e: Entry)
    ensures Effect(db, e) == DoAct(db, e.key, ActOf(e))
  {
    hide VerbOf, Atoi;
  }

  /** Both orders of two acts on one key leave the same. */
  predicate CommuteActs(a: Act, b: Act) {
    match (a, b)
    case (Keep(v), Keep(w)) => v == w
    case (Keep(v), Bump(n)) => KeepThenBump(v, n)
    case (Bump(n), Keep(v)) => KeepThenBump(v, n)
    case (Append(x), Append(y)) => x == y
    case (Append(_), TakeLeft) => false
    case (Append(_), TakeRight) => false
    case (TakeLeft, Append(_)) => false
    case (TakeRight, Append(_)) => false
    case _ => true
  }

  /** An INCR leaves the text v alone: v is no integer, or it is one as Itoa prints it and the offset is 0. */
  predicate KeepThenBump(v: Bytes, n: int) {
    Atoi(v).None? || (n == 0 && Canonical(v))
  }

  predicate CommuteRecords(e: Entry, f: Entry) {
    e.key != f.key || CommuteActs(ActOf(e), ActOf(f))
  }

  lemma BumpText(v: Bytes, n: int)
    requires FitsInt64(n) && Atoi(v).Some?
    ensures Itoa(Wrap64(Atoi(v).value + n)) == v <==> KeepThenBump(v, n)
  {
    hide Atoi, Itoa, Wrap64, Canonical;
    var m := Atoi(v).value;
    ItoaAtoi(v);
    WrapShift(m, n);
    if Itoa(Wrap64(m + n)) == v {
      AtoiItoa(Wrap64(m + n));
    }
  }

  lemma BumpTwice(db: Db, k: Bytes, m: int, n: int)
    ensures Incr(Incr(db, k, m).db, k, n).db == Incr(Incr(db, k, n).db, k, m).db
  {
    hide Atoi, Itoa, Wrap64;
    if Incr(db, k, m).result.Ok? {
      var t := Atoi(db.store[k]).value;
      WrapAdd(t + m, n);
      WrapAdd(t + n, m);
      AtoiItoa(Wrap64(t + m));
      AtoiItoa(Wrap64(t + n));
      assert t + m + n == t + n + m;
    }
  }

  lemma KeepAndBump(db: Db, k: Bytes, v: Bytes, n: int)
    requires k != [] && v != [] && FitsInt64(n) && KeepThenBump(v, n)
    ensures Incr(Set(db, k, v, 0, 0).db, k, n).db == Set(Incr(db, k, n).db, k, v, 0, 0).db
  {
    hide Atoi, Itoa, Wrap64, KeepThenBump;
    var kept := db.(store := db.store[k := v]);
    assert Set(db, k, v, 0, 0).db == kept;
    assert Incr(db, k, n).db.store[k := v] == kept.store;
    if Atoi(v).Some? {
      BumpText(v, n);
      assert kept.store[k := v] == kept.store;
    }
  }

  lemma TakesCommute(db: Db, k: Bytes)
    requires k != []
    ensures Rpop(Lpop(db, k).db, k).db == Lpop(Rpop(db, k).db, k).db
  {
    if k in db.lists && |db.lists[k]| > 1 {
      var s := db.lists[k];
      assert s[1..][..|s| - 2] == s[..|s| - 1][1..];
      assert Rpop(Lpop(db, k).db, k).db.lists == Lpop(Rpop(db, k).db, k).db.lists;
    }
  }

  /** The offset of a Bump is a 64-bit integer and the text of a Keep is not empty. */
  predicate ValidAct(a: Act) {
    (a.Bump? ==> FitsInt64(a.offset)) && (a.Keep? ==> a.text != [])
  }

  /** A text and a list under one key do not meet. */
  lemma SimpleCommute(db: Db, k: Bytes, a: Act, b: Act)
    requires k != [] && (a == b || a.Nothing? || b.Nothing? || OnText(a) != OnText(b))
    ensures DoAct(DoAct(db, k, a), k, b) == DoAct(DoAct(db, k, b), k, a)
  {
    if a != b && !a.Nothing? && !b.Nothing? {
      if OnText(a) {
        TextMeetsList(db, k, a, b);
      } else {
        TextMeetsList(db, k, b, a);
      }
    }
  }

  predicate OnText(a: Act) {
    a.Keep? || a.Bump?
  }

  lemma TextMeetsList(db: Db, k: Bytes, a: Act, b: Act)
    requires OnText(a) && !OnText(b)
    ensures DoAct(DoAct(db, k, a), k, b) == DoAct(DoAct(db, k, b), k, a)
  {
    hide DoAct;
    TextAlone(db, k, a, DoAct(db, k, b).lists);
    ListAlone(db, k, b, DoAct(db, k, a).store);
  }

  /** A text act neither reads nor changes the lists. */
  lemma TextAlone(db: Db, k: Bytes, a: Act, lists: map<Bytes, seq<Elem>>)
    requires OnText(a)
    ensures DoAct(db, k, a) == db.(store := DoAct(db, k, a).store)
    ensures DoAct(db.(lists := lists), k, a) == db.(store := DoAct(db, k, a).store, lists := lists)
  {
    hide Atoi, Itoa, Wrap64;
  }

  lemma ListAlone(db: Db, k: Bytes, b: Act, store: map<Bytes, Bytes>)
    requires !OnText(b)
    ensures DoAct(db, k, b) == db.(lists := DoAct(db, k, b).lists)
    ensures DoAct(db.(store := store), k, b) == db.(store := store, lists := DoAct(db, k, b).lists)
  {
  }

  lemma ActsCommute(db: Db, k: Bytes, a: Act, b: Act)
    requires k != [] && ValidAct(a) && ValidAct(b) && CommuteActs(a, b)
    ensures DoAct(DoAct(db, k, a), k, b) == DoAct(DoAct(db, k, b), k, a)
  {
    hide Atoi, Itoa, Wrap64, KeepThenBump, Incr, Push, Lpop, Rpop, Set;
    match (a, b) {
      case (Keep(v), Bump(n)) => KeepAndBump(db, k, v, n);
      case (Bump(n), Keep(v)) => KeepAndBump(db, k, v, n);
      case (Bump(m), Bump(n)) => BumpTwice(db, k, m, n);
      case (TakeLeft, TakeRight) => TakesCommute(db, k);
      case (TakeRight, TakeLeft) => TakesCommute(db, k);
      case _ => SimpleCommute(db, k, a, b);
    }
  }

  /** Acts that do not commute part ways on the empty database already. */
  lemma ActsDiverge(k: Bytes, a: Act, b: Act)
    requires k != [] && ValidAct(a) && ValidAct(b) && !CommuteActs(a, b)
    ensures DoAct(DoAct(EMPTY, k, a), k, b) != DoAct(DoAct(EMPTY, k, b), k, a)
  {
    hide Atoi, Itoa, Wrap64, KeepThenBump;
    var ab, ba := DoAct(DoAct(EMPTY, k, a), k, b), DoAct(DoAct(EMPTY, k, b), k, a);
    if a.Keep? && b.Keep? {
      assert ab.store[k] != ba.store[k];
    } else if a.Keep? {
      KeepBumpDiverge(k, a.text, b.offset);
    } else if a.Bump? {
      KeepBumpDiverge(k, b.text, a.offset);
    } else if a.Append? && b.Append? {
      assert ab.lists[k][0] != ba.lists[k][0];
    } else {
      assert |ab.lists[k]| != |ba.lists[k]|;
    }
  }

  lemma KeepBumpDiverge(k: Bytes, v: Bytes, n: int)
    requires k != [] && v != [] && FitsInt64(n) && !KeepThenBump(v, n)
    ensures Incr(Set(EMPTY, k, v, 0, 0).db, k, n).db != Set(Incr(EMPTY, k, n).db, k, v, 0, 0).db
  {
    BumpText(v, n);
    hide Atoi, Itoa, Wrap64;
    assert Incr(Set(EMPTY, k, v, 0, 0).db, k, n).db.store[k] != v;
  }

  lemma ActIsValid(e: Entry)
    ensures ValidAct(ActOf(e)) && (e.key == [] ==> ActOf(e) == Nothing)
  {
    hide VerbOf, Atoi;
  }

  lemma SameKeyCommutes(e: Entry, f: Entry, db: Db)
    requires e.key == f.key && CommuteRecords(e, f)
    ensures Effect(Effect(db, e), f) == Effect(Effect(db, f), e)
  {
    hide ActOf, DoAct, Effect, CommuteActs;
    EffectIsAct(db, e);
    EffectIsAct(db, f);
    EffectIsAct(Effect(db, e), f);
    EffectIsAct(Effect(db, f), e);
    ActIsValid(e);
    ActIsValid(f);
    if e.key == [] {
      NothingDone(db);
    } else {
      ActsCommute(db, e.key, ActOf(e), ActOf(f));
    }
  }

  lemma NothingDone(db: Db)
    ensures DoAct(db, [], Nothing) == db
  {
  }

  lemma OtherKeyCell(e: Entry, f: Entry, db: Db)
    requires e.key != f.key
    ensures CellAt(Effect(Effect(db, e), f), e.key) == CellAt(Effect(Effect(db, f), e), e.key)
  {
    hide Effect, CellAt;
    EffectElsewhere(Effect(db, e), f, e.key);
    EffectElsewhere(db, f, e.key);
    EffectAtKey(Effect(db, f), db, e);
  }

  lemma OtherKeyCommutes(e: Entry, f: Entry, db: Db)
    requires e.key != f.key
    ensures Effect(Effect(db, e), f) == Effect(Effect(db, f), e)
  {
    hide Effect, CellAt;
    var ef, fe := Effect(Effect(db, e), f), Effect(Effect(db, f), e);
    forall k ensures CellAt(ef, k) == CellAt(fe, k) {
      if k == e.key {
        OtherKeyCell(e, f, db);
      } else if k == f.key {
        OtherKeyCell(f, e, db);
      } else {
        EffectElsewhere(Effect(db, e), f, k);
        EffectElsewhere(db, e, k);
        EffectElsewhere(Effect(db, f), e, k);
        EffectElsewhere(db, f, k);
      }
    }
    SameCellsSameDb(ef, fe);
  }

  lemma RecordsDiverge(e: Entry, f: Entry)
    requires !CommuteRecords(e, f)
    ensures Effect(Effect(EMPTY, e), f) != Effect(Effect(EMPTY, f), e)
  {
    hide ActOf, DoAct, Effect;
    EffectIsAct(EMPTY, e);
    EffectIsAct(EMPTY, f);
    EffectIsAct(Effect(EMPTY, e), f);
    EffectIsAct(Effect(EMPTY, f), e);
    ActIsValid(e);
    ActIsValid(f);
    ActsDiverge(e.key, ActOf(e), ActOf(f));
  }

  // ------------------------------------------------------------------ commuting tasks

  function TaskEffect(db: Db, t: Task): Db {
    match t
    case Flush => EMPTY
    case Write(r) => if Loggable(r) then Effect(db, RecordOf(r)) else db
  }

  /** The record creates nothing: no text, no list element. */
  predicate CreatesNothing(e: Entry) {
    !ActOf(e).Keep? && !ActOf(e).Append?
  }

  predicate Commute(t: Task, u: Task)
    requires WellBehaved(t) && WellBehaved(u)
  {
    match (t, u)
    case (Write(r), Write(q)) => CommuteRecords(RecordOf(r), RecordOf(q))
    case (Write(r), Flush) => CreatesNothing(RecordOf(r))
    case (Flush, Write(q)) => CreatesNothing(RecordOf(q))
    case (Flush, Flush) => true
  }

  lemma EmptyStaysEmpty(e: Entry)
    ensures Effect(EMPTY, e) == EMPTY <==> CreatesNothing(e)
  {
    EffectIsAct(EMPTY, e);
    ActIsValid(e);
    hide ActOf, Effect, Atoi;
    var db := DoAct(EMPTY, e.key, ActOf(e));
    if !CreatesNothing(e) {
      assert e.key in db.store || e.key in db.lists;
    }
  }

  lemma TasksCommute(t: Task, u: Task, db: Db)
    requires WellBehaved(t) && WellBehaved(u) && Commute(t, u)
    ensures TaskEffect(TaskEffect(db, t), u) == TaskEffect(TaskEffect(db, u), t)
  {
    hide Effect, CreatesNothing, Faithful, Fits, VerbOf, ToUpper, CommuteActs;
    if t.Write? && u.Write? {
      var e, f := RecordOf(t.request), RecordOf(u.request);
      if e.key == f.key {
        SameKeyCommutes(e, f, db);
      } else {
        OtherKeyCommutes(e, f, db);
      }
    } else if t.Write? {
      EmptyStaysEmpty(RecordOf(t.request));
    } else if u.Write? {
      EmptyStaysEmpty(RecordOf(u.request));
    }
  }

  lemma TasksDiverge(t: Task, u: Task)
    requires WellBehaved(t) && WellBehaved(u) && !Commute(t, u)
    ensures TaskEffect(TaskEffect(EMPTY, t), u) != TaskEffect(TaskEffect(EMPTY, u), t)
  {
    hide Effect, CreatesNothing, Faithful, Fits, CommuteRecords;
    if t.Write? && u.Write? {
      RecordsDiverge(RecordOf(t.request), RecordOf(u.request));
    } else if t.Write? {
      EmptyStaysEmpty(RecordOf(t.request));
    } else {
      EmptyStaysEmpty(RecordOf(u.request));
    }
  }

  /** Both orders of two tasks leave the same on every database exactly when their fields say so. */
  lemma CommuteIff(t: Task, u: Task)
    requires WellBehaved(t) && WellBehaved(u)
    ensures (forall db :: TaskEffect(TaskEffect(db, t), u) == TaskEffect(TaskEffect(db, u), t)) <==> Commute(t, u)
  {
    hide TaskEffect, Commute;
    if Commute(t, u) {
      forall db ensures TaskEffect(TaskEffect(db, t), u) == TaskEffect(TaskEffect(db, u), t) {
        TasksCommute(t, u, db);
      }
    } else {
      TasksDiverge(t, u);
    }
  }

  // ------------------------------------------------------------------ every run

  /** No handler begins while one that its task does not commute with is in flight. */
  predicate OnlyCommuting(s: System, m: Move) {
    m.Begin? && WellBehaved(m.task) ==>
      forall h :: h in s.inFlight && WellBehaved(s.inFlight[h]) ==> Commute(m.task, s.inFlight[h])
  }

  ghost predicate Harmonious(ms: seq<Move>)
    requires Feasible(ms)
  {
    ms != [] ==>
      var init, m := ms[..|ms| - 1], ms[|ms| - 1];
      Harmonious(init) && OnlyCommuting(Exec(init), m)
  }

  /** The position of a handler among the tasks that have begun. */
  function IndexOf(w: seq<Move>, h: nat): (i: nat)
    ensures i <= |w|
    ensures i < |w| ==> w[i].handler == h
    ensures forall j :: 0 <= j < i ==> w[j].handler != h
  {
    if w == [] || w[0].handler == h then 0 else 1 + IndexOf(w[1..], h)
  }

  /** The handlers between their two sections, in the order they began. */
  function Waiting(ms: seq<Move>): seq<Move> {
    if ms == [] then []
    else
      var before, m := Waiting(ms[..|ms| - 1]), ms[|ms| - 1];
      if m.Begin? then before + [m] else Without(before, IndexOf(before, m.handler))
  }

  /** The effects of waiting tasks, in order. */
  function DoAll(db: Db, w: seq<Move>): Db
    decreases |w|
  {
    if w == [] then db
    else DoAll(if w[0].Begin? then TaskEffect(db, w[0].task) else db, w[1..])
  }

  lemma {:induction false} DoAllAppend(db: Db, w: seq<Move>, m: Move)
    requires m.Begin?
    ensures DoAll(db, w + [m]) == TaskEffect(DoAll(db, w), m.task)
    decreases |w|
  {
    hide TaskEffect;
    if w == [] {
      assert w + [m] == [m] && [m][1..] == [];
    } else {
      assert (w + [m])[1..] == w[1..] + [m];
      DoAllAppend(if w[0].Begin? then TaskEffect(db, w[0].task) else db, w[1..], m);
    }
  }

  predicate WaitsCleanly(w: seq<Move>) {
    forall i :: 0 <= i < |w| ==> w[i].Begin? && WellBehaved(w[i].task)
  }

  /** A task that commutes with those before it may go first. */
  lemma {:induction false} GoesFirst(db: Db, w: seq<Move>, i: nat)
    requires WaitsCleanly(w) && i < |w|
    requires forall j :: 0 <= j < i ==> Commute(w[i].task, w[j].task)
    ensures DoAll(db, w) == DoAll(TaskEffect(db, w[i].task), Without(w, i))
    decreases i
  {
    hide TaskEffect, Commute, WellBehaved;
    var rest := Without(w, i);
    if i == 0 {
      assert rest == w[1..];
    } else {
      var t, u := w[0].task, w[i].task;
      GoesFirst(TaskEffect(db, t), w[1..], i - 1);
      assert rest[0] == w[0] && rest[1..] == Without(w[1..], i - 1);
      TasksCommute(u, t, db);
    }
  }

  predicate Distinct(w: seq<Move>) {
    forall i, j :: 0 <= j < i < |w| ==> w[i].handler != w[j].handler
  }

  /** Every waiting task is in flight, and every handler in flight waits. */
  predicate Lists(f: map<nat, Task>, w: seq<Move>) {
    && (forall i :: 0 <= i < |w| ==> w[i].handler in f && w[i].Begin? && w[i].task == f[w[i].handler])
    && (forall h :: h in f ==> IndexOf(w, h) < |w|)
  }

  predicate PairwiseCommute(w: seq<Move>)
    requires WaitsCleanly(w)
  {
    forall i, j :: 0 <= j < i < |w| ==> Commute(w[i].task, w[j].task)
  }

  predicate Awaits(s: System, w: seq<Move>) {
    Lists(s.inFlight, w) && Distinct(w) && WaitsCleanly(w) && PairwiseCommute(w)
  }

  lemma BeginLists(f: map<nat, Task>, w: seq<Move>, m: Move)
    requires Lists(f, w) && Distinct(w) && m.Begin? && m.handler !in f
    ensures Lists(f[m.handler := m.task], w + [m]) && Distinct(w + [m])
  {
    forall h | h in f || h == m.handler ensures IndexOf(w + [m], h) < |w + [m]| {
      IndexOfAppend(w, m, h);
    }
    hide IndexOf;
  }

  lemma IndexOfAppend(w: seq<Move>, m: Move, h: nat)
    requires IndexOf(w, h) < |w| || h == m.handler
    ensures IndexOf(w + [m], h) < |w + [m]|
  {
    assert (w + [m])[if h == m.handler then |w| else IndexOf(w, h)].handler == h;
  }

  lemma EndDistinct(w: seq<Move>, i: nat)
    requires Distinct(w) && i < |w|
    ensures Distinct(Without(w, i)) && forall j :: 0 <= j < |w| - 1 ==> Without(w, i)[j].handler != w[i].handler
  {
    WithoutAt(w, i);
    hide Without;
  }

  lemma WithoutBack(w: seq<Move>, i: nat, j: nat)
    requires i < |w| && j < |w| && i != j
    ensures var at := if j < i then j else j - 1; at < |Without(w, i)| && Without(w, i)[at] == w[j]
  {
    if i < j {
      assert w[i + 1..][j - 1 - i] == w[j];
    }
  }

  lemma StillThere(w: seq<Move>, i: nat, g: nat)
    requires i < |w| && w[i].handler != g && IndexOf(w, g) < |w|
    ensures IndexOf(Without(w, i), g) < |Without(w, i)|
  {
    hide IndexOf, Without;
    WithoutBack(w, i, IndexOf(w, g));
  }

  lemma EndLists(f: map<nat, Task>, w: seq<Move>, h: nat)
    requires Lists(f, w) && Distinct(w) && h in f
    ensures Lists(f - {h}, Without(w, IndexOf(w, h))) && Distinct(Without(w, IndexOf(w, h)))
  {
    var i := IndexOf(w, h);
    hide Without, Distinct, IndexOf;
    EndDistinct(w, i);
    WithoutAt(w, i);
    forall g | g in f && g != h ensures IndexOf(Without(w, i), g) < |Without(w, i)| {
      StillThere(w, i, g);
    }
  }

  lemma WithoutAt(w: seq<Move>, i: nat)
    requires i < |w|
    ensures |Without(w, i)| == |w| - 1
    ensures forall j :: 0 <= j < |w| - 1 ==> Without(w, i)[j] == w[if j < i then j else j + 1]
  {
    forall j | 0 <= j < |w| - 1 ensures Without(w, i)[j] == w[if j < i then j else j + 1] {
      if j >= i {
        assert w[i + 1..][j - i] == w[j + 1];
      }
    }
  }

  lemma BeginCommutes(s: System, w: seq<Move>, m: Move)
    requires Awaits(s, w) && m.Begin? && Enabled(s, m) && OnlyCommuting(s, m)
    ensures WaitsCleanly(w + [m]) && PairwiseCommute(w + [m])
  {
    hide WellBehaved, Commute, IndexOf, Distinct;
    forall j | 0 <= j < |w| ensures Commute(m.task, w[j].task) {
      assert w[j].handler in s.inFlight && WellBehaved(w[j].task);
    }
    hide Lists;
  }

  lemma BeginAwaits(s: System, w: seq<Move>, m: Move)
    requires Awaits(s, w) && m.Begin? && Enabled(s, m) && OnlyCommuting(s, m)
    ensures Awaits(Do(s, m), w + [m])
  {
    BeginCommutes(s, w, m);
    hide WellBehaved, PairwiseCommute, WaitsCleanly, Lists, Distinct, Do, OnlyCommuting;
    BeginLists(s.inFlight, w, m);
  }

  lemma EndCommutes(w: seq<Move>, i: nat)
    requires WaitsCleanly(w) && PairwiseCommute(w) && i < |w|
    ensures WaitsCleanly(Without(w, i)) && PairwiseCommute(Without(w, i))
  {
    hide WellBehaved, Commute;
    WithoutAt(w, i);
    hide Without;
  }

  lemma IndexLists(f: map<nat, Task>, w: seq<Move>, h: nat)
    requires Lists(f, w) && h in f
    ensures var i := IndexOf(w, h); i < |w| && w[i].Begin? && w[i].task == f[h]
  {
    hide IndexOf;
    assert w[IndexOf(w, h)].handler == h;
  }

  lemma EndAwaits(s: System, w: seq<Move>, m: Move)
    requires Awaits(s, w) && m.End? && Enabled(s, m)
    ensures var i := IndexOf(w, m.handler);
            i < |w| && w[i].task == s.inFlight[m.handler] && Awaits(Do(s, m), Without(w, i))
  {
    hide WellBehaved, PairwiseCommute, WaitsCleanly, Lists, Distinct, Do, Without, IndexOf;
    IndexLists(s.inFlight, w, m.handler);
    EndLists(s.inFlight, w, m.handler);
    EndCommutes(w, IndexOf(w, m.handler));
  }

  /** What the log holds beyond the database. */
  ghost predicate AheadBy(s: System, w: seq<Move>) {
    Effects(EMPTY, s.logged) == DoAll(s.db, w)
  }

  lemma BeginAhead(s: System, w: seq<Move>, m: Move)
    requires AheadBy(s, w) && m.Begin? && Enabled(s, m)
    ensures AheadBy(Do(s, m), w + [m])
  {
    hide Effects, Effect, DoAll, Encode, Normal, Faithful, Fits, VerbOf, ToUpper;
    DoAllAppend(s.db, w, m);
    if m.task.Write? {
      EffectsAppend(EMPTY, s.logged, RecordOf(m.task.request));
    } else {
      NoEffects();
    }
  }

  lemma EndEffect(s: System, m: Move)
    requires m.End? && Enabled(s, m)
    ensures Do(s, m).db == TaskEffect(s.db, s.inFlight[m.handler]) && Do(s, m).logged == s.logged
  {
    hide Effect, Apply, Normal, Faithful, Fits, VerbOf, ToUpper;
    if s.inFlight[m.handler].Write? {
      FaithfulEffect(s.inFlight[m.handler].request, s.db, m.now);
    }
  }

  lemma EndAhead(s: System, w: seq<Move>, m: Move)
    requires AheadBy(s, w) && Awaits(s, w) && m.End? && Enabled(s, m)
    ensures AheadBy(Do(s, m), Without(w, IndexOf(w, m.handler)))
  {
    var i := IndexOf(w, m.handler);
    EndAwaits(s, w, m);
    hide Effects, DoAll, TaskEffect, Without, Do, Commute, WellBehaved;
    EndEffect(s, m);
    GoesFirst(s.db, w, i);
  }

  /** A crash at any instant of any run in which only commuting tasks overlap: what comes back is
      the live database with every handler between its two sections carried to its end. */
  lemma {:induction false} AnyInstantRecovery(ms: seq<Move>)
    requires Feasible(ms) && Harmonious(ms)
    ensures Awaits(Exec(ms), Waiting(ms))
    ensures Rebuild(EMPTY, Load(Exec(ms).log)) == Some(DoAll(Exec(ms).db, Waiting(ms)))
  {
    RunAwaits(ms);
    hide Awaits, Consistent, Exec;
    RecoverIsLogged(Exec(ms));
  }

  lemma {:induction false} RunAwaits(ms: seq<Move>)
    requires Feasible(ms) && Harmonious(ms)
    ensures Consistent(Exec(ms)) && Awaits(Exec(ms), Waiting(ms)) && AheadBy(Exec(ms), Waiting(ms))
  {
    if ms == [] {
      StartIsConsistent();
      NoEffects();
    } else {
      var init, m := ms[..|ms| - 1], ms[|ms| - 1];
      RunAwaits(init);
      hide Awaits, AheadBy, Consistent, Do, Enabled, OnlyCommuting, Without, IndexOf;
      DoKeepsConsistent(Exec(init), m);
      if m.Begin? {
        BeginAwaits(Exec(init), Waiting(init), m);
        BeginAhead(Exec(init), Waiting(init), m);
      } else {
        EndAwaits(Exec(init), Waiting(init), m);
        EndAhead(Exec(init), Waiting(init), m);
      }
    }
  }

  /** Whenever no handler is in flight, the log replays to exactly the live database. */
  lemma CommutingQuiescentReplay(ms: seq<Move>)
    requires Feasible(ms) && Harmonious(ms) && Exec(ms).inFlight == map[]
    ensures Rebuild(EMPTY, Load(Exec(ms).log)) == Some(Exec(ms).db)
  {
    AnyInstantRecovery(ms);
    var w := Waiting(ms);
    if w != [] {
      FirstIsInFlight(Exec(ms), w);
      assert false;
    }
  }

  lemma FirstIsInFlight(s: System, w: seq<Move>)
    requires Awaits(s, w) && w != []
    ensures w[0].handler in s.inFlight
  {
  }

  /** Handlers that share no key, and no FLUSHDB beside them, are a special case. */
  lemma {:induction false} DisjointIsHarmonious(ms: seq<Move>)
    requires Feasible(ms) && Legal(ms)
    ensures Harmonious(ms)
  {
    if ms != [] {
      DisjointIsHarmonious(ms[..|ms| - 1]);
      hide Do, CommuteActs, ActOf;
    }
  }

  // ------------------------------------------------------------------ one reversed pair

  /** Nobody is in flight, and log and database agree key by key. */
  ghost predicate Quiet(s: System) {
    && Consistent(s) && s.inFlight == map[]
    && forall k :: OnKey(s.logged, k) == OnKey(s.applied, k)
  }

  function BothBegun(s: System, t: Task, u: Task): (v: System)
    requires s.inFlight == map[] && WellBehaved(t) && WellBehaved(u)
    ensures v.inFlight == map[0 := t, 1 := u] && v.db == s.db
  {
    hide Do, WellBehaved;
    Do(Do(s, Begin(0, t)), Begin(1, u))
  }

  /** Two handlers that begin in one order and end in the other. */
  function Reversed(s: System, t: Task, u: Task): (v: System)
    requires s.inFlight == map[] && WellBehaved(t) && WellBehaved(u)
    ensures v.inFlight == map[]
  {
    hide Do, WellBehaved;
    Do(Do(BothBegun(s, t, u), End(1, 0)), End(0, 0))
  }

  /** A restart would build the live database. */
  predicate Restores(s: System) {
    Rebuild(EMPTY, Load(s.log)) == Some(s.db)
  }

  lemma StartIsQuiet()
    ensures Quiet(START)
  {
    StartIsConsistent();
    hide Consistent;
  }

  lemma QuietIsLevel(s: System)
    requires Quiet(s)
    ensures AheadBy(s, [])
  {
    SameOnEveryKey(EMPTY, s.logged, s.applied);
  }

  lemma DoAllTwo(db: Db, m: Move, n: Move)
    requires m.Begin? && n.Begin?
    ensures DoAll(db, [] + [m] + [n]) == TaskEffect(TaskEffect(db, m.task), n.task)
  {
    hide TaskEffect;
    DoAllAppend(db, [] + [m], n);
    DoAllAppend(db, [], m);
  }

  lemma BothBegunLogs(s: System, t: Task, u: Task)
    requires Quiet(s) && WellBehaved(t) && WellBehaved(u)
    ensures Consistent(BothBegun(s, t, u))
    ensures Effects(EMPTY, BothBegun(s, t, u).logged) == TaskEffect(TaskEffect(s.db, t), u)
  {
    var b0, b1 := Begin(0, t), Begin(1, u);
    var s1 := Do(s, b0);
    assert Enabled(s, b0) && Enabled(s1, b1);
    hide Effects, TaskEffect, DoAll, Do, Enabled, WellBehaved, Consistent, OnKey;
    DoKeepsConsistent(s, b0);
    DoKeepsConsistent(s1, b1);
    QuietIsLevel(s);
    BeginAhead(s, [], b0);
    BeginAhead(s1, [] + [b0], b1);
    DoAllTwo(s.db, b0, b1);
  }

  lemma BothEnd(s: System, t: Task, u: Task)
    requires Consistent(s) && s.inFlight == map[0 := t, 1 := u] && WellBehaved(t) && WellBehaved(u)
    ensures var v := Do(Do(s, End(1, 0)), End(0, 0));
            Consistent(v) && v.logged == s.logged && v.db == TaskEffect(TaskEffect(s.db, u), t)
  {
    var e1, e0 := End(1, 0), End(0, 0);
    var s1 := Do(s, e1);
    assert Enabled(s, e1) && Enabled(s1, e0) && s1.inFlight[0] == t;
    hide TaskEffect, Do, Enabled, WellBehaved, Consistent;
    DoKeepsConsistent(s, e1);
    DoKeepsConsistent(s1, e0);
    EndEffect(s, e1);
    EndEffect(s1, e0);
  }

  /** Whatever the two tasks, the live database has them in the order they ended and a restart
      recovers the order they began. */
  lemma OverlapReverses(s: System, t: Task, u: Task)
    requires Quiet(s) && WellBehaved(t) && WellBehaved(u)
    ensures Reversed(s, t, u).db == TaskEffect(TaskEffect(s.db, u), t)
    ensures Rebuild(EMPTY, Load(Reversed(s, t, u).log)) == Some(TaskEffect(TaskEffect(s.db, t), u))
  {
    var v := BothBegun(s, t, u);
    BothBegunLogs(s, t, u);
    hide Effects, TaskEffect, Do, WellBehaved, Consistent, OnKey, BothBegun;
    BothEnd(v, t, u);
    RecoverIsLogged(Reversed(s, t, u));
  }

  /** The exact condition: two tasks may end in the other order than they began, from whatever quiet
      state, and still leave the database that a restart recovers, if and only if they commute. */
  lemma OverlapIff(t: Task, u: Task)
    requires WellBehaved(t) && WellBehaved(u)
    ensures (forall s :: Quiet(s) ==> Restores(Reversed(s, t, u))) <==> Commute(t, u)
  {
    hide Consistent, OnKey, Reversed, Commute, TaskEffect, WellBehaved;
    if Commute(t, u) {
      forall s | Quiet(s) ensures Restores(Reversed(s, t, u)) {
        OverlapReverses(s, t, u);
        TasksCommute(t, u, s.db);
      }
    } else {
      StartIsQuiet();
      OverlapReverses(START, t, u);
      TasksDiverge(t, u);
    }
  }

  function SetRequest(k: Bytes, v: Bytes): Request {
    Request(Some("SET"), Some(k), Some(v), None, None, None)
  }

  /** For instance two SETs of one key, whose values differ: memory keeps one, the log the other. */
  lemma OverlappingSetsDiverge(k: Bytes, v: Bytes, w: Bytes)
    requires k != [] && v != [] && w != [] && |k| <= MAXREAD && |v| <= MAXREAD && |w| <= MAXREAD
    ensures WellBehaved(Write(SetRequest(k, v))) && WellBehaved(Write(SetRequest(k, w)))
    ensures var s := Reversed(START, Write(SetRequest(k, v)), Write(SetRequest(k, w)));
            var recovered := Rebuild(EMPTY, Load(s.log));
            s.db == EMPTY.(store := map[k := v]) && recovered == Some(EMPTY.(store := map[k := w])) &&
            (Restores(s) <==> v == w)
  {
    var t, u := Write(SetRequest(k, v)), Write(SetRequest(k, w));
    SetRecord(k, v, EMPTY);
    SetRecord(k, w, EMPTY);
    StartIsQuiet();
    hide *;
    OverlapReverses(START, t, u);
    SetTwice(k, v, w);
    SetTwice(k, w, v);
    if v != w {
      assert map[k := v][k] != map[k := w][k];
    }
  }

  lemma SetTwice(k: Bytes, v: Bytes, w: Bytes)
    requires k != [] && v != [] && w != [] && |k| <= MAXREAD && |v| <= MAXREAD && |w| <= MAXREAD
    ensures TaskEffect(TaskEffect(EMPTY, Write(SetRequest(k, v))), Write(SetRequest(k, w)))
         == EMPTY.(store := map[k := w])
  {
    SetRecord(k, v, EMPTY);
    SetRecord(k, w, EMPTY.(store := map[k := v]));
    hide TaskEffect, SetRequest, WellBehaved;
    assert map[k := v][k := w] == map[k := w];
  }

  lemma SetRecord(k: Bytes, v: Bytes, db: Db)
    requires k != [] && v != [] && |k| <= MAXREAD && |v| <= MAXREAD
    ensures WellBehaved(Write(SetRequest(k, v)))
    ensures TaskEffect(db, Write(SetRequest(k, v))) == db.(store := db.store[k := v])
  {
    ExactVerbIsUpper("SET");
  }
}
