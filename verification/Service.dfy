/** The service as its clients see it: what the words of a request mean, whatever the case of their
    letters, and what the answers are over whole runs of requests. */
module Service {
  import opened Bytes
  import opened Decimal
  import opened Requests
  import opened Persistence
  import opened Store
  import opened Commands
  import opened Expiry
  import opened Texts

  /** The request's command is this word, in letters of either case. */
  predicate Is(r: Request, name: Bytes) {
    r.command.Some? && Spells(r.command.value, name)
  }

  lemma PushWord(r: Request)
    ensures Is(r, "PUSH") ==> VerbOf(ToUpper(r.command.value)) == PUSH
  {
    if r.command.Some? {
      SpellsIff(r.command.value, "PUSH");
      hide Spells, ToUpper;
    }
  }

  lemma LpopWord(r: Request)
    ensures Is(r, "LPOP") ==> VerbOf(ToUpper(r.command.value)) == LPOP
  {
    if r.command.Some? {
      SpellsIff(r.command.value, "LPOP");
      hide Spells, ToUpper;
    }
  }

  lemma RpopWord(r: Request)
    ensures Is(r, "RPOP") ==> VerbOf(ToUpper(r.command.value)) == RPOP
  {
    if r.command.Some? {
      SpellsIff(r.command.value, "RPOP");
      hide Spells, ToUpper;
    }
  }

  lemma ListWords(r: Request)
    ensures Is(r, "PUSH") ==> VerbOf(ToUpper(r.command.value)) == PUSH
    ensures Is(r, "LPOP") ==> VerbOf(ToUpper(r.command.value)) == LPOP
    ensures Is(r, "RPOP") ==> VerbOf(ToUpper(r.command.value)) == RPOP
  {
    hide Is, VerbOf, ToUpper;
    PushWord(r);
    LpopWord(r);
    RpopWord(r);
  }

  lemma SetWord(r: Request)
    ensures Is(r, "SET") ==> VerbOf(ToUpper(r.command.value)) == SET
  {
    if r.command.Some? {
      SpellsIff(r.command.value, "SET");
      hide Spells, ToUpper;
    }
  }

  lemma GetWord(r: Request)
    ensures Is(r, "GET") ==> VerbOf(ToUpper(r.command.value)) == GET
  {
    if r.command.Some? {
      SpellsIff(r.command.value, "GET");
      hide Spells, ToUpper;
    }
  }

  lemma IncrWord(r: Request)
    ensures Is(r, "INCR") ==> VerbOf(ToUpper(r.command.value)) == INCR
  {
    if r.command.Some? {
      SpellsIff(r.command.value, "INCR");
      hide Spells, ToUpper;
    }
  }

  lemma TextWords(r: Request)
    ensures Is(r, "SET") ==> VerbOf(ToUpper(r.command.value)) == SET
    ensures Is(r, "GET") ==> VerbOf(ToUpper(r.command.value)) == GET
    ensures Is(r, "INCR") ==> VerbOf(ToUpper(r.command.value)) == INCR
  {
    hide Is, VerbOf, ToUpper;
    SetWord(r);
    GetWord(r);
    IncrWord(r);
  }

  lemma OtherWords(r: Request)
    ensures Is(r, "PING") ==> VerbOf(ToUpper(r.command.value)) == PING
    ensures Is(r, "ECHO") ==> VerbOf(ToUpper(r.command.value)) == ECHO
    ensures Is(r, "FLUSHDB") ==> VerbOf(ToUpper(r.command.value)) == FLUSHDB
  {
    if r.command.Some? {
      SpellsIff(r.command.value, "PING");
      SpellsIff(r.command.value, "ECHO");
      SpellsIff(r.command.value, "FLUSHDB");
      hide Spells, ToUpper;
    }
  }

  predicate IsNone(r: Request) {
    && !Is(r, "PING") && !Is(r, "ECHO") && !Is(r, "SET") && !Is(r, "GET") && !Is(r, "INCR")
    && !Is(r, "PUSH") && !Is(r, "LPOP") && !Is(r, "RPOP") && !Is(r, "FLUSHDB")
  }

  lemma UnknownWords(r: Request)
    requires r.command.Some? && IsNone(r)
    ensures VerbOf(ToUpper(r.command.value)) == UNKNOWN
  {
    SpellsIff(r.command.value, "PING");
    SpellsIff(r.command.value, "ECHO");
    SpellsIff(r.command.value, "SET");
    SpellsIff(r.command.value, "GET");
    SpellsIff(r.command.value, "INCR");
    SpellsIff(r.command.value, "PUSH");
    SpellsIff(r.command.value, "LPOP");
    SpellsIff(r.command.value, "RPOP");
    SpellsIff(r.command.value, "FLUSHDB");
    hide Spells, ToUpper;
  }

  // ------------------------------------------------------------------ lists

  /** The answer to a pop that took this item; an empty one is reported as an error. */
  function ItemReply(item: Elem): Outcome {
    if item == Some([]) then Failure(NoValueReturned) else Success(Item(item))
  }

  predicate Pushes(r: Request, k: Bytes, v: Bytes) {
    Is(r, "PUSH") && r.key == Some(k) && r.value == Some(v)
  }

  predicate Pops(r: Request, k: Bytes, left: bool) {
    Is(r, if left then "LPOP" else "RPOP") && r.key == Some(k)
  }

  lemma PushHandled(s: Replica, r: Request, k: Bytes, v: Bytes, now: int)
    requires Pushes(r, k, v) && k != []
    ensures var step := Handle(s, r, now);
            step.outcome == Success(Done) &&
            step.replica.db == s.db.(lists := s.db.lists[k := ListAt(s.db, k) + [Some(v)]])
  {
    ListWords(r);
    hide VerbOf, ToUpper, Spells, Encode;
  }

  lemma PopHandled(s: Replica, r: Request, k: Bytes, left: bool, now: int)
    requires Pops(r, k, left) && k != []
    ensures var step := Handle(s, r, now);
            if k !in s.db.lists then step.outcome == Failure(ListMissing) && step.replica.db == s.db
            else if s.db.lists[k] == [] then step.outcome == Failure(ListEmpty) && step.replica.db == s.db
            else
              var l := s.db.lists[k];
              step.outcome == ItemReply(if left then l[0] else l[|l| - 1]) &&
              step.replica.db == s.db.(lists := s.db.lists[k := if left then l[1..] else l[..|l| - 1]])
  {
    ListWords(r);
    hide VerbOf, ToUpper, Spells, Encode;
  }

  /** The state after a series of requests. */
  function Serve(s: Replica, rs: seq<Request>, now: int): Replica {
    if rs == [] then s else Handle(Serve(s, rs[..|rs| - 1], now), rs[|rs| - 1], now).replica
  }

  /** The answer to request i of a series. */
  function Reply(s: Replica, rs: seq<Request>, i: nat, now: int): Outcome
    requires i < |rs|
  {
    Handle(Serve(s, rs[..i], now), rs[i], now).outcome
  }

  lemma ServeNext(s: Replica, rs: seq<Request>, i: nat, now: int)
    requires i < |rs|
    ensures Serve(s, rs[..i + 1], now) == Handle(Serve(s, rs[..i], now), rs[i], now).replica
  {
    assert rs[..i + 1][..i] == rs[..i];
    hide Handle;
  }

  function Items(items: seq<Bytes>): (es: seq<Elem>)
    ensures |es| == |items|
  {
    seq(|items|, i requires 0 <= i < |items| => Some(items[i]))
  }

  predicate AllPush(rs: seq<Request>, k: Bytes, items: seq<Bytes>) {
    |rs| == |items| && forall i :: 0 <= i < |rs| ==> Pushes(rs[i], k, items[i])
  }

  predicate AllPop(rs: seq<Request>, k: Bytes, left: bool) {
    forall i :: 0 <= i < |rs| ==> Pops(rs[i], k, left)
  }

  lemma {:induction false} PushesFill(s: Replica, rs: seq<Request>, k: Bytes, items: seq<Bytes>, i: nat, now: int)
    requires AllPush(rs, k, items) && k != [] && i <= |rs|
    ensures ListAt(Serve(s, rs[..i], now).db, k) == ListAt(s.db, k) + Items(items[..i])
    ensures i > 0 ==> k in Serve(s, rs[..i], now).db.lists
    ensures i < |rs| ==> Reply(s, rs, i, now) == Success(Done)
  {
    hide Handle, Pushes;
    if i == 0 {
      assert ListAt(s.db, k) + Items(items[..0]) == ListAt(s.db, k);
    } else {
      PushesFill(s, rs, k, items, i - 1, now);
      ServeNext(s, rs, i - 1, now);
      PushHandled(Serve(s, rs[..i - 1], now), rs[i - 1], k, items[i - 1], now);
      assert Items(items[..i]) == Items(items[..i - 1]) + [Some(items[i - 1])];
    }
    if i < |rs| {
      PushHandled(Serve(s, rs[..i], now), rs[i], k, items[i], now);
    }
  }

  /** What is left of a list after i pops from one side. */
  function Left(l: seq<Elem>, left: bool, i: nat): seq<Elem> {
    if i >= |l| then [] else if left then l[i..] else l[..|l| - i]
  }

  lemma {:induction false} PopsDrain(s: Replica, rs: seq<Request>, k: Bytes, left: bool, i: nat, now: int)
    requires AllPop(rs, k, left) && k != [] && k in s.db.lists && i <= |rs|
    ensures var db, l := Serve(s, rs[..i], now).db, s.db.lists[k];
            k in db.lists && db.lists[k] == Left(l, left, i)
    ensures var l := s.db.lists[k];
            i < |rs| ==>
              Reply(s, rs, i, now) == (if i >= |l| then Failure(ListEmpty)
                                       else ItemReply(if left then l[i] else l[|l| - 1 - i]))
  {
    hide Handle, Pops, ItemReply;
    if i > 0 {
      PopsDrain(s, rs, k, left, i - 1, now);
      ServeNext(s, rs, i - 1, now);
      PopHandled(Serve(s, rs[..i - 1], now), rs[i - 1], k, left, now);
    }
    if i < |rs| {
      PopHandled(Serve(s, rs[..i], now), rs[i], k, left, now);
    }
  }

  /** One list as a queue and as a stack: what PUSH requests put under a new key, LPOP requests answer
      in order and RPOP requests in reverse, and every further one answers that the list is empty. */
  lemma QueueOverRequests(s: Replica, k: Bytes, items: seq<Bytes>, pushes: seq<Request>, left: bool,
                          pops: seq<Request>, i: nat, now: int)
    requires k != [] && k !in s.db.lists && items != [] && AllPush(pushes, k, items) && AllPop(pops, k, left)
    requires i < |pops|
    ensures Reply(Serve(s, pushes, now), pops, i, now) ==
      if i >= |items| then Failure(ListEmpty)
      else ItemReply(Some(if left then items[i] else items[|items| - 1 - i]))
    ensures Reply(s, pops, 0, now) == Failure(ListMissing)
  {
    hide Handle, Pushes, Pops, ItemReply, Serve;
    PushesFillNew(s, pushes, k, items, now);
    PopHandled(s, pops[0], k, left, now);
    PopsDrain(Serve(s, pushes, now), pops, k, left, i, now);
    ServeNothing(s, pops, now);
  }

  lemma PushesFillNew(s: Replica, rs: seq<Request>, k: Bytes, items: seq<Bytes>, now: int)
    requires AllPush(rs, k, items) && k != [] && k !in s.db.lists && items != []
    ensures k in Serve(s, rs, now).db.lists && Serve(s, rs, now).db.lists[k] == Items(items)
  {
    hide Handle, Pushes, Serve;
    assert rs[..|rs|] == rs && items[..|items|] == items && [] + Items(items) == Items(items);
    PushesFill(s, rs, k, items, |rs|, now);
  }

  lemma ServeNothing(s: Replica, rs: seq<Request>, now: int)
    ensures Serve(s, rs[..0], now) == s
  {
  }

  // ------------------------------------------------------------------ the other words

  /** PING and ECHO answer and change nothing, FLUSHDB empties database and log, and a word that is
      none of the nine is an error. */
  lemma OtherWordsAnswer(s: Replica, r: Request, now: int)
    requires r.command.Some?
    ensures Is(r, "PING") ==> Handle(s, r, now) == Step(s, Success(Done))
    ensures Is(r, "ECHO") && r.message.Some? ==> Handle(s, r, now) == Step(s, Success(Str(r.message.value)))
    ensures Is(r, "FLUSHDB") ==> Handle(s, r, now) == Step(Replica(EMPTY, []), Success(Done))
    ensures IsNone(r) ==> Handle(s, r, now) == Step(s, Failure(UnknownCommand))
  {
    OtherWords(r);
    if IsNone(r) {
      UnknownWords(r);
    }
    hide VerbOf, ToUpper, Spells, Encode, Apply;
  }

  predicate Writes(r: Request) {
    Is(r, "SET") || Is(r, "INCR") || Is(r, "PUSH") || Is(r, "LPOP") || Is(r, "RPOP")
  }

  lemma WritesIff(r: Request)
    requires r.command.Some?
    ensures Writes(r) <==> IsWrite(VerbOf(ToUpper(r.command.value)))
  {
    ListWords(r);
    TextWords(r);
    OtherWords(r);
    if IsNone(r) {
      UnknownWords(r);
    }
    hide VerbOf, ToUpper, Spells;
  }

  /** The five write words, and no others, append their request's record to the log. */
  lemma WriteWordsLog(s: Replica, r: Request, now: int)
    requires r.command.Some? && r.key.Some? && !Is(r, "FLUSHDB")
    ensures Handle(s, r, now).replica.log
         == if Writes(r) then s.log + Encode(Entry(r.command.value, r.key.value, r.value, r.offset)) else s.log
  {
    WritesIff(r);
    WordsKnown(r);
    hide VerbOf, ToUpper, Spells, Encode, Apply, Writes, Is;
  }

  // ------------------------------------------------------------------ texts over runs of requests

  /** A request served at some time, or a pass of the cleanup. */
  datatype Deed = Ask(request: Request, now: Long) | CleanUp(now: Long)

  function Perform(s: Replica, d: Deed): Replica {
    match d
    case Ask(r, now) => Handle(s, r, now).replica
    case CleanUp(now) => s.(db := Sweep(s.db, now))
  }

  function RunDeeds(ds: seq<Deed>): Replica {
    if ds == [] then Replica(EMPTY, []) else Perform(RunDeeds(ds[..|ds| - 1]), ds[|ds| - 1])
  }

  /** The TTL that a request's expiry field asks for; None where the server refuses it. */
  function TtlIn(exp: Option<Exp>): Option<Long> {
    match exp
    case None => Some(0)
    case Some(Int64(ms)) => Some(ms)
    case Some(Narrow(ms)) => Some(ms)
    case _ => None
  }

  /** What a deed does to strings and deadlines, by the words of its request. */
  function OpOf(d: Deed): Op {
    match d
    case CleanUp(now) => SweepAt(now)
    case Ask(r, now) =>
      if Is(r, "SET") && r.key.Some? && r.value.Some? && TtlIn(r.exp).Some?
      then Put(r.key.value, r.value.value, TtlIn(r.exp).value, now)
      else if Is(r, "INCR") && r.key.Some? && r.offset.Some? && Atoi(r.offset.value).Some?
      then Add(r.key.value, Atoi(r.offset.value).value)
      else if Is(r, "FLUSHDB") then Wipe
      else Idle
  }

  function Ops(ds: seq<Deed>): (ops: seq<Op>)
    ensures |ops| == |ds|
  {
    seq(|ds|, i requires 0 <= i < |ds| => OpOf(ds[i]))
  }

  /** The same strings and deadlines. */
  predicate SameTexts(a: Db, b: Db) {
    a.store == b.store && a.expiry == b.expiry
  }

  lemma SetHandled(s: Replica, r: Request, now: Long)
    requires Is(r, "SET")
    ensures var db := Handle(s, r, now).replica.db;
            if r.key.Some? && r.value.Some? && TtlIn(r.exp).Some?
            then db == Set(s.db, r.key.value, r.value.value, TtlIn(r.exp).value, now).db
            else db == s.db
  {
    TextWords(r);
    hide VerbOf, ToUpper, Encode, Spells, Set;
  }

  lemma IncrHandled(s: Replica, r: Request, now: Long)
    requires Is(r, "INCR")
    ensures var db := Handle(s, r, now).replica.db;
            if r.key.Some? && r.offset.Some? && Atoi(r.offset.value).Some?
            then db == Incr(s.db, r.key.value, Atoi(r.offset.value).value).db
            else db == s.db
  {
    TextWords(r);
    hide VerbOf, ToUpper, Encode, Spells, Incr, Atoi;
  }

  lemma SameTextsStep(a: Db, b: Db, k: Bytes, v: Bytes, ttl: Long, n: int, now: Long)
    requires SameTexts(a, b)
    ensures SameTexts(Set(a, k, v, ttl, now).db, Set(b, k, v, ttl, now).db)
    ensures SameTexts(Incr(a, k, n).db, Incr(b, k, n).db)
    ensures SameTexts(Sweep(a, now), Sweep(b, now))
  {
    hide Atoi, Itoa, Wrap64, Deadline;
  }

  lemma NotBoth(r: Request)
    ensures Is(r, "INCR") ==> !Is(r, "SET") && !Is(r, "FLUSHDB")
    ensures Is(r, "SET") ==> !Is(r, "FLUSHDB")
  {
  }

  lemma ListApply(db: Db, r: Request, now: int)
    requires Loggable(r) && !VerbOf(ToUpper(r.command.value)).SET? && !VerbOf(ToUpper(r.command.value)).INCR?
    ensures SameTexts(Apply(db, r, now).db, db)
  {
    hide VerbOf, ToUpper;
  }

  /** Every request but SET and INCR leaves strings and deadlines alone, save FLUSHDB. */
  lemma OtherHandled(s: Replica, r: Request, now: Long)
    requires !Is(r, "SET") && !Is(r, "INCR")
    ensures if Is(r, "FLUSHDB") then Handle(s, r, now).replica.db == EMPTY
            else SameTexts(Handle(s, r, now).replica.db, s.db)
  {
    if r.command.Some? {
      WordsKnown(r);
      if r.key.Some? {
        ListApply(s.db, r, now);
      }
      hide VerbOf, ToUpper, Spells, Encode, Apply;
    }
  }

  lemma WordsKnown(r: Request)
    requires r.command.Some?
    ensures var v := VerbOf(ToUpper(r.command.value));
            (v == SET <==> Is(r, "SET")) && (v == INCR <==> Is(r, "INCR")) && (v == FLUSHDB <==> Is(r, "FLUSHDB"))
  {
    TextWords(r);
    OtherWords(r);
    SpellsIff(r.command.value, "SET");
    SpellsIff(r.command.value, "INCR");
    SpellsIff(r.command.value, "FLUSHDB");
    hide Spells, ToUpper;
  }

  lemma PerformIsOp(s: Replica, d: Deed, db: Db)
    requires SameTexts(s.db, db)
    ensures SameTexts(Perform(s, d).db, Expiry.After(db, OpOf(d)))
  {
    hide Handle, Set, Incr, Sweep, Spells, Atoi;
    match d {
      case CleanUp(now) => SameTextsStep(s.db, db, [], [], 0, 0, now);
      case Ask(r, now) =>
        NotBoth(r);
        if Is(r, "SET") {
          SetHandled(s, r, now);
          if OpOf(d).Put? {
            SameTextsStep(s.db, db, r.key.value, r.value.value, TtlIn(r.exp).value, 0, now);
          }
        } else if Is(r, "INCR") {
          IncrHandled(s, r, now);
          if OpOf(d).Add? {
            SameTextsStep(s.db, db, r.key.value, [], 0, Atoi(r.offset.value).value, now);
          }
        } else {
          OtherHandled(s, r, now);
        }
    }
  }

  /** Over every run of deeds, strings and deadlines are what the operations make of them. */
  lemma {:induction false} DeedsAreOps(ds: seq<Deed>)
    ensures SameTexts(RunDeeds(ds).db, Expiry.Run(Ops(ds)))
  {
    if ds != [] {
      var n := |ds| - 1;
      DeedsAreOps(ds[..n]);
      assert Ops(ds)[..n] == Ops(ds[..n]);
      hide Perform, OpOf, Expiry.After;
      PerformIsOp(RunDeeds(ds[..n]), ds[n], Expiry.Run(Ops(ds[..n])));
    }
  }

  // ------------------------------------------------------------------ lists over runs of requests

  predicate Names(r: Request, name: Bytes, k: Bytes) {
    Is(r, name) && r.key == Some(k)
  }

  /** What a deed does to the list under k, by the words of its request. */
  function ListAfter(l: seq<Elem>, d: Deed, k: Bytes): seq<Elem> {
    if d.CleanUp? then l
    else if Names(d.request, "PUSH", k) && d.request.value.Some? then l + [Some(d.request.value.value)]
    else if Names(d.request, "LPOP", k) && l != [] then l[1..]
    else if Names(d.request, "RPOP", k) && l != [] then l[..|l| - 1]
    else if Is(d.request, "FLUSHDB") then []
    else l
  }

  function ListOver(ds: seq<Deed>, k: Bytes): seq<Elem> {
    if ds == [] then [] else ListAfter(ListOver(ds[..|ds| - 1], k), ds[|ds| - 1], k)
  }

  lemma ListWordsApart(r: Request)
    ensures Is(r, "PUSH") ==> !Is(r, "LPOP") && !Is(r, "RPOP") && !Is(r, "FLUSHDB")
    ensures Is(r, "LPOP") ==> !Is(r, "RPOP") && !Is(r, "FLUSHDB")
    ensures Is(r, "RPOP") ==> !Is(r, "FLUSHDB")
  {
    ListWords(r);
    OtherWords(r);
    hide Spells, VerbOf, ToUpper;
  }

  /** Every request but the three list words on k leaves its list alone, save FLUSHDB. */
  lemma TextsKeepLists(db: Db, r: Request, now: int)
    requires Loggable(r) && (VerbOf(ToUpper(r.command.value)).SET? || VerbOf(ToUpper(r.command.value)).INCR?)
    ensures Apply(db, r, now).db.lists == db.lists
  {
    hide VerbOf, ToUpper, Deadline, Atoi, Itoa, Wrap64;
  }

  lemma ListsElsewhere(db: Db, r: Request, k: Bytes, now: int)
    requires Loggable(r) && r.key.value != k
    requires !VerbOf(ToUpper(r.command.value)).SET? && !VerbOf(ToUpper(r.command.value)).INCR?
    ensures ListAt(Apply(db, r, now).db, k) == ListAt(db, k)
  {
    hide VerbOf, ToUpper;
  }

  lemma ElsewhereKeepsList(s: Replica, r: Request, k: Bytes, now: int)
    requires !Names(r, "PUSH", k) && !Names(r, "LPOP", k) && !Names(r, "RPOP", k) && !Is(r, "FLUSHDB")
    ensures ListAt(Handle(s, r, now).replica.db, k) == ListAt(s.db, k)
  {
    if r.command.Some? {
      ListWordsKnown(r);
      WordsKnown(r);
      hide Is, VerbOf, ToUpper, Encode, Apply;
      if r.key.Some? {
        var v := VerbOf(ToUpper(r.command.value));
        if v.SET? || v.INCR? {
          TextsKeepLists(s.db, r, now);
        } else if r.key.value != k {
          ListsElsewhere(s.db, r, k, now);
        }
      }
    }
  }

  lemma ListWordsKnown(r: Request)
    requires r.command.Some?
    ensures var v := VerbOf(ToUpper(r.command.value));
            (v == PUSH <==> Is(r, "PUSH")) && (v == LPOP <==> Is(r, "LPOP")) && (v == RPOP <==> Is(r, "RPOP"))
  {
    ListWords(r);
    SpellsIff(r.command.value, "PUSH");
    SpellsIff(r.command.value, "LPOP");
    SpellsIff(r.command.value, "RPOP");
    hide Spells, ToUpper;
  }

  lemma PushWithoutValue(s: Replica, r: Request, now: int)
    requires Is(r, "PUSH") && r.key.Some? && r.value.None?
    ensures Handle(s, r, now).replica.db == s.db
  {
    ListWords(r);
    hide VerbOf, ToUpper, Spells, Encode;
  }

  lemma ListPerformed(s: Replica, d: Deed, k: Bytes)
    requires k != []
    ensures ListAt(Perform(s, d).db, k) == ListAfter(ListAt(s.db, k), d, k)
  {
    hide Handle, Spells;
    match d {
      case CleanUp(_) =>
      case Ask(r, now) =>
        ListWordsApart(r);
        if Names(r, "PUSH", k) {
          if r.value.Some? {
            PushHandled(s, r, k, r.value.value, now);
          } else {
            PushWithoutValue(s, r, now);
          }
        } else if Names(r, "LPOP", k) {
          PopHandled(s, r, k, true, now);
        } else if Names(r, "RPOP", k) {
          PopHandled(s, r, k, false, now);
        } else if Is(r, "FLUSHDB") {
          OtherWordsAnswer(s, r, now);
        } else {
          ElsewhereKeepsList(s, r, k, now);
        }
    }
  }

  /** The list under k after any run of requests and cleanups is what the list words naming k have made
      of it since the latest FLUSHDB, and a pop answers its end. */
  lemma {:induction false} ListLaw(ds: seq<Deed>, k: Bytes)
    requires k != []
    ensures ListAt(RunDeeds(ds).db, k) == ListOver(ds, k)
  {
    if ds != [] {
      hide Perform, ListAfter, ListAt;
      ListLaw(ds[..|ds| - 1], k);
      ListPerformed(RunDeeds(ds[..|ds| - 1]), ds[|ds| - 1], k);
    } else {
      hide Perform;
    }
  }

  lemma PopAnswers(ds: seq<Deed>, r: Request, k: Bytes, left: bool, now: int)
    requires Pops(r, k, left) && k != [] && ListOver(ds, k) != []
    ensures var l := ListOver(ds, k);
            Handle(RunDeeds(ds), r, now).outcome == ItemReply(if left then l[0] else l[|l| - 1])
  {
    hide Handle, RunDeeds, ListOver, Pops, ItemReply;
    ListLaw(ds, k);
    PopHandled(RunDeeds(ds), r, k, left, now);
  }

  // ------------------------------------------------------------------ reads over runs of requests

  /** GET answers the text under its key, and changes nothing. */
  lemma GetHandled(s: Replica, r: Request, k: Bytes, now: int)
    requires Is(r, "GET") && r.key == Some(k) && k != []
    ensures Handle(s, r, now).replica == s
    ensures k !in s.db.store ==> Handle(s, r, now).outcome == Failure(KeyNotFound)
    ensures k in s.db.store && s.db.store[k] != [] ==> Handle(s, r, now).outcome == Success(Str(s.db.store[k]))
  {
    TextWords(r);
    hide VerbOf, ToUpper, Spells;
  }

  predicate Gets(r: Request, k: Bytes) {
    Is(r, "GET") && r.key == Some(k)
  }

  lemma TotalIsText(v: Bytes, added: bool, sum: int)
    requires v != []
    ensures Total(v, added, sum) != []
  {
    hide Atoi, Wrap64;
  }

  /** Read your writes: after a run of requests whose latest successful SET of k carried v, with no
      FLUSHDB since and no cleanup after k's deadline, GET k answers v; and after INCRs since, if v is
      an integer text, the decimal text of v plus their offsets. */
  lemma ReadYourWrites(ds: seq<Deed>, k: Bytes, i: int, g: Request, now: int)
    requires Gets(g, k) && LatestStore(Ops(ds), k, i) && NotSwept(Ops(ds), k, i)
    ensures var ops := Ops(ds);
            Handle(RunDeeds(ds), g, now) == Step(RunDeeds(ds), Success(Str(
              Total(ops[i].value, AddedSince(ops, k, i, |ops|), SumSince(ops, k, i, |ops|)))))
    ensures !AddedSince(Ops(ds), k, i, |ds|) ==>
            Handle(RunDeeds(ds), g, now).outcome == Success(Str(Ops(ds)[i].value))
  {
    hide *;
    var ops := Ops(ds);
    StoreIsPut(ops, k, i);
    DeedsAreOps(ds);
    TextLaw(ops, k, i);
    var added, sum := AddedSince(ops, k, i, |ops|), SumSince(ops, k, i, |ops|);
    TotalIsText(ops[i].value, added, sum);
    SameText(RunDeeds(ds).db, Expiry.Run(ops), k);
    GetsWord(g, k);
    GetHandled(RunDeeds(ds), g, k, now);
    StepIs(Handle(RunDeeds(ds), g, now));
    NotAdded(ops[i].value, sum);
  }

  lemma GetsWord(g: Request, k: Bytes)
    requires Gets(g, k)
    ensures Is(g, "GET") && g.key == Some(k)
  {
  }

  lemma StepIs(step: Step)
    ensures step == Step(step.replica, step.outcome)
  {
  }

  lemma NotAdded(v: Bytes, sum: int)
    ensures Total(v, false, sum) == v
  {
  }

  /** A key that no successful SET has stored since the start or the latest FLUSHDB is not found. */
  lemma NeverWritten(ds: seq<Deed>, k: Bytes, from: nat, g: Request, now: int)
    requires Gets(g, k) && k != [] && from <= |ds| && (from == 0 || Ops(ds)[from - 1].Wipe?)
    requires forall j :: from <= j < |ds| ==> !Stores(Ops(ds)[j], k)
    ensures Handle(RunDeeds(ds), g, now) == Step(RunDeeds(ds), Failure(KeyNotFound))
  {
    DeedsAreOps(ds);
    NeverStoredIsAbsent(Ops(ds), k, from);
    GetHandled(RunDeeds(ds), g, k, now);
    hide Handle, RunDeeds, Ops, Stores, Gets;
  }

  /** A TTL as clients see it: k, whose latest SET with a TTL came at time `at`, is not found from the
      first cleanup at a time after at + ttl on, unless it is SET again. */
  lemma ExpiredIsNotFound(ds: seq<Deed>, k: Bytes, i: int, s: int, g: Request, now: int)
    requires Gets(g, k) && LatestTtl(Ops(ds), k, i)
    requires i < s < |ds| && Ops(ds)[s].SweepAt? && Ops(ds)[s].at > Due(Ops(ds)[i]) && NoLateSweep(Ops(ds)[..s], i)
    requires forall p :: s < p < |ds| ==> !Stores(Ops(ds)[p], k)
    ensures Handle(RunDeeds(ds), g, now) == Step(RunDeeds(ds), Failure(KeyNotFound))
  {
    DeedsAreOps(ds);
    TtlKeepsUntil(Ops(ds), k, i, s);
    SetsNonEmpty(Ops(ds)[i], k);
    GetHandled(RunDeeds(ds), g, k, now);
    hide Handle, RunDeeds, Ops, Stores, Gets, Due, NoLateSweep;
  }

  lemma SetsNonEmpty(op: Op, k: Bytes)
    requires SetsDeadline(op, k)
    ensures k != []
  {
  }

  /** INCR answers the sum it stores. */
  lemma IncrAnswers(s: Replica, r: Request, k: Bytes, t: int, n: int, now: int)
    requires Is(r, "INCR") && r.key == Some(k) && k != [] && r.offset.Some? && Atoi(r.offset.value) == Some(n)
    requires k in s.db.store && Atoi(s.db.store[k]) == Some(t)
    ensures var sum := Wrap64(t + n);
            Handle(s, r, now).outcome == Success(Number(sum)) &&
            Handle(s, r, now).replica.db == s.db.(store := s.db.store[k := Itoa(sum)])
  {
    TextWords(r);
    hide VerbOf, ToUpper, Spells, Encode, Atoi, Itoa, Wrap64;
  }

  lemma TotalIsNumber(v: Bytes, added: bool, sum: int, n: int)
    requires Atoi(v).Some? && (!added ==> sum == 0)
    ensures var t := Atoi(Total(v, added, sum)); t.Some? && Wrap64(t.value + n) == Wrap64(Atoi(v).value + sum + n)
  {
    hide Atoi, Itoa, Wrap64;
    if added {
      AtoiItoa(Wrap64(Atoi(v).value + sum));
      WrapAdd(Atoi(v).value + sum, n);
    }
  }

  /** Counters over runs of requests: INCR answers the integer last SET plus all offsets since, in
      64-bit two's complement. */
  lemma IncrCounts(ds: seq<Deed>, k: Bytes, i: int, r: Request, n: int, now: int)
    requires LatestStore(Ops(ds), k, i) && NotSwept(Ops(ds), k, i) && Atoi(Ops(ds)[i].value).Some?
    requires Is(r, "INCR") && r.key == Some(k) && r.offset.Some? && Atoi(r.offset.value) == Some(n)
    ensures Handle(RunDeeds(ds), r, now).outcome
         == Success(Number(Wrap64(Atoi(Ops(ds)[i].value).value + SumSince(Ops(ds), k, i, |ds|) + n)))
  {
    hide *;
    StoreIsPut(Ops(ds), k, i);
    var v, added, sum := Ops(ds)[i].value, AddedSince(Ops(ds), k, i, |ds|), SumSince(Ops(ds), k, i, |ds|);
    DeedsAreOps(ds);
    TextLaw(Ops(ds), k, i);
    NothingAdded(Ops(ds), k, i, |ds|);
    TotalIsNumber(v, added, sum, n);
    SameText(RunDeeds(ds).db, Expiry.Run(Ops(ds)), k);
    IncrAnswers(RunDeeds(ds), r, k, Atoi(Total(v, added, sum)).value, n, now);
  }

  lemma StoreIsPut(ops: seq<Op>, k: Bytes, i: int)
    requires LatestStore(ops, k, i)
    ensures 0 <= i < |ops| && ops[i].Put? && ops[i].value != [] && k != []
  {
  }

  lemma SameText(a: Db, b: Db, k: Bytes)
    requires SameTexts(a, b) && k in b.store
    ensures k in a.store && a.store[k] == b.store[k]
  {
  }

  /** A SET succeeds exactly when it stores a text. */
  lemma SetSucceedsIff(s: Replica, r: Request, now: Long)
    requires Is(r, "SET") && r.key.Some?
    ensures Handle(s, r, now).outcome == Success(Done) <==> Stores(OpOf(Ask(r, now)), r.key.value)
  {
    TextWords(r);
    NotBoth(r);
    hide VerbOf, ToUpper, Spells, Encode;
  }

  // ------------------------------------------------------------------ refusals

  /** What SET refuses, and how. A missing key, or an expiry of a type that is neither an integer nor a
      string, ends the process. */
  lemma SetRefusals(s: Replica, r: Request, now: int)
    requires Is(r, "SET")
    ensures var out := Handle(s, r, now).outcome;
            (r.key.None? ==> out == Panic) &&
            (r.key.Some? && r.exp.Some? && r.exp.value.Other? ==> out == Panic) &&
            (r.key.Some? && r.exp.Some? && r.exp.value.Textual? ==> out == Failure(BadTtl)) &&
            (r.key.Some? && TtlIn(r.exp).Some? && r.value.None? ==> out == Failure(MissingField)) &&
            (r.key == Some([]) && TtlIn(r.exp).Some? && r.value.Some? ==> out == Failure(EmptyKey)) &&
            (r.key.Some? && r.key.value != [] && TtlIn(r.exp).Some? && r.value == Some([]) ==>
               out == Failure(EmptyValue))
  {
    TextWords(r);
    hide VerbOf, ToUpper, Spells, Encode;
  }

  lemma IncrRefusals(s: Replica, r: Request, now: int)
    requires Is(r, "INCR")
    ensures var out := Handle(s, r, now).outcome;
            (r.key.None? ==> out == Panic) &&
            (r.key.Some? && r.offset.None? ==> out == Failure(MissingField)) &&
            (r.key.Some? && r.offset.Some? ==>
               var k := r.key.value;
               (Atoi(r.offset.value).None? ==> out == Failure(BadOffset)) &&
               (Atoi(r.offset.value).Some? ==>
                  (k == [] ==> out == Failure(EmptyKey)) &&
                  (k != [] && k !in s.db.store ==> out == Failure(KeyNotFound)) &&
                  (k != [] && k in s.db.store && Atoi(s.db.store[k]).None? ==> out == Failure(NotAnInteger))))
  {
    TextWords(r);
    hide VerbOf, ToUpper, Spells, Encode, Atoi, Itoa, Wrap64;
  }

  lemma OtherRefusals(s: Replica, r: Request, now: int)
    ensures var out := Handle(s, r, now).outcome;
            (r.command.None? ==> out == Failure(MissingCommand)) &&
            (Is(r, "GET") && r.key.None? ==> out == Failure(MissingField)) &&
            (Is(r, "GET") && r.key == Some([]) ==> out == Failure(EmptyKey)) &&
            (Is(r, "ECHO") && r.message.None? ==> out == Failure(MissingField)) &&
            ((Is(r, "PUSH") || Is(r, "LPOP") || Is(r, "RPOP")) && r.key.None? ==> out == Panic) &&
            ((Is(r, "LPOP") || Is(r, "RPOP")) && r.key == Some([]) ==> out == Failure(EmptyKey)) &&
            (Is(r, "PUSH") && r.key.Some? && r.value.None? ==> out == Failure(MissingField)) &&
            (Is(r, "PUSH") && r.key == Some([]) && r.value.Some? ==> out == Failure(EmptyKey))
  {
    TextWords(r);
    ListWords(r);
    OtherWords(r);
    hide VerbOf, ToUpper, Spells, Encode;
  }
}
