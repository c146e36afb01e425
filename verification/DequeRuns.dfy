/** The ring deque and the linked list side by side: runs of the same operations on both. */
module DequeRuns {
  import LinkedList
  import Deque

  datatype Op<T> = PushFront(value: T) | PushBack(value: T) | PopFront | PopBack

  /** A full deque refuses a push, an empty sequence a pop. */
  datatype Answer<T> = Pushed | Popped(value: T) | Full | Empty

  datatype After<T> = After(contents: seq<T>, answer: Answer<T>)

  /** The list operation on its sequence view. */
  function ListOp<T>(s: seq<T>, op: Op<T>): After<T> {
    match op
    case PushFront(v) => After([v] + s, Pushed)
    case PushBack(v) => After(s + [v], Pushed)
    case PopFront => if s == [] then After(s, Empty) else After(s[1..], Popped(s[0]))
    case PopBack => if s == [] then After(s, Empty) else After(s[..|s| - 1], Popped(s[|s| - 1]))
  }

  /** The deque operation on its sequence view. */
  function DequeOp<T>(capacity: nat, s: seq<T>, op: Op<T>): After<T> {
    if (op.PushFront? || op.PushBack?) && |s| >= capacity then After(s, Full) else ListOp(s, op)
  }

  function ListRun<T>(s: seq<T>, ops: seq<Op<T>>): seq<Answer<T>>
    decreases |ops|
  {
    if ops == [] then [] else [ListOp(s, ops[0]).answer] + ListRun(ListOp(s, ops[0]).contents, ops[1..])
  }

  function DequeRun<T>(capacity: nat, s: seq<T>, ops: seq<Op<T>>): seq<Answer<T>>
    decreases |ops|
  {
    if ops == [] then []
    else
      var after := DequeOp(capacity, s, ops[0]);
      [after.answer] + DequeRun(capacity, after.contents, ops[1..])
  }

  /** The list never grows beyond the capacity during the run. */
  predicate Within<T>(capacity: nat, s: seq<T>, ops: seq<Op<T>>)
    decreases |ops|
  {
    |s| <= capacity && (ops != [] ==> Within(capacity, ListOp(s, ops[0]).contents, ops[1..]))
  }

  /** The two answer alike over a whole run exactly when the list stays within the capacity. */
  lemma {:induction false} SameAnswersIff<T>(capacity: nat, s: seq<T>, ops: seq<Op<T>>)
    requires |s| <= capacity
    ensures DequeRun(capacity, s, ops) == ListRun(s, ops) <==> Within(capacity, s, ops)
    decreases |ops|
  {
    if ops != [] {
      var d, l := DequeOp(capacity, s, ops[0]), ListOp(s, ops[0]);
      assert DequeRun(capacity, s, ops)[0] == d.answer && ListRun(s, ops)[0] == l.answer;
      assert DequeRun(capacity, s, ops)[1..] == DequeRun(capacity, d.contents, ops[1..]);
      assert ListRun(s, ops)[1..] == ListRun(l.contents, ops[1..]);
      if d == l {
        SameAnswersIff(capacity, l.contents, ops[1..]);
      }
    }
  }

  lemma SameAnswerSameContents<T>(capacity: nat, s: seq<T>, op: Op<T>)
    ensures DequeOp(capacity, s, op).answer == ListOp(s, op).answer ==> DequeOp(capacity, s, op) == ListOp(s, op)
  {
  }

  lemma RunStep<T>(capacity: nat, s: seq<T>, t: seq<T>, ops: seq<Op<T>>, i: nat)
    requires i < |ops|
    ensures var d := DequeOp(capacity, s, ops[i]);
            DequeRun(capacity, s, ops[i..]) == [d.answer] + DequeRun(capacity, d.contents, ops[i + 1..])
    ensures var l := ListOp(t, ops[i]);
            ListRun(t, ops[i..]) == [l.answer] + ListRun(l.contents, ops[i + 1..])
  {
    assert ops[i..][0] == ops[i] && ops[i..][1..] == ops[i + 1..];
    hide ListOp, DequeOp;
  }

  lemma NoMoreOps<T>(capacity: nat, s: seq<T>)
    ensures DequeRun(capacity, s, []) == [] && ListRun(s, []) == []
  {
  }

  lemma MoveOne<A>(s: seq<A>, a: A, t: seq<A>)
    ensures s + ([a] + t) == s + [a] + t
  {
  }

  lemma SameAppended<A>(s: seq<A>, a: A, t: seq<A>, b: A)
    requires |s| == |t|
    ensures s + [a] == t + [b] <==> s == t && a == b
  {
    assert (s + [a])[..|s|] == s && (t + [b])[..|t|] == t;
    assert (s + [a])[|s|] == a && (t + [b])[|t|] == b;
  }

  method OnList<T>(l: LinkedList.List<T>, op: Op<T>) returns (answer: Answer<T>)
    requires l.Valid()
    modifies l.Repr
    ensures l.Valid() && fresh(l.Repr - old(l.Repr))
    ensures After(l.contents, answer) == ListOp(old(l.contents), op)
  {
    match op {
      case PushFront(v) =>
        l.LPush(v);
        answer := Pushed;
      case PushBack(v) =>
        l.RPush(v);
        answer := Pushed;
      case PopFront =>
        var r := l.LPop();
        answer := if r.None? then Empty else Popped(r.value);
      case PopBack =>
        var r := l.RPop();
        answer := if r.None? then Empty else Popped(r.value);
    }
  }

  method OnDeque<T(0)>(d: Deque.Deque<T>, op: Op<T>) returns (answer: Answer<T>)
    requires d.Valid()
    modifies d, d.data
    ensures d.Valid() && d.data == old(d.data)
    ensures After(d.contents, answer) == DequeOp(d.capacity, old(d.contents), op)
  {
    match op {
      case PushFront(v) =>
        var ok := d.PushFront(v);
        answer := if ok then Pushed else Full;
      case PushBack(v) =>
        var ok := d.PushBack(v);
        answer := if ok then Pushed else Full;
      case PopFront =>
        var r := d.PopFront();
        answer := if r.None? then Empty else Popped(r.value);
      case PopBack =>
        var r := d.PopBack();
        answer := if r.None? then Empty else Popped(r.value);
    }
  }

  ghost predicate Apart<T(0)>(d: Deque.Deque<T>, l: LinkedList.List<T>)
    reads d, d.data, l, l.Repr
  {
    d.Valid() && l.Valid() && d !in l.Repr && d.data !in l.Repr
  }

  method OnBoth<T(0)>(d: Deque.Deque<T>, l: LinkedList.List<T>, op: Op<T>) returns (a: Answer<T>, b: Answer<T>)
    requires Apart(d, l)
    modifies d, d.data, l.Repr
    ensures Apart(d, l) && d.data == old(d.data) && fresh(l.Repr - old(l.Repr))
    ensures After(d.contents, a) == DequeOp(d.capacity, old(d.contents), op)
    ensures After(l.contents, b) == ListOp(old(l.contents), op)
  {
    hide LinkedList.List.Valid, Deque.Deque.Valid, ListOp, DequeOp;
    a := OnDeque(d, op);
    b := OnList(l, op);
  }

  /** Run the same operations on a deque and on a list that start with the same elements: the
      answers are the same exactly when the run stays within the deque's capacity. */
  method RunBoth<T(0)>(d: Deque.Deque<T>, l: LinkedList.List<T>, ops: seq<Op<T>>)
    returns (fromDeque: seq<Answer<T>>, fromList: seq<Answer<T>>)
    requires Apart(d, l) && d.contents == l.contents
    modifies d, d.data, l.Repr
    ensures Apart(d, l)
    ensures fromDeque == fromList <==> Within(d.capacity, old(l.contents), ops)
    ensures fromDeque == fromList ==> d.contents == l.contents
  {
    assert |d.contents| <= d.capacity;
    hide Apart, Within, ListOp, DequeOp, ListRun, DequeRun;
    fromDeque, fromList := [], [];
    ghost var deque, list := DequeRun(d.capacity, d.contents, ops), ListRun(l.contents, ops);
    SameAnswersIff(d.capacity, d.contents, ops);
    assert ops[0..] == ops;
    for i := 0 to |ops|
      invariant Apart(d, l) && d.data == old(d.data) && fresh(l.Repr - old(l.Repr))
      invariant deque == fromDeque + DequeRun(d.capacity, d.contents, ops[i..])
      invariant list == fromList + ListRun(l.contents, ops[i..])
      invariant |fromDeque| == |fromList| == i
      invariant fromDeque == fromList ==> d.contents == l.contents
    {
      RunStep(d.capacity, d.contents, l.contents, ops, i);
      SameAnswerSameContents(d.capacity, d.contents, ops[i]);
      var a, b := OnBoth(d, l, ops[i]);
      SameAppended(fromDeque, a, fromList, b);
      MoveOne(fromDeque, a, DequeRun(d.capacity, d.contents, ops[i + 1..]));
      MoveOne(fromList, b, ListRun(l.contents, ops[i + 1..]));
      fromDeque, fromList := fromDeque + [a], fromList + [b];
    }
    assert ops[|ops|..] == [];
    NoMoreOps(d.capacity, d.contents);
    NoMoreOps(d.capacity, l.contents);
    assert fromDeque + [] == fromDeque && fromList + [] == fromList;
  }
}
