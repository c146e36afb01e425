/** One list as a queue and as a stack: PUSH adds on the right, LPOP takes from the left, RPOP from
    the right. */
module Queues {
  import opened Bytes
  import opened Store

  function PushAll(db: Db, key: Bytes, items: seq<Elem>): Db {
    if items == [] then db else Push(PushAll(db, key, items[..|items| - 1]), key, items[|items| - 1]).db
  }

  /** The answers of n pops from one side, errors included. */
  function PopAll(db: Db, key: Bytes, left: bool, n: nat): seq<Result<Elem>>
    decreases n
  {
    if n == 0 then []
    else
      var popped := if left then Lpop(db, key) else Rpop(db, key);
      [popped.result] + PopAll(popped.db, key, left, n - 1)
  }

  lemma {:induction false} PushAllContents(db: Db, key: Bytes, items: seq<Elem>)
    requires key != []
    ensures ListAt(PushAll(db, key, items), key) == ListAt(db, key) + items
    ensures items != [] ==> key in PushAll(db, key, items).lists
  {
    if items == [] {
      assert ListAt(db, key) + items == ListAt(db, key);
    } else {
      PushAllContents(db, key, items[..|items| - 1]);
      assert items[..|items| - 1] + [items[|items| - 1]] == items;
    }
  }

  lemma {:induction false} PopAllAnswers(db: Db, key: Bytes, left: bool, n: nat, i: nat)
    requires key != [] && key in db.lists && i < n
    ensures |PopAll(db, key, left, n)| == n
    ensures var s := db.lists[key];
            PopAll(db, key, left, n)[i] ==
              if i >= |s| then Err(ListEmpty) else Ok(if left then s[i] else s[|s| - 1 - i])
    decreases n
  {
    var popped := if left then Lpop(db, key) else Rpop(db, key);
    if i > 0 {
      PopAllAnswers(popped.db, key, left, n - 1, i - 1);
    } else if n > 1 {
      PopAllAnswers(popped.db, key, left, n - 1, 0);
    }
  }

  /** Items pushed under a new key come back in order from the left and in reverse from the right,
      and every further pop reports an empty list. */
  lemma QueueAndStack(db: Db, key: Bytes, items: seq<Elem>, n: nat, i: nat)
    requires key != [] && key !in db.lists && items != [] && i < n
    ensures var full := PushAll(db, key, items);
            |PopAll(full, key, true, n)| == |PopAll(full, key, false, n)| == n &&
            PopAll(full, key, true, n)[i] == (if i >= |items| then Err(ListEmpty) else Ok(items[i])) &&
            PopAll(full, key, false, n)[i] == (if i >= |items| then Err(ListEmpty) else Ok(items[|items| - 1 - i]))
  {
    hide PushAll, PopAll;
    PushAllContents(db, key, items);
    assert ListAt(db, key) + items == items;
    PopAllAnswers(PushAll(db, key, items), key, true, n, i);
    PopAllAnswers(PushAll(db, key, items), key, false, n, i);
  }

  /** An item pushed on the left is the next that leaves there, and the others stay as they were. */
  lemma PushedLeftLeavesFirst(db: Db, key: Bytes, item: Elem)
    requires key != []
    ensures var one := LPush(db, key, item);
            one.result == Ok(()) && Lpop(one.db, key).result == Ok(item) &&
            ListAt(Lpop(one.db, key).db, key) == ListAt(db, key) &&
            forall k :: k != key ==> ListAt(one.db, k) == ListAt(db, k)
  {
    var l := ListAt(db, key);
    assert ([item] + l)[1..] == l;
  }
}
