/** The in-memory database (internal/core/database.go), updated in place. */
module Database {
  import opened Bytes
  import opened Decimal
  import opened LinkedList
  import opened Store
  import opened Requests
  import opened Persistence
  import opened Commands

  class Database {
    var store: map<Bytes, Bytes>
    var expiry: map<Bytes, int>
    var lists: map<Bytes, List<Elem>>

    /** What the lists hold, the footprint, and the key whose list an object belongs to. */
    ghost var contents: map<Bytes, seq<Elem>>
    ghost var Repr: set<object>
    ghost var owner: map<object, Bytes>

    ghost predicate Valid()
      reads this, Repr
      ensures Valid() ==> this in Repr
    {
      this in Repr && Owns()
    }

    /** The lists hold their contents, and no two share a node. Strings and deadlines do not matter. */
    ghost predicate Owns()
      reads this`lists, this`contents, this`Repr, this`owner, Repr - {this}
    {
      contents.Keys == lists.Keys &&
      forall k :: k in lists ==>
        lists[k] in Repr - {this} && lists[k].Repr <= Repr - {this} && Owned(k, lists[k], contents[k], owner)
    }

    /** The list holds s, and its objects are marked with k. */
    static ghost predicate Owned(k: Bytes, list: List<Elem>, s: seq<Elem>, owner: map<object, Bytes>)
      reads list, list.Repr
    {
      list.Valid() && list.contents == s && forall o :: o in list.Repr ==> o in owner && owner[o] == k
    }

    /** Marking another object does not matter to a list. */
    static lemma OwnedMore(k: Bytes, list: List<Elem>, s: seq<Elem>, owner: map<object, Bytes>, o: object, key: Bytes)
      requires Owned(k, list, s, owner) && o !in list.Repr
      ensures Owned(k, list, s, owner[o := key])
    {
      hide List.Valid;
    }

    static lemma NewOwned(key: Bytes, list: List<Elem>, owner: map<object, Bytes>)
      requires list.Valid() && list.Repr == {list}
      ensures Owned(key, list, list.contents, owner[list := key])
    {
      hide List.Valid;
    }

    /** The abstract state: lists are what their nodes hold. */
    ghost function View(): Db
      reads this
    {
      Db(store, expiry, contents)
    }

    constructor ()
      ensures Valid() && fresh(Repr) && View() == EMPTY
    {
      store, expiry, lists := map[], map[], map[];
      contents, Repr, owner := map[], {this}, map[];
    }

    method Set(key: Bytes, value: Bytes, ttlMs: int, now: int) returns (r: Result<()>)
      requires Valid()
      modifies this`store, this`expiry
      ensures Valid() && After(View(), r) == Store.Set(old(View()), key, value, ttlMs, now)
    {
      if key == [] {
        return Err(EmptyKey);
      }
      if value == [] {
        return Err(EmptyValue);
      }
      store := store[key := value];
      if ttlMs > 0 {
        expiry := expiry[key := Wrap64(now + ttlMs)];
      }
      return Ok(());
    }

    method Get(key: Bytes) returns (r: Result<Bytes>)
      requires Valid()
      ensures r == Store.Get(View(), key)
    {
      if key == [] {
        return Err(EmptyKey);
      }
      if key !in store {
        return Err(KeyNotFound);
      }
      return Ok(store[key]);
    }

    method Incr(key: Bytes, offset: int) returns (r: Result<int>)
      requires Valid()
      modifies this`store
      ensures Valid() && After(View(), r) == Store.Incr(old(View()), key, offset)
    {
      if key == [] {
        return Err(EmptyKey);
      }
      if key !in store {
        return Err(KeyNotFound);
      }
      var currentValue := Atoi(store[key]);
      if currentValue.None? {
        return Err(NotAnInteger);
      }
      var newValue := Wrap64(currentValue.value + offset);
      store := store[key := Itoa(newValue)];
      return Ok(newValue);
    }

    /** The list under a key, created empty if there is none. */
    method ListFor(key: Bytes) returns (list: List<Elem>)
      requires Valid()
      modifies this`lists, this`contents, this`Repr, this`owner
      ensures Valid() && fresh(Repr - old(Repr))
      ensures key in lists && list == lists[key] && key in contents
      ensures View() == old(View()).(lists := old(contents)[key := ListAt(old(View()), key)])
    {
      assert contents.Keys == lists.Keys;
      hide Valid, Owns;
      if key !in lists {
        list := new List();
        Attach(key, list);
      }
      list := lists[key];
    }

    /** Enter a new list under a new key. */
    method Attach(key: Bytes, list: List<Elem>)
      requires Valid() && key !in lists
      requires list.Valid() && list.Repr == {list} && list !in Repr && list.contents == []
      modifies this`lists, this`contents, this`Repr, this`owner
      ensures Valid() && Repr == old(Repr) + {list}
      ensures lists == old(lists)[key := list] && contents == old(contents)[key := []]
    {
      hide Owned;
      NewOwned(key, list, owner);
      lists, contents := lists[key := list], contents[key := []];
      Enter(key, list, list);
    }

    method Push(key: Bytes, value: Elem) returns (r: Result<()>)
      requires Valid()
      modifies Repr
      ensures Valid() && fresh(Repr - old(Repr))
      ensures After(View(), r) == Store.Push(old(View()), key, value)
    {
      hide Valid, Owns;
      if key == [] {
        return Err(EmptyKey);
      }
      var list := ListFor(key);
      PushRight(key, list, value);
      return Ok(());
    }

    method LPush(key: Bytes, value: Elem) returns (r: Result<()>)
      requires Valid()
      modifies Repr
      ensures Valid() && fresh(Repr - old(Repr))
      ensures After(View(), r) == Store.LPush(old(View()), key, value)
    {
      hide Valid, Owns;
      if key == [] {
        return Err(EmptyKey);
      }
      var list := ListFor(key);
      PushLeft(key, list, value);
      return Ok(());
    }

    method Lpop(key: Bytes) returns (r: Result<Elem>)
      requires Valid()
      modifies Repr
      ensures Valid() && Repr == old(Repr)
      ensures After(View(), r) == Store.Lpop(old(View()), key)
    {
      if key == [] {
        return Err(EmptyKey);
      }
      if key !in lists {
        return Err(ListMissing);
      }
      hide Valid, Owns;
      var leftValue := PopLeft(key);
      if leftValue.None? {
        return Err(ListEmpty);
      }
      return Ok(leftValue.value);
    }

    method Rpop(key: Bytes) returns (r: Result<Elem>)
      requires Valid()
      modifies Repr
      ensures Valid() && Repr == old(Repr)
      ensures After(View(), r) == Store.Rpop(old(View()), key)
    {
      if key == [] {
        return Err(EmptyKey);
      }
      if key !in lists {
        return Err(ListMissing);
      }
      hide Valid, Owns;
      var rightValue := PopRight(key);
      if rightValue.None? {
        return Err(ListEmpty);
      }
      return Ok(rightValue.value);
    }

    /** Take one more object into the footprint, under the key whose list has just gained it. */
    ghost method Enter(key: Bytes, list: List<Elem>, o: object)
      requires this in Repr && o !in Repr && contents.Keys == lists.Keys && key in lists && list == lists[key]
      requires list in Repr - {this} + {o} && list.Repr <= Repr - {this} + {o}
      requires Owned(key, list, list.contents, owner[o := key])
      requires forall k :: k in lists && k != key ==>
        lists[k] in Repr - {this} && lists[k].Repr <= Repr - {this} && Owned(k, lists[k], contents[k], owner)
      modifies this`contents, this`Repr, this`owner
      ensures Valid() && Repr == old(Repr) + {o} && contents == old(contents)[key := list.contents]
    {
      hide Owned;
      var more := owner[o := key];
      forall k | k in lists && k != key ensures Owned(k, lists[k], contents[k], more) {
        OwnedMore(k, lists[k], contents[k], owner, o, key);
      }
      Repr, owner := Repr + {o}, more;
      Refresh(key, list);
    }

    /** Take the list's new contents over. */
    ghost method Refresh(key: Bytes, list: List<Elem>)
      requires this in Repr && contents.Keys == lists.Keys && key in lists && list == lists[key]
      requires list in Repr - {this} && list.Repr <= Repr - {this} && Owned(key, list, list.contents, owner)
      requires forall k :: k in lists && k != key ==>
        lists[k] in Repr - {this} && lists[k].Repr <= Repr - {this} && Owned(k, lists[k], contents[k], owner)
      modifies this`contents
      ensures Valid() && contents == old(contents)[key := list.contents]
    {
      hide Owned;
      contents := contents[key := list.contents];
    }

    // The four list calls, each with the change it makes to the abstract map of lists.

    method PushRight(key: Bytes, list: List<Elem>, value: Elem)
      requires Valid() && key in lists && list == lists[key] && key in contents
      modifies Repr
      ensures Valid() && fresh(Repr - old(Repr))
      ensures View() == old(View()).(lists := old(contents)[key := old(contents)[key] + [value]])
    {
      hide List.Valid;
      list.RPush(value);
      Enter(key, list, list.tail);
    }

    method PushLeft(key: Bytes, list: List<Elem>, value: Elem)
      requires Valid() && key in lists && list == lists[key] && key in contents
      modifies Repr
      ensures Valid() && fresh(Repr - old(Repr))
      ensures View() == old(View()).(lists := old(contents)[key := [value] + old(contents)[key]])
    {
      hide List.Valid;
      list.LPush(value);
      Enter(key, list, list.head);
    }

    method PopLeft(key: Bytes) returns (r: Option<Elem>)
      requires Valid() && key in lists && key in contents
      modifies Repr
      ensures Valid() && Repr == old(Repr)
      ensures var s := old(contents)[key];
              if s == [] then r == None && View() == old(View())
              else r == Some(s[0]) && View() == old(View()).(lists := old(contents)[key := s[1..]])
    {
      hide List.Valid;
      var list := lists[key];
      r := list.LPop();
      Refresh(key, list);
    }

    method PopRight(key: Bytes) returns (r: Option<Elem>)
      requires Valid() && key in lists && key in contents
      modifies Repr
      ensures Valid() && Repr == old(Repr)
      ensures var s := old(contents)[key];
              if s == [] then r == None && View() == old(View())
              else r == Some(s[|s| - 1]) && View() == old(View()).(lists := old(contents)[key := s[..|s| - 1]])
    {
      hide List.Valid;
      var list := lists[key];
      r := list.RPop();
      Refresh(key, list);
    }

    /** One pass of the cleanup loop. The order in which Go visits the map is arbitrary. */
    method Sweep(now: int)
      requires Valid()
      modifies this`store, this`expiry
      ensures Valid() && View() == Store.Sweep(old(View()), now)
    {
      var keys := expiry.Keys;
      ghost var dead: set<Bytes> := {};
      while keys != {}
        invariant keys <= old(expiry).Keys
        invariant forall k :: k in dead <==> k in old(expiry) && k !in keys && now > old(expiry)[k]
        invariant store == old(store) - dead && expiry == old(expiry) - dead
        decreases keys
      {
        var key :| key in keys;
        keys := keys - {key};
        if now > expiry[key] {
          dead := dead + {key};
          store := store - {key};
          expiry := expiry - {key};
        }
      }
      assert dead == Expired(old(expiry), now);
    }

    method Clear()
      requires Valid()
      modifies this
      ensures Valid() && Repr == old(Repr) && View() == EMPTY
    {
      store := map[];
      expiry := map[];
      lists := map[];
      contents := map[];
    }

    /** Load the log and replay each record; false when a type assertion of the loop panics. */
    method RebuildFromPersistence(disk: Persistence) returns (ok: bool)
      requires Valid() && disk !in Repr
      modifies Repr, disk`pos
      ensures Valid() && fresh(Repr - old(Repr))
      ensures var rebuilt := Rebuild(old(View()), Load(disk.file));
              ok == rebuilt.Some? && (ok ==> View() == rebuilt.value)
    {
      hide Valid, ReplayOne, Load;
      var requests := disk.LoadRequests();
      ghost var entries, start := Load(disk.file), View();
      for i := 0 to |requests|
        invariant Valid() && fresh(Repr - old(Repr)) && disk !in Repr
        invariant Rebuild(start, entries) == Rebuild(View(), entries[i..])
      {
        ok := ReplayRequest(requests[i]);
        if !ok {
          return;
        }
        assert entries[i..][1..] == entries[i + 1..];
      }
      return true;
    }

    /** The loop body: the exact command word selects the operation, other words are skipped. */
    method ReplayRequest(req: Request) returns (ok: bool)
      requires Valid() && Loggable(req)
      modifies Repr
      ensures Valid() && fresh(Repr - old(Repr))
      ensures var next := ReplayOne(old(View()), EntryOf(req));
              ok == next.Some? && (ok ==> View() == next.value)
    {
      hide Valid, Owns;
      var key := req.key.value;
      match VerbOf(req.command.value) {
        case SET =>
          if req.value.None? { return false; }
          var _ := Set(key, req.value.value, 0, 0);
        case INCR =>
          if req.offset.None? { return false; }
          var offset := Atoi(req.offset.value);
          if offset.Some? {
            var _ := Incr(key, offset.value);
          }
        case PUSH =>
          var _ := Push(key, req.value);
        case RPOP =>
          var _ := Rpop(key);
        case LPOP =>
          var _ := Lpop(key);
        case _ =>
      }
      return true;
    }
  }
}
