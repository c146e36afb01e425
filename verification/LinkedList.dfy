/** The doubly linked list behind PUSH, LPOP and RPOP (internal/core/list.go). */
module LinkedList {
  import opened Bytes

  class Node<T> {
    var value: T
    var prev: Node?<T>
    var next: Node?<T>

    constructor (value: T)
      ensures this.value == value && prev == null && next == null
    {
      this.value, prev, next := value, null, null;
    }
  }

  class List<T> {
    var head: Node?<T>
    var tail: Node?<T>
    var length: nat

    /** The nodes from head to tail, the values they hold, and the footprint. */
    ghost var nodes: seq<Node<T>>
    ghost var contents: seq<T>
    ghost var Repr: set<object>

    ghost predicate Valid()
      reads this, Repr
      ensures Valid() ==> this in Repr
    {
      && this in Repr
      && |contents| == |nodes| == length
      && (forall i :: 0 <= i < |nodes| ==> nodes[i] in Repr && nodes[i] as object != this)
      && Distinct(nodes)
      && (forall i {:trigger nodes[i].value} :: 0 <= i < |nodes| ==> nodes[i].value == contents[i])
      && (forall i {:trigger nodes[i].next} :: 0 <= i < |nodes| ==> nodes[i].next == NodeAt(nodes, i + 1))
      && (forall i {:trigger nodes[i].prev} :: 0 <= i < |nodes| ==> nodes[i].prev == NodeAt(nodes, i - 1))
      && head == NodeAt(nodes, 0)
      && tail == NodeAt(nodes, |nodes| - 1)
    }

    /** No node occurs twice, so following next from the head can never return to a node. */
    static ghost predicate Distinct(ns: seq<Node<T>>) {
      forall i, j :: 0 <= i < j < |ns| ==> ns[i] != ns[j]
    }

    static lemma DistinctMore(ns: seq<Node<T>>, n: Node<T>)
      requires Distinct(ns) && n !in ns
      ensures Distinct([n] + ns) && Distinct(ns + [n])
    {
    }

    /** The node at a position, null when the position is off either end. */
    static ghost function NodeAt(ns: seq<Node<T>>, i: int): Node?<T> {
      if 0 <= i < |ns| then ns[i] else null
    }

    constructor ()
      ensures Valid() && Repr == {this} && contents == []
    {
      head, tail, length := null, null, 0;
      nodes, contents, Repr := [], [], {this};
    }

    method LPush(value: T)
      requires Valid()
      modifies Repr
      ensures Valid() && head != null && fresh(head) && Repr == old(Repr) + {head}
      ensures contents == [value] + old(contents)
    {
      var n := new Node(value);
      DistinctMore(nodes, n);
      if length == 0 {
        head := n;
        tail := n;
        nodes, contents := [n], [value];
      } else {
        n.next := head;
        head.prev := n;
        head := n;
        nodes, contents := [n] + nodes, [value] + contents;
      }
      length := length + 1;
      Repr := Repr + {n};
    }

    method RPush(value: T)
      requires Valid()
      modifies Repr
      ensures Valid() && tail != null && fresh(tail) && Repr == old(Repr) + {tail}
      ensures contents == old(contents) + [value]
    {
      var n := new Node(value);
      DistinctMore(nodes, n);
      if length == 0 {
        head := n;
        tail := n;
        nodes, contents := [n], [value];
      } else {
        n.prev := tail;
        tail.next := n;
        tail := n;
        nodes, contents := nodes + [n], contents + [value];
      }
      length := length + 1;
      Repr := Repr + {n};
    }

    method LPop() returns (r: Option<T>)
      requires Valid()
      modifies Repr
      ensures Valid() && Repr == old(Repr)
      ensures if old(contents) == [] then r == None && contents == []
              else r == Some(old(contents)[0]) && contents == old(contents)[1..]
    {
      if length == 0 {
        return None;
      }
      r := Some(head.value);
      if length == 1 {
        head := null;
        tail := null;
      } else {
        head := head.next;
        head.prev := null;
      }
      length := length - 1;
      nodes, contents := nodes[1..], contents[1..];
    }

    method RPop() returns (r: Option<T>)
      requires Valid()
      modifies Repr
      ensures Valid() && Repr == old(Repr)
      ensures if old(contents) == [] then r == None && contents == []
              else r == Some(old(contents)[|old(contents)| - 1]) && contents == old(contents)[..|old(contents)| - 1]
    {
      if length == 0 {
        return None;
      }
      r := Some(tail.value);
      if length == 1 {
        head := null;
        tail := null;
      } else {
        tail := tail.prev;
        tail.next := null;
      }
      length := length - 1;
      nodes, contents := nodes[..|nodes| - 1], contents[..|contents| - 1];
    }

    method Len() returns (n: nat)
      requires Valid()
      ensures n == |contents|
    {
      n := length;
    }

    method Clear()
      requires Valid()
      modifies this
      ensures Valid() && Repr == old(Repr) && contents == []
    {
      head := null;
      tail := null;
      length := 0;
      nodes, contents := [], [];
    }

    /** The node reached from the head by k next-steps, and from the tail by k prev-steps. */
    ghost function Forward(k: nat): Node?<T>
      requires Valid()
      reads this, Repr
      ensures Forward(k) == NodeAt(nodes, k)
    {
      if k == 0 then head
      else
        var n := Forward(k - 1);
        if n == null then null else n.next
    }

    ghost function Backward(k: nat): Node?<T>
      requires Valid()
      reads this, Repr
      ensures Backward(k) == NodeAt(nodes, length - 1 - k)
    {
      if k == 0 then tail
      else
        var n := Backward(k - 1);
        if n == null then null else n.prev
    }

    /** Walking from either end visits `length` different nodes and then runs off the list, the
        values met are the contents in order and in reverse order, and the two walks meet in the
        same nodes. */
    lemma Walks()
      requires Valid()
      ensures forall k: nat :: k < length <==> Forward(k) != null
      ensures forall k: nat :: k < length <==> Backward(k) != null
      ensures forall k: nat :: k < length ==> Forward(k).value == contents[k]
      ensures forall k: nat :: k < length ==> Backward(k).value == contents[length - 1 - k]
      ensures forall k: nat :: k < length ==> Forward(k) == Backward(length - 1 - k)
      ensures forall j: nat, k: nat :: j < k < length ==> Forward(j) != Forward(k)
    {
    }
  }
}
