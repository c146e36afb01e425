/** The ring-buffer deque (internal/datastructures/deque.go). */
module Deque {
  import opened Bytes

  lemma NonzeroMultiple(c: nat, d: int)
    requires 0 < c
    ensures d != 0 ==> c * d >= c || c * d <= -(c as int)
  {
    if d >= 1 {
      assert c * (d - 1) >= 0;
    } else if d <= -1 {
      assert c * (-d - 1) >= 0;
    }
  }

  /** The remainder is determined by any quotient that leaves less than the divisor. */
  lemma RemainderOf(x: nat, c: nat, q: nat, r: nat)
    requires r < c && x == c * q + r
    ensures x % c == r
  {
    var d := q - x / c;
    assert c * d == c * q - c * (x / c);
    assert x == c * (x / c) + x % c;
    NonzeroMultiple(c, d);
  }

  /** A remainder of a number below twice the capacity wraps at most once. */
  lemma WrapsOnce(x: nat, c: nat)
    requires 0 < c && x < 2 * c
    ensures x % c == if x < c then x else x - c
  {
    if x < c {
      RemainderOf(x, c, 0, x);
    } else {
      RemainderOf(x, c, 1, x - c);
    }
  }

  /** The array index of the i-th element counted from the slot `head`, one before it included. */
  function Slot(head: int, i: int, capacity: int): int {
    if head + i < 0 then head + i + capacity
    else if head + i < capacity then head + i
    else head + i - capacity
  }

  lemma SlotIsRemainder(head: nat, i: int, capacity: nat)
    requires head < capacity && -1 <= i <= capacity
    ensures Slot(head, i, capacity) == (head + i + capacity) % capacity
  {
    var x := head + i + capacity;
    if x < 2 * capacity {
      WrapsOnce(x, capacity);
    } else {
      RemainderOf(x, capacity, 2, x - 2 * capacity);
    }
  }

  class Deque<T(0)> {
    var data: array<T>
    var size: nat
    var head: nat
    var tail: nat
    const capacity: nat

    /** The elements from front to back. */
    ghost var contents: seq<T>

    ghost predicate Valid()
      reads this, data
    {
      && 0 < capacity == data.Length
      && |contents| == size <= capacity
      && head < capacity
      && tail == Slot(head, size - 1, capacity)
      && forall i {:trigger contents[i]} :: 0 <= i < size ==> contents[i] == data[Slot(head, i, capacity)]
    }

    /** The tail index in every valid state, as a remainder. */
    lemma TailIndex()
      requires Valid()
      ensures tail == (head + size - 1 + capacity) % capacity
    {
      SlotIsRemainder(head, size - 1, capacity);
    }

    constructor (capacity: nat)
      requires capacity > 0
      ensures Valid() && fresh(data) && this.capacity == capacity && contents == []
    {
      this.data := new T[capacity];
      this.size := 0;
      this.capacity := capacity;
      this.head := 0;
      this.tail := capacity - 1;
      this.contents := [];
    }

    method PushFront(value: T) returns (ok: bool)
      requires Valid()
      modifies this`head, this`size, this`contents, data
      ensures Valid()
      ensures ok == (|old(contents)| < capacity)
      ensures contents == if ok then [value] + old(contents) else old(contents)
    {
      if size == capacity {
        return false;
      }
      WrapsOnce(head - 1 + capacity, capacity);
      head := (head - 1 + capacity) % capacity;
      data[head] := value;
      size := size + 1;
      contents := [value] + contents;
      return true;
    }

    method PushBack(value: T) returns (ok: bool)
      requires Valid()
      modifies this`tail, this`size, this`contents, data
      ensures Valid()
      ensures ok == (|old(contents)| < capacity)
      ensures contents == if ok then old(contents) + [value] else old(contents)
    {
      if size == capacity {
        return false;
      }
      WrapsOnce(tail + 1, capacity);
      tail := (tail + 1) % capacity;
      data[tail] := value;
      size := size + 1;
      contents := contents + [value];
      return true;
    }

    method PopFront() returns (r: Option<T>)
      requires Valid()
      modifies this`head, this`size, this`contents
      ensures Valid()
      ensures old(contents) == [] ==> r == None && contents == []
      ensures old(contents) != [] ==> r == Some(old(contents)[0]) && contents == old(contents)[1..]
    {
      if size == 0 {
        return None;
      }
      r := Some(data[head]);
      WrapsOnce(head + 1, capacity);
      head := (head + 1) % capacity;
      size := size - 1;
      contents := contents[1..];
    }

    method PopBack() returns (r: Option<T>)
      requires Valid()
      modifies this`tail, this`size, this`contents
      ensures Valid()
      ensures old(contents) == [] ==> r == None && contents == []
      ensures old(contents) != [] ==>
        var last := |old(contents)| - 1; r == Some(old(contents)[last]) && contents == old(contents)[..last]
    {
      if size == 0 {
        return None;
      }
      r := Some(data[tail]);
      WrapsOnce(tail - 1 + capacity, capacity);
      tail := (tail - 1 + capacity) % capacity;
      size := size - 1;
      contents := contents[..size];
    }

    method Front() returns (r: Option<T>)
      requires Valid()
      ensures r == if contents == [] then None else Some(contents[0])
    {
      if size == 0 {
        return None;
      }
      return Some(data[head]);
    }

    method Back() returns (r: Option<T>)
      requires Valid()
      ensures r == if contents == [] then None else Some(contents[|contents| - 1])
    {
      if size == 0 {
        return None;
      }
      return Some(data[tail]);
    }
  }
}
