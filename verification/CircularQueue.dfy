/** The ring buffer of spdlog/details/circular_q.h, as the bounded sequence it stands for. */
module CircularQueue {

  /** Appending to a sequence of at most capacity elements drops the oldest one when it is full. */
  function Appended<T>(items: seq<T>, capacity: nat, item: T): (r: seq<T>)
    ensures |items| <= capacity ==> |r| <= capacity
  {
    if |items| < capacity then items + [item] else (items + [item])[1..]
  }

  /** The cells from head up to tail, around the end of the buffer. */
  ghost function Window<T>(cells: seq<T>, head: nat, tail: nat): seq<T>
    requires head <= |cells| && tail <= |cells|
  {
    if tail >= head then cells[head..tail] else cells[head..] + cells[..tail]
  }

  function Succ(i: nat, n: nat): nat
    requires i < n
  {
    if i + 1 == n then 0 else i + 1
  }

  lemma SuccIsMod(i: nat, n: nat)
    requires i < n
    ensures (i + 1) % n == Succ(i, n)
  {
  }

  lemma PushWindow<T>(cells: seq<T>, head: nat, tail: nat, item: T)
    requires head < |cells| && tail < |cells| && Succ(tail, |cells|) != head
    ensures Window(cells[tail := item], head, Succ(tail, |cells|)) == Window(cells, head, tail) + [item]
  {
  }

  lemma OverrunWindow<T>(cells: seq<T>, head: nat, tail: nat, item: T)
    requires head < |cells| && tail < |cells| && Succ(tail, |cells|) == head
    ensures |Window(cells, head, tail)| == |cells| - 1
    ensures Window(cells[tail := item], Succ(head, |cells|), head) == (Window(cells, head, tail) + [item])[1..]
  {
  }

  lemma PopWindow<T>(cells: seq<T>, head: nat, tail: nat)
    requires head < |cells| && tail < |cells| && head != tail
    ensures Window(cells, Succ(head, |cells|), tail) == Window(cells, head, tail)[1..]
  {
  }

  class CircularQ<T(0)> {
    // One more than the capacity; 0 in a disabled queue.
    var maxItems: nat
    var head: nat
    var tail: nat
    var overrunCounter: nat
    var v: array<T>

    ghost predicate Valid()
      reads this
    {
      && v.Length == maxItems
      && (maxItems == 0 ==> head == tail == 0)
      && (maxItems > 0 ==> head < maxItems && tail < maxItems)
    }

    ghost function Contents(): (s: seq<T>)
      requires Valid()
      reads this, v
      ensures maxItems > 0 ==> |s| < maxItems
      ensures maxItems == 0 ==> s == []
    {
      Window(v[..], head, tail)
    }

    /** The empty constructor makes a disabled queue. */
    constructor Disabled()
      ensures Valid() && maxItems == 0 && Contents() == [] && overrunCounter == 0
    {
      maxItems, head, tail, overrunCounter := 0, 0, 0, 0;
      v := new T[0];
    }

    constructor (capacity: nat)
      ensures Valid() && maxItems == capacity + 1 && Contents() == [] && overrunCounter == 0
      ensures fresh(v)
    {
      maxItems, head, tail, overrunCounter := capacity + 1, 0, 0, 0;
      v := new T[capacity + 1];
    }

    /** The move constructor: the contents move over and the other queue becomes disabled. */
    constructor MoveFrom(other: CircularQ<T>)
      requires other.Valid()
      modifies other
      ensures Valid() && maxItems == old(other.maxItems) && overrunCounter == old(other.overrunCounter)
      ensures Contents() == old(other.Contents())
      ensures other.Valid() && other.maxItems == 0 && other.Contents() == [] && other.overrunCounter == 0
    {
      maxItems, head, tail, overrunCounter := other.maxItems, other.head, other.tail, other.overrunCounter;
      v := other.v;
      new;
      other.maxItems := 0;
      other.head, other.tail := 0, 0;
      other.overrunCounter := 0;
      other.v := new T[0];
    }

    method PushBack(item: T)
      requires Valid()
      modifies this`tail, this`head, this`overrunCounter, v
      ensures Valid()
      ensures maxItems == 0 ==> Contents() == old(Contents()) && overrunCounter == old(overrunCounter)
      ensures maxItems > 0 ==> Contents() == Appended(old(Contents()), maxItems - 1, item)
      ensures maxItems > 0 ==>
                overrunCounter == old(overrunCounter) + if |old(Contents())| == maxItems - 1 then 1 else 0
    {
      if maxItems > 0 {
        ghost var cells := v[..];
        v[tail] := item;
        assert v[..] == cells[tail := item];
        SuccIsMod(tail, maxItems);
        if Succ(tail, maxItems) == head {
          OverrunWindow(cells, head, tail, item);
        } else {
          PushWindow(cells, head, tail, item);
        }
        tail := (tail + 1) % maxItems;
        if tail == head {
          SuccIsMod(head, maxItems);
          head := (head + 1) % maxItems;
          overrunCounter := overrunCounter + 1;
        }
      }
    }

    method Front() returns (item: T)
      requires Valid() && Contents() != []
      ensures item == Contents()[0]
    {
      item := v[head];
    }

    method PopFront()
      requires Valid() && Contents() != []
      modifies this`head
      ensures Valid() && Contents() == old(Contents())[1..]
    {
      SuccIsMod(head, maxItems);
      PopWindow(v[..], head, tail);
      head := (head + 1) % maxItems;
    }

    function Size(): (n: nat)
      requires Valid()
      reads this, v
      ensures n == |Contents()|
    {
      if tail >= head then tail - head else maxItems - (head - tail)
    }

    function At(i: nat): (item: T)
      requires Valid() && i < |Contents()|
      reads this, v
      ensures item == Contents()[i]
    {
      RingIndex(i);
      v[(head + i) % maxItems]
    }

    lemma RingIndex(i: nat)
      requires Valid() && i < |Contents()|
      ensures (head + i) % maxItems == if head + i < maxItems then head + i else head + i - maxItems
    {
    }

    predicate IsEmpty()
      requires Valid()
      reads this, v
      ensures IsEmpty() <==> Contents() == []
    {
      tail == head
    }

    /** A disabled queue is never full. */
    predicate IsFull()
      requires Valid()
      reads this, v
      ensures IsFull() <==> maxItems > 0 && |Contents()| == maxItems - 1
    {
      maxItems > 0 && (tail + 1) % maxItems == head
    }

    method ResetOverrunCounter()
      requires Valid()
      modifies this`overrunCounter
      ensures Valid() && Contents() == old(Contents()) && overrunCounter == 0
    {
      overrunCounter := 0;
    }
  }
}
