/** The per-lane event ring together with its parallel array of slot records: a fixed array, two
    counters that only grow, and the FIFO queue they stand for. */
module EventRing {

  import opened Arith

  class SlotRing<T(0)> {
    const slots: array<T>
    var head: nat
    var tail: nat

    ghost predicate Valid()
      reads this
    {
      slots.Length > 0 && tail <= head <= tail + slots.Length
    }

    /** In-flight records, oldest first. */
    ghost function Contents(): (q: seq<T>)
      requires Valid()
      reads this, slots
      ensures |q| == head - tail
    {
      seq(head - tail, i requires 0 <= i reads this, slots => slots[(tail + i) % slots.Length])
    }

    constructor (capacity: nat)
      requires capacity > 0
      ensures Valid() && fresh(slots) && slots.Length == capacity && Contents() == []
    {
      slots := new T[capacity];
      head, tail := 0, 0;
    }

    method InFlight() returns (n: nat)
      requires Valid()
      ensures n == |Contents()|
    {
      n := head - tail;
    }

    method IsFull() returns (full: bool)
      requires Valid()
      ensures full <==> |Contents()| == slots.Length
    {
      full := head - tail >= slots.Length;
    }

    method LastHeadIndex() returns (i: nat)
      requires Valid()
      ensures head > 0 ==> i == (head - 1) % slots.Length
    {
      i := (head + slots.Length - 1) % slots.Length;
      if head > 0 {
        AddWhole(head - 1, slots.Length);
      }
    }

    /** Takes the next event and records the slice submitted with it. */
    method Submit(x: T)
      requires Valid() && |Contents()| < slots.Length
      modifies this`head, slots
      ensures Valid() && Contents() == old(Contents()) + [x]
    {
      head := head + 1;
      var i := LastHeadIndex();
      slots[i] := x;
      forall k | 0 <= k < old(head) - tail ensures Contents()[k] == old(Contents())[k] {
        if (tail + k) % slots.Length == i {
          SameResidue(tail + k, head - 1, slots.Length);
        }
      }
    }

    method PeekOldest() returns (x: T)
      requires Valid() && |Contents()| > 0
      ensures x == Contents()[0]
    {
      x := slots[tail % slots.Length];
    }

    method PeekNewest() returns (x: T)
      requires Valid() && |Contents()| > 0
      ensures x == Contents()[|Contents()| - 1]
    {
      var i := LastHeadIndex();
      x := slots[i];
    }

    /** Releases the oldest event and hands back the record stored with it. */
    method ReleaseOldest() returns (x: T)
      requires Valid() && |Contents()| > 0
      modifies this`tail
      ensures Valid() && x == old(Contents())[0] && Contents() == old(Contents())[1..]
    {
      var i := tail % slots.Length;
      tail := tail + 1;
      x := slots[i];
    }

    method Reset()
      requires Valid()
      modifies this`head, this`tail
      ensures Valid() && Contents() == []
    {
      head, tail := 0, 0;
    }
  }
}
