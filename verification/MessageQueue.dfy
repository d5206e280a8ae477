/**
 * The bounded circular message queue of the Raft and leader-election
 * simulators: one slot is kept free, and a message sent to a full queue is lost.
 */
module MessageQueue {

  // Sending to a queue of the given capacity.
  function Send<T>(q: seq<T>, x: T, capacity: nat): seq<T> {
    if |q| < capacity then q + [x] else q
  }

  // The slot after i in a ring of n slots.
  function Wrap(i: nat, n: nat): (r: nat)
    requires i < n
    ensures r < n && r == if i + 1 == n then 0 else i + 1
  {
    (i + 1) % n
  }

  class Queue<T(0)> {
    const slots: array<T>
    var head: nat
    var tail: nat

    ghost predicate Valid()
      reads this
    {
      head < slots.Length && tail < slots.Length
    }

    ghost function Contents(): seq<T>
      requires Valid()
      reads this, slots
    {
      if head <= tail then slots[head..tail] else slots[head..] + slots[..tail]
    }

    constructor (size: nat)
      requires size > 0
      ensures Valid() && fresh(slots) && slots.Length == size && Contents() == []
    {
      slots := new T[size];
      head, tail := 0, 0;
    }

    method Enqueue(x: T)
      requires Valid()
      modifies slots, `tail
      ensures Valid() && Contents() == Send(old(Contents()), x, slots.Length - 1)
    {
      var next := Wrap(tail, slots.Length);
      if next == head {
        return;
      }
      slots[tail] := x;
      tail := next;
    }

    method Dequeue() returns (ok: bool, x: T)
      requires Valid()
      modifies `head
      ensures Valid() && ok == (old(Contents()) != [])
      ensures ok ==> [x] + Contents() == old(Contents())
      ensures !ok ==> Contents() == []
    {
      x := slots[head];
      ok := head != tail;
      if ok {
        head := Wrap(head, slots.Length);
      }
    }
  }
}
