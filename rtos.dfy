/** A FreeRTOS queue as the firmware uses it: a FIFO of fixed capacity whose
    elements are copied in by value. Only the non-blocking behaviour is
    modelled; a blocking call that would wait is reported to its caller. */
module Rtos {
  import opened Wrappers

  class Queue<T> {
    const capacity: nat
    var items: seq<T>

    ghost predicate Valid()
      reads this
    {
      |items| <= capacity
    }

    /** xQueueCreate(capacity, sizeof(T)) */
    constructor (capacity: nat)
      ensures Valid()
      ensures this.capacity == capacity && items == []
    {
      this.capacity := capacity;
      items := [];
    }

    /** xQueueSend with a timeout of 0: the item is appended when there is
        room and dropped otherwise. */
    method TrySend(x: T) returns (sent: bool)
      requires Valid()
      modifies this
      ensures Valid()
      ensures sent <==> |old(items)| < capacity
      ensures items == if sent then old(items) + [x] else old(items)
    {
      sent := |items| < capacity;
      if sent {
        items := items + [x];
      }
    }

    /** xQueueReceive: the oldest item, or None when the queue is empty (a
        blocking receive would then suspend the caller). */
    method TryReceive() returns (r: Option<T>)
      requires Valid()
      modifies this
      ensures Valid()
      ensures old(items) == [] ==> r == None && items == []
      ensures old(items) != [] ==> r == Some(old(items)[0]) && items == old(items)[1..]
    {
      if items == [] {
        r := None;
      } else {
        r := Some(items[0]);
        items := items[1..];
      }
    }
  }
}
