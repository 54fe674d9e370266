/** A model of ttp::BlockingQueue<T> (include/blocking_queue.hpp).
    The mutex that serialises every operation is left out: each method is one
    atomic step. The std::queue member is the sequence `items`, front first. */
module BlockingQueues {

  /** std::out_of_range, carrying its what() text. */
  datatype QueueError = OutOfRange(what: string)

  /** The text Peek and Pop put into the exception. */
  const OutOfRangeMessage: string := "Out of range"

  /** The value Peek returns, or the exception it throws. */
  datatype Result<T> = Ok(value: T) | Err(error: QueueError)

  /** What Pop (a void function) does: return normally, or throw. */
  datatype Outcome = Done | Fail(error: QueueError)

  class BlockingQueue<T> {
    /** The elements of the internal std::queue, front at index 0. */
    var items: seq<T>

    /** A default-constructed queue holds nothing. */
    constructor ()
      ensures items == []
    {
      items := [];
    }

    /** Both Push overloads (by rvalue and by const reference) append one
        element at the back; nothing else moves. */
    method Push(obj: T)
      modifies this
      ensures items == old(items) + [obj]
    {
      items := items + [obj];
    }

    method Empty() returns (empty: bool)
      ensures empty <==> items == []
    {
      empty := |items| == 0;
    }

    /** The front element, or out_of_range on an empty queue. Reads only. */
    method Peek() returns (r: Result<T>)
      ensures items == [] ==> r == Err(OutOfRange(OutOfRangeMessage))
      ensures items != [] ==> r == Ok(items[0])
    {
      if |items| == 0 {
        return Err(OutOfRange(OutOfRangeMessage));
      }
      r := Ok(items[0]);
    }

    /** Removes the front element, or throws out_of_range and leaves the
        (empty) queue as it was. */
    method Pop() returns (o: Outcome)
      modifies this
      ensures old(items) == [] ==> o == Fail(OutOfRange(OutOfRangeMessage)) && items == []
      ensures old(items) != [] ==> o == Done && items == old(items)[1..]
    {
      if |items| == 0 {
        return Fail(OutOfRange(OutOfRangeMessage));
      }
      items := items[1..];
      o := Done;
    }

    method Size() returns (n: nat)
      ensures n == |items|
    {
      n := |items|;
    }
  }

  /** Empty() and Size() agree: the queue is empty exactly when its size is 0. */
  method EmptyIffSizeZero<T>(q: BlockingQueue<T>) returns (empty: bool, size: nat)
    ensures empty <==> size == 0
  {
    empty := q.Empty();
    size := q.Size();
  }

  /** FIFO order: pushing xs into a fresh queue and then alternating Peek and
      Pop until Empty() yields xs again, and the queue ends empty. */
  method PushAllThenDrain<T>(xs: seq<T>) returns (drained: seq<T>, size: nat)
    ensures drained == xs
    ensures size == 0
  {
    var q := new BlockingQueue<T>();
    var i := 0;
    while i < |xs|
      invariant 0 <= i <= |xs|
      invariant q.items == xs[..i]
    {
      q.Push(xs[i]);
      i := i + 1;
    }
    assert xs[..i] == xs;
    drained := [];
    var empty := q.Empty();
    while !empty
      invariant empty <==> q.items == []
      invariant drained + q.items == xs
      decreases |q.items|
    {
      var front := q.Peek();
      drained := drained + [front.value];
      var _ := q.Pop();
      empty := q.Empty();
    }
    size := q.Size();
  }

  /** A fresh queue has size 0 and is empty. */
  method StartsEmpty() returns (size: nat, empty: bool)
    ensures size == 0 && empty
  {
    var q := new BlockingQueue<int>();
    size := q.Size();
    empty := q.Empty();
  }

  /** One Push makes the size 1 and the queue non-empty. */
  method PushUpdatesSize() returns (size: nat, empty: bool)
    ensures size == 1 && !empty
  {
    var q := new BlockingQueue<int>();
    q.Push(1);
    size := q.Size();
    empty := q.Empty();
  }

  /** Push 1, 2, 3; then Peek/Pop three times gives 1, 2, 3 and size 0. */
  method PopsInPushOrder() returns (first: Result<int>, second: Result<int>, third: Result<int>, size: nat)
    ensures first == Ok(1) && second == Ok(2) && third == Ok(3)
    ensures size == 0
  {
    var q := new BlockingQueue<int>();
    q.Push(1);
    q.Push(2);
    q.Push(3);
    first := q.Peek();
    var o := q.Pop();
    second := q.Peek();
    o := q.Pop();
    third := q.Peek();
    o := q.Pop();
    size := q.Size();
  }

  /** Pop and Peek on a fresh queue both throw out_of_range("Out of range"). */
  method EmptyQueueFails() returns (popped: Outcome, peeked: Result<int>)
    ensures popped == Fail(OutOfRange("Out of range"))
    ensures peeked == Err(OutOfRange("Out of range"))
  {
    var q := new BlockingQueue<int>();
    popped := q.Pop();
    peeked := q.Peek();
  }
}
