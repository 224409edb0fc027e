/** The bounded FIFO of include/thread_safe_queue.h, one atomic critical section at a time. */
module AtomicQueue {
  import opened Prelude

  /** The wait condition of push: there is room, or the queue is shut. */
  predicate CanPush<T>(queue: seq<T>, capacity: nat, shut: bool) {
    |queue| < capacity || shut
  }

  /** The wait condition of pop: there is an item, or the queue is shut. */
  predicate CanPop<T>(queue: seq<T>, shut: bool) {
    |queue| > 0 || shut
  }

  /** A push that gets through: refused on a shut queue, appended otherwise. */
  function AfterPush<T>(queue: seq<T>, shut: bool, item: T): seq<T> {
    if shut then queue else queue + [item]
  }

  /** What a pop whose wait has ended returns: the oldest item, if there is one. */
  function Oldest<T>(queue: seq<T>): Option<T> {
    if |queue| == 0 then None else Some(queue[0])
  }

  function AfterPop<T>(queue: seq<T>): seq<T> {
    if |queue| == 0 then queue else queue[1..]
  }

  datatype Event<T> = Accept(item: T) | Refuse | Take(item: T) | TakeNothing | Close | Silent

  /** The queue's transitions, one for each way a call can end. */
  ghost predicate AtomicStep<T>(capacity: nat, q: seq<T>, shut: bool, e: Event<T>, q': seq<T>, shut': bool) {
    match e {
      case Accept(item) => CanPush(q, capacity, shut) && !shut && !shut' && q' == AfterPush(q, shut, item)
      case Refuse => (shut || |q| == capacity) && q' == q && shut' == shut
      case Take(item) => Oldest(q) == Some(item) && q' == AfterPop(q) && shut' == shut
      case TakeNothing => Oldest(q) == None && q' == q && shut' == shut
      case Close => q' == q && shut'
      case Silent => q' == q && shut' == shut
    }
  }

  function Taking<T>(item: Option<T>): Event<T> {
    if item.Some? then Take(item.value) else TakeNothing
  }

  /** The source's class: each method is the body of one critical section. */
  class ThreadSafeQueue<T> {
    const maxSize: nat
    var queue: seq<T>
    var size: nat
    var isShutdown: bool

    predicate Valid()
      reads this
    {
      size == |queue| <= maxSize
    }

    constructor (capacity: nat)
      ensures Valid() && maxSize == capacity && queue == [] && !isShutdown
    {
      maxSize, queue, size, isShutdown := capacity, [], 0, false;
    }

    /** Runs once the wait of push is over. */
    method Push(item: T) returns (ok: bool)
      requires Valid() && CanPush(queue, maxSize, isShutdown)
      modifies this`queue, this`size
      ensures Valid()
      ensures ok == !isShutdown
      ensures AtomicStep(maxSize, old(queue), isShutdown, if ok then Accept(item) else Refuse, queue, isShutdown)
    {
      if isShutdown {
        return false;
      }
      queue := queue + [item];
      size := size + 1;
      return true;
    }

    method TryPush(item: T) returns (ok: bool)
      requires Valid()
      modifies this`queue, this`size
      ensures Valid()
      ensures ok == (!isShutdown && |old(queue)| < maxSize)
      ensures AtomicStep(maxSize, old(queue), isShutdown, if ok then Accept(item) else Refuse, queue, isShutdown)
    {
      if |queue| >= maxSize || isShutdown {
        return false;
      }
      queue := queue + [item];
      size := size + 1;
      return true;
    }

    /** Runs once the wait of pop is over. */
    method Pop() returns (item: Option<T>)
      requires Valid() && CanPop(queue, isShutdown)
      modifies this`queue, this`size
      ensures Valid()
      ensures item == Oldest(old(queue))
      ensures AtomicStep(maxSize, old(queue), isShutdown, Taking(item), queue, isShutdown)
    {
      if |queue| == 0 {
        return None;
      }
      item := Some(queue[0]);
      queue := queue[1..];
      size := size - 1;
    }

    /** Runs once the timed wait has returned `ready`, the value of its condition at that point. */
    method PopWithTimeout(ready: bool) returns (item: Option<T>)
      requires Valid() && ready == CanPop(queue, isShutdown)
      modifies this`queue, this`size
      ensures Valid()
      ensures item == Oldest(old(queue))
      ensures AtomicStep(maxSize, old(queue), isShutdown, Taking(item), queue, isShutdown)
    {
      if !ready {
        return None;
      }
      item := Pop();
    }

    method Shutdown()
      requires Valid()
      modifies this`isShutdown
      ensures Valid() && AtomicStep(maxSize, queue, old(isShutdown), Close, queue, isShutdown)
    {
      isShutdown := true;
    }

    method Size() returns (n: nat)
      requires Valid()
      ensures n == |queue|
    {
      n := size;
    }

    method Empty() returns (b: bool)
      requires Valid()
      ensures b <==> queue == []
    {
      b := size == 0;
    }
  }
}
