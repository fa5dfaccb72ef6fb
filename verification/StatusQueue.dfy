/** The ring buffer of internal/influx/status_writer.go: an array with `head` and
    `size`, cleared slot by slot, standing for a bounded sequence that drops its
    oldest element on overflow. */
module StatusQueue {

  /** The bounded sequence after one push: a full one loses its oldest element. */
  function Pushed<T>(q: seq<T>, capacity: nat, x: T): (r: seq<T>)
    requires 0 < capacity
    ensures 0 < |r| && r[|r| - 1] == x
    ensures |q| <= capacity ==> |r| <= capacity
  {
    (if |q| == capacity then q[1..] else q) + [x]
  }

  /** A run of pushes. */
  function PushedAll<T>(q: seq<T>, capacity: nat, xs: seq<T>): (r: seq<T>)
    requires |q| <= capacity && 0 < capacity
    ensures |r| <= capacity
    decreases |xs|
  {
    if xs == [] then q else PushedAll(Pushed(q, capacity, xs[0]), capacity, xs[1..])
  }

  /** The newest `capacity` elements of a sequence. */
  function Newest<T>(s: seq<T>, capacity: nat): seq<T> {
    if |s| <= capacity then s else s[|s| - capacity..]
  }

  /** Drop-oldest, over any run of pushes: exactly the newest elements are left, in order. */
  lemma {:induction false} PushesKeepNewest<T>(q: seq<T>, capacity: nat, xs: seq<T>)
    requires |q| <= capacity && 0 < capacity
    ensures PushedAll(q, capacity, xs) == Newest(q + xs, capacity)
    decreases |xs|
  {
    if xs == [] {
      assert q + xs == q;
    } else {
      var p := Pushed(q, capacity, xs[0]);
      PushesKeepNewest(p, capacity, xs[1..]);
      assert q + xs == q + [xs[0]] + xs[1..];
      if |q| == capacity {
        assert q + xs == [q[0]] + (p + xs[1..]);
      }
    }
  }

  /** How many elements one `take(max)` removes from a sequence of this length. */
  function Taken(max: nat, size: nat): nat {
    if max < size then max else size
  }

  /** A slot of the ring; `Nil` is the cleared pointer. */
  datatype Slot<T> = Nil | Full(point: T)

  /** For an index less than twice the length, the remainder is one subtraction. */
  lemma WrapOnce(x: nat, n: nat)
    requires 0 < n && x < 2 * n
    ensures x % n == if x < n then x else x - n
  {
    if x < n {
    } else {
      assert x == 1 * n + (x - n);
    }
  }

  /** The array index of the i-th element of a ring of n slots starting at head. */
  function At(head: nat, n: nat, i: nat): (k: nat)
    requires head < n && i <= n
    ensures k < n
  {
    if head + i < n then head + i else head + i - n
  }

  class Ring<T> {
    var queue: array<Slot<T>>
    var head: nat
    var size: nat
    var inFlight: nat
    var accepting: bool
    ghost var contents: seq<T>

    /** The slots from `head` on hold `contents`; every other slot is cleared. */
    ghost predicate Valid()
      reads this, queue
    {
      && 0 < queue.Length
      && head < queue.Length
      && size == |contents| <= queue.Length
      && (forall i :: 0 <= i < size ==> queue[At(head, queue.Length, i)] == Full(contents[i]))
      && (forall i :: size <= i < queue.Length ==> queue[At(head, queue.Length, i)] == Nil)
    }

    constructor (queueSize: nat)
      requires 0 < queueSize
      ensures Valid() && fresh(queue) && queue.Length == queueSize
      ensures contents == [] && inFlight == 0 && accepting
    {
      queue := new Slot<T>[queueSize](_ => Nil);
      head, size, inFlight, accepting, contents := 0, 0, 0, true, [];
    }

    /** pushLocked: overflow clears and skips the oldest slot first. */
    method PushLocked(point: T) returns (dropped: bool)
      requires Valid()
      modifies this`head, this`size, this`contents, queue
      ensures Valid() && queue == old(queue)
      ensures contents == Pushed(old(contents), queue.Length, point)
      ensures dropped == (|old(contents)| == queue.Length)
    {
      dropped := size == queue.Length;
      if dropped {
        PopHead();
      }
      WrapOnce(head + size, queue.Length);
      var tail := (head + size) % queue.Length;
      assert tail == At(head, queue.Length, size);
      queue[tail] := Full(point);
      size := size + 1;
      contents := contents + [point];
    }

    /** The three statements that take, dropRemaining and an overflowing push share:
        clear the head slot, advance the head, shrink. */
    method PopHead()
      requires Valid() && 0 < size
      modifies this`head, this`size, this`contents, queue
      ensures Valid() && queue == old(queue)
      ensures contents == old(contents)[1..]
    {
      ghost var was := queue[..];
      ghost var oldHead := head;
      queue[head] := Nil;
      WrapOnce(head + 1, queue.Length);
      head := (head + 1) % queue.Length;
      size := size - 1;
      contents := contents[1..];
      forall i | 0 <= i < queue.Length - 1
        ensures queue[At(head, queue.Length, i)] == was[At(oldHead, queue.Length, i + 1)]
      {
      }
      assert At(head, queue.Length, queue.Length - 1) == oldHead;
    }

    /** enqueue's critical section. */
    method EnqueueLocked(point: T) returns (accepted: bool, dropped: bool)
      requires Valid()
      modifies this`head, this`size, this`contents, queue
      ensures Valid() && queue == old(queue)
      ensures accepted == old(accepting)
      ensures !accepted ==> contents == old(contents) && !dropped
      ensures accepted ==> contents == Pushed(old(contents), queue.Length, point)
      ensures accepted ==> dropped == (|old(contents)| == queue.Length)
    {
      if !accepting {
        return false, false;
      }
      accepted := true;
      dropped := PushLocked(point);
    }

    /** take: hand the oldest `max` points (or all of them) to the worker. */
    method Take(max: nat) returns (points: seq<T>, open: bool)
      requires Valid()
      modifies this`head, this`size, this`contents, this`inFlight, queue
      ensures Valid() && queue == old(queue)
      ensures points == old(contents)[..Taken(max, |old(contents)|)]
      ensures contents == old(contents)[Taken(max, |old(contents)|)..]
      ensures |points| == (if max < |old(contents)| then max else |old(contents)|)
      ensures inFlight == old(inFlight) + |points|
      ensures open == old(accepting)
    {
      var count := if max < size then max else size;
      ghost var was := contents;
      points := [];
      for i := 0 to count
        invariant Valid() && queue == old(queue)
        invariant contents == was[i..]
        invariant points == was[..i]
        invariant inFlight == old(inFlight) && accepting == old(accepting)
      {
        assert queue[At(head, queue.Length, 0)] == Full(contents[0]);
        points := points + [queue[head].point];
        PopHead();
      }
      inFlight := inFlight + count;
      open := accepting;
    }

    /** completeBatch. */
    method CompleteBatch(points: nat)
      requires points <= inFlight
      modifies this`inFlight
      ensures inFlight == old(inFlight) - points
    {
      inFlight := inFlight - points;
    }

    /** dropRemaining's critical section; the count goes to recordDrop. */
    method DropRemaining() returns (points: nat)
      requires Valid()
      modifies this`head, this`size, this`contents, this`inFlight, queue
      ensures Valid() && queue == old(queue)
      ensures points == old(inFlight) + |old(contents)|
      ensures contents == [] && inFlight == 0
      ensures forall i :: 0 <= i < queue.Length ==> queue[i] == Nil
    {
      points := inFlight + size;
      inFlight := 0;
      while size > 0
        invariant Valid() && queue == old(queue) && inFlight == 0
        decreases size
      {
        PopHead();
      }
      forall i | 0 <= i < queue.Length
        ensures queue[i] == Nil
      {
        assert i == At(head, queue.Length, if head <= i then i - head else i + queue.Length - head);
      }
    }

    /** stopAccepting's critical section. */
    method StopAccepting()
      modifies this`accepting
      ensures !accepting
    {
      accepting := false;
    }
  }
}
