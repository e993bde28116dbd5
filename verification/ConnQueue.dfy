/** The bounded connection queue of src/server.c: the ring buffer that is updated in place,
    and the FIFO sequence it stands for. */
module ConnQueue {

  /** What the ring buffer stands for: the waiting descriptors, oldest first. */
  datatype Fifo = Fifo(items: seq<int>, closed: bool, capacity: nat)

  predicate Refuses(q: Fifo) {
    q.closed || |q.items| == q.capacity
  }

  function Push(q: Fifo, fd: int): Fifo {
    if Refuses(q) then q else q.(items := q.items + [fd])
  }

  function Pop(q: Fifo): Fifo
    requires q.items != []
  {
    q.(items := q.items[1..])
  }

  function Close(q: Fifo): Fifo {
    q.(closed := true)
  }

  /** Where the i-th slot after `head` lies in a ring: indices run past the end at most once. */
  function Slot(i: nat, capacity: nat): (slot: int) {
    if i < capacity then i else i - capacity
  }

  /** The source computes slots with the remainder operator. */
  lemma SlotIsRemainder(i: nat, capacity: nat)
    requires i < 2 * capacity
    ensures i % capacity == Slot(i, capacity)
  {
    var q := i / capacity;
    assert i == q * capacity + i % capacity;
    assert q >= 2 ==> q * capacity >= 2 * capacity;
  }

  /** The `count` entries of a ring that start at `head` and wrap around at the end of `ring`. */
  ghost function Window(ring: seq<int>, head: nat, count: nat): (w: seq<int>)
    requires head < |ring| && count <= |ring|
  {
    if head + count <= |ring| then ring[head..head + count]
    else ring[head..] + ring[..Slot(head + count, |ring|)]
  }

  /** Writing at the tail and counting one more appends to the window, also when it wraps. */
  lemma WindowPush(ring: seq<int>, head: nat, count: nat, fd: int)
    requires head < |ring| && count < |ring|
    ensures Window(ring[Slot(head + count, |ring|) := fd], head, count + 1) == Window(ring, head, count) + [fd]
  {
    var slot := Slot(head + count, |ring|);
    var after := ring[slot := fd];
    if head + count < |ring| {
      assert after[head..head + count] == ring[head..head + count];
    } else {
      assert after[head..] == ring[head..];
      assert after[..slot + 1] == ring[..slot] + [fd];
    }
  }

  /** Moving the head past one entry and counting one less drops the oldest entry. */
  lemma WindowPop(ring: seq<int>, head: nat, count: nat)
    requires head < |ring| && 0 < count <= |ring|
    ensures Window(ring, head, count)[0] == ring[head]
    ensures Window(ring, Slot(head + 1, |ring|), count - 1) == Window(ring, head, count)[1..]
  {
    if head + count > |ring| {
      Unwinds(ring[head..], ring[..Slot(head + count, |ring|)]);
    }
  }

  lemma Unwinds(front: seq<int>, back: seq<int>)
    requires front != []
    ensures (front + back)[0] == front[0] && (front + back)[1..] == front[1..] + back
  {
  }

  /** The tail after one more entry. */
  lemma TailMoves(head: nat, count: nat, capacity: nat)
    requires head < capacity && count < capacity
    ensures (head + count) % capacity == Slot(head + count, capacity)
    ensures ((head + count) % capacity + 1) % capacity == (head + count + 1) % capacity
  {
    SlotIsRemainder(head + count, capacity);
    SlotIsRemainder(Slot(head + count, capacity) + 1, capacity);
    SlotIsRemainder(head + count + 1, capacity);
  }

  /** struct ConnQueue without its mutex and condition variables: each method is one critical section. */
  class Ring {
    const fds: array<int>
    const capacity: int
    var head: int
    var tail: int
    var count: int
    var closed: bool

    ghost predicate Valid()
      reads this
    {
      && 0 < capacity == fds.Length
      && 0 <= head < capacity
      && 0 <= count <= capacity
      && tail == (head + count) % capacity
    }

    ghost function Abs(): (q: Fifo)
      requires Valid()
      reads this, fds
    {
      Fifo(Window(fds[..], head, count), closed, capacity)
    }

    constructor (size: int)
      requires size > 0
      ensures Valid() && fresh(fds)
      ensures Abs() == Fifo([], false, size)
    {
      fds := new int[size](i => 0);
      capacity := size;
      head, tail, count := 0, 0, 0;
      closed := false;
    }

    /** queue_init: a non-positive capacity is refused. */
    static method Init(size: int) returns (queue: Ring?)
      ensures queue != null <==> size > 0
      ensures queue != null ==> fresh(queue) && queue.Valid() && queue.Abs() == Fifo([], false, size)
    {
      if size <= 0 {
        return null;
      }
      queue := new Ring(size);
    }

    method CloseQueue()
      requires Valid()
      modifies this`closed
      ensures Valid() && Abs() == Close(old(Abs()))
    {
      closed := true;
    }

    /** queue_try_push: 0 when the descriptor was queued, -1 when the queue is closed or full. */
    method TryPush(fd: int) returns (result: int)
      requires Valid()
      modifies this`tail, this`count, fds
      ensures Valid() && Abs() == Push(old(Abs()), fd)
      ensures result == if Refuses(old(Abs())) then -1 else 0
    {
      if closed {
        result := -1;
      } else if count == capacity {
        result := -1;
      } else {
        WindowPush(fds[..], head, count, fd);
        TailMoves(head, count, capacity);
        ghost var before := fds[..];
        fds[tail] := fd;
        assert fds[..] == before[tail := fd];
        tail := (tail + 1) % capacity;
        count := count + 1;
        result := 0;
      }
    }

    /** queue_pop after its wait loop: the loop is left only when an entry is there or the queue is closed. */
    method TakeOrExit() returns (fd: int)
      requires Valid()
      requires count > 0 || closed
      modifies this`head, this`count
      ensures Valid()
      ensures old(Abs()).items == [] ==> fd == -1 && Abs() == old(Abs())
      ensures old(Abs()).items != [] ==> fd == old(Abs()).items[0] && Abs() == Pop(old(Abs()))
    {
      if count == 0 && closed {
        return -1;
      }
      WindowPop(fds[..], head, count);
      SlotIsRemainder(head + 1, capacity);
      SlotIsRemainder(head + count, capacity);
      SlotIsRemainder(Slot(head + 1, capacity) + (count - 1), capacity);
      fd := fds[head];
      head := (head + 1) % capacity;
      count := count - 1;
    }
  }

  /** One call on the queue, in the order in which the callers get its mutex. */
  datatype Call = PushCall(fd: int) | PopCall | CloseCall

  /** The queue after a run of calls, with what entered it and what left it. */
  datatype Trace = Trace(queue: Fifo, entered: seq<int>, left: seq<int>)

  function Do(t: Trace, c: Call): Trace {
    match c
    case PushCall(fd) =>
      Trace(Push(t.queue, fd), if Refuses(t.queue) then t.entered else t.entered + [fd], t.left)
    case PopCall =>
      if t.queue.items == [] then t else Trace(Pop(t.queue), t.entered, t.left + [t.queue.items[0]])
    case CloseCall => t.(queue := Close(t.queue))
  }

  function Run(t: Trace, calls: seq<Call>): Trace
    decreases |calls|
  {
    if calls == [] then t else Run(Do(t, calls[0]), calls[1..])
  }

  ghost predicate InOrder(t: Trace) {
    t.entered == t.left + t.queue.items && |t.queue.items| <= t.queue.capacity
  }

  lemma {:induction false} RunInOrder(t: Trace, calls: seq<Call>)
    requires InOrder(t)
    ensures InOrder(Run(t, calls)) && Run(t, calls).queue.capacity == t.queue.capacity
    ensures t.queue.closed ==> Run(t, calls).entered == t.entered && Run(t, calls).queue.closed
    decreases |calls|
  {
    if calls != [] {
      if calls[0].PopCall? && t.queue.items != [] {
        assert t.queue.items == [t.queue.items[0]] + t.queue.items[1..];
      }
      RunInOrder(Do(t, calls[0]), calls[1..]);
    }
  }

  /** Over every run of calls on a fresh queue: descriptors leave in the order they entered, those
      that entered and did not leave are exactly the queued ones, and the queue never overfills. */
  lemma FirstInFirstOut(capacity: nat, calls: seq<Call>)
    ensures var t := Run(Trace(Fifo([], false, capacity), [], []), calls);
            && t.entered == t.left + t.queue.items
            && |t.queue.items| <= capacity
            && t.queue.capacity == capacity
  {
    RunInOrder(Trace(Fifo([], false, capacity), [], []), calls);
  }

  lemma {:induction false} RunThen(t: Trace, calls: seq<Call>, c: Call)
    ensures Run(t, calls + [c]) == Do(Run(t, calls), c)
    decreases |calls|
  {
    if calls == [] {
      assert calls + [c] == [c];
      assert Run(Do(t, c), [c][1..]) == Do(t, c);
    } else {
      assert (calls + [c])[1..] == calls[1..] + [c];
      RunThen(Do(t, calls[0]), calls[1..], c);
    }
  }

  lemma {:induction false} ClosedByCall(t: Trace, calls: seq<Call>)
    ensures Run(t, calls).queue.closed <==> t.queue.closed || CloseCall in calls
    decreases |calls|
  {
    if calls != [] {
      ClosedByCall(Do(t, calls[0]), calls[1..]);
      assert calls == [calls[0]] + calls[1..];
    }
  }

  /** Over every run of calls on a fresh queue: a push is taken exactly if nobody closed the queue and fewer descriptors
      than it has slots entered without having left; a pop gives the oldest of those. */
  lemma TakenExactly(capacity: nat, calls: seq<Call>, fd: int)
    ensures var start := Trace(Fifo([], false, capacity), [], []);
            var t, pushed, popped := Run(start, calls), Run(start, calls + [PushCall(fd)]), Run(start, calls + [PopCall]);
            && pushed.entered == (if CloseCall !in calls && |t.entered| - |t.left| < capacity then t.entered + [fd] else t.entered)
            && popped.left == (if |t.left| < |t.entered| then t.left + [t.entered[|t.left|]] else t.left)
  {
    var start := Trace(Fifo([], false, capacity), [], []);
    RunInOrder(start, calls);
    ClosedByCall(start, calls);
    RunThen(start, calls, PushCall(fd));
    RunThen(start, calls, PopCall);
  }
}
