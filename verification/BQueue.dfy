/** The linked queue of tools/bqueue.c and the critical sections around it. The queue starts
    zeroed. Two different tests for emptiness are used by the source: isempty looks at the
    size, dequeue and enqueue look at the tail pointer. As in the thread pool, the next
    pointer of the last entry is never initialised. */
module BQueue {
  import opened Consumption

  class Entry {
    const data: int
    var next: Entry?

    constructor (data: int)
      ensures this.data == data
    {
      this.data := data;
      this.next := *;
    }
  }

  /** What one passage through the locked part of a remover comes to. */
  datatype Removal =
    | Wait                   // line 125: pthread_cond_wait
    | Return(value: int)

  /** -1 is returned on shutdown. */
  function RemovalOf(o: Outcome<int>): Removal {
    match o
    case Nothing => Wait
    case Stop => Return(-1)
    case Got(value) => Return(value)
  }

  /** And -2 instead of waiting. */
  function AnswerOf(o: Outcome<int>): int {
    match o
    case Nothing => -2
    case Stop => -1
    case Got(value) => value
  }

  ghost function Datas(entries: seq<Entry>): (r: seq<int>)
    ensures |r| == |entries| && forall i :: 0 <= i < |r| ==> r[i] == entries[i].data
  {
    seq(|entries|, i requires 0 <= i < |entries| => entries[i].data)
  }

  class Queue {
    var headNext: Entry?
    var tail: Entry?
    var size: nat
    ghost var entries: seq<Entry>

    ghost predicate Valid()
      reads this, entries
    {
      && size == |entries|
      && (tail == null <==> entries == [])
      && (entries != [] ==> headNext == entries[0] && tail == entries[|entries| - 1])
      && (forall i :: 0 <= i < |entries| - 1 ==> entries[i].next == entries[i + 1])
      && (forall i, j :: 0 <= i < j < |entries| ==> entries[i] != entries[j])
    }

    ghost function Contents(): seq<int>
      reads this
    {
      Datas(entries)
    }

    constructor ()
      ensures Valid() && Contents() == []
    {
      headNext, tail, size := null, null, 0;
      entries := [];
    }

    /** isempty; it agrees with the other test for emptiness. */
    method IsEmpty() returns (empty: bool)
      requires Valid()
      ensures empty <==> Contents() == []
      ensures empty <==> tail == null
    {
      empty := size == 0;
    }

    method Enqueue(entry: Entry) returns (r: int)
      requires Valid() && entry !in entries
      modifies this, tail
      ensures Valid() && r == 1
      ensures entries == old(entries) + [entry]
    {
      if tail == null {
        tail := entry;
        headNext := entry;
      } else {
        tail.next := entry;
        tail := entry;
      }
      size := size + 1;
      entries := entries + [entry];
      return 1;
    }

    /** dequeue: null exactly on the empty queue, otherwise the oldest entry, detached. */
    method Dequeue() returns (entry: Entry?)
      requires Valid()
      modifies this, headNext
      ensures Valid()
      ensures entry == null <==> old(entries) == []
      ensures entry == null ==> entries == old(entries)
      ensures entry != null ==> old(entries) == [entry] + entries && entry.next == null
    {
      if tail == null {
        return null;
      }
      entry := headNext;
      headNext := entry.next;
      if entry == tail {
        tail := null;
      }
      entry.next := null;
      size := size - 1;
      entries := entries[1..];
    }
  }

  class BlockingQueue {
    const queue: Queue
    var shuttingDown: bool

    ghost predicate Valid()
      reads this, queue, queue.entries
    {
      queue.Valid()
    }

    ghost function Contents(): seq<int>
      reads this, queue
    {
      queue.Contents()
    }

    constructor ()
      ensures Valid() && Contents() == [] && !shuttingDown && fresh(queue)
    {
      queue := new Queue();
      shuttingDown := false;
    }

    /** bqueue_insert, between lock and unlock. */
    method Insert(data: int) returns (r: int)
      requires Valid()
      modifies queue, queue.entries
      ensures Valid() && r == 1
      ensures Contents() == old(Contents()) + [data]
    {
      var entry := new Entry(data);
      var _ := queue.Enqueue(entry);
      return 1;
    }

    /** bqueue_remove, from acquiring the lock to releasing it or waiting. The null test of
        line 133 never succeeds: -1 stands for shutdown, or is the value that was inserted. */
    method Remove() returns (r: Removal)
      requires Valid()
      modifies queue, queue.entries
      ensures Valid()
      ensures r == RemovalOf(Consume(old(Contents()), shuttingDown))
      ensures Contents() == Leave(old(Contents()), shuttingDown)
    {
      var empty := queue.IsEmpty();
      if empty && !shuttingDown {
        return Wait;
      }
      if shuttingDown {
        return Return(-1);
      }
      var entry := queue.Dequeue();
      if entry == null {
        return Return(-1);
      }
      return Return(entry.data);
    }

    /** bqueue_remove_nonblocking: -2 for an empty queue instead of waiting. */
    method RemoveNonblocking() returns (r: int)
      requires Valid()
      modifies queue, queue.entries
      ensures Valid()
      ensures r == AnswerOf(Consume(old(Contents()), shuttingDown))
      ensures Contents() == Leave(old(Contents()), shuttingDown)
    {
      if shuttingDown {
        return -1;
      }
      var empty := queue.IsEmpty();
      if empty {
        return -2;
      }
      var entry := queue.Dequeue();
      if entry == null {
        return -1;
      }
      return entry.data;
    }
  }
}
