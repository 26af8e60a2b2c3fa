/** What one passage of a consumer through the critical section of a shared queue comes to, for the
    worker of tools/threadpool.c and the two removing functions of tools/bqueue.c. */
module Consumption {

  datatype Outcome<T> =
    | Nothing          // the queue is empty
    | Stop             // shutting down
    | Got(value: T)

  function Consume<T>(queue: seq<T>, shutdown: bool): Outcome<T> {
    if shutdown then Stop else if queue == [] then Nothing else Got(queue[0])
  }

  /** The queue it leaves. */
  function Leave<T>(queue: seq<T>, shutdown: bool): seq<T> {
    if shutdown || queue == [] then queue else queue[1..]
  }
}
