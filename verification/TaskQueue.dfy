/** The linked task list of tools/threadpool.c, as the add and the worker change it inside
    their critical sections. A new task's next pointer is whatever malloc left there, the
    last task's next pointer is never initialised, and after the last pop the header pointer
    holds that garbage: task_tail_p alone says whether the list is empty. */
module TaskQueue {
  import opened Consumption

  const NULL: nat := 0

  /** A function pointer and its argument pointer. */
  datatype Job = Job(function_: nat, args: nat)

  class Task {
    const job: Job
    var next: Task?

    constructor (job: Job)
      ensures this.job == job
    {
      this.job := job;
      this.next := *;
    }
  }

  /** What one passage through lines 117-135 of threadpool_handle comes to. */
  datatype Turn =
    | Wait            // line 119: pthread_cond_wait
    | Exit            // line 125: pthread_exit
    | TryAgain        // line 130: continue, with the lock still held
    | Execute(task: Task)

  /** A turn as what it comes to; line 130 is never reached. */
  function OutcomeOf(turn: Turn): Outcome<Job>
    requires !turn.TryAgain?
  {
    match turn
    case Wait => Nothing
    case Exit => Stop
    case Execute(task) => Got(task.job)
  }

  ghost function Jobs(tasks: seq<Task>): (r: seq<Job>)
    ensures |r| == |tasks| && forall i :: 0 <= i < |r| ==> r[i] == tasks[i].job
  {
    seq(|tasks|, i requires 0 <= i < |tasks| => tasks[i].job)
  }

  class Pool {
    var headerNext: Task?       // task_header.next
    var tail: Task?             // task_tail_p
    var shuttingDown: bool
    ghost var tasks: seq<Task>  // the list from the header to the tail

    ghost predicate Valid()
      reads this, tasks
    {
      && (tail == null <==> tasks == [])
      && (tasks != [] ==> headerNext == tasks[0] && tail == tasks[|tasks| - 1])
      && (forall i :: 0 <= i < |tasks| - 1 ==> tasks[i].next == tasks[i + 1])
      && (forall i, j :: 0 <= i < j < |tasks| ==> tasks[i] != tasks[j])
    }

    ghost function Queue(): seq<Job>
      reads this
    {
      Jobs(tasks)
    }

    constructor ()
      ensures Valid() && Queue() == [] && !shuttingDown
    {
      headerNext := *;          // task_header is not initialised
      tail := null;
      shuttingDown := false;
      tasks := [];
    }

    /** threadpool_add: appends. */
    method Add(function_: nat, args: nat)
      requires Valid() && function_ != NULL && args != NULL
      modifies this`headerNext, this`tail, this`tasks, tail
      ensures Valid()
      ensures Queue() == old(Queue()) + [Job(function_, args)]
      ensures |tasks| > 0 && fresh(tasks[|tasks| - 1]) && tasks[..|tasks| - 1] == old(tasks)
    {
      var newTask := new Task(Job(function_, args));
      if tail == null {
        tail := newTask;
        headerNext := newTask;
      } else {
        tail.next := newTask;
        tail := newTask;
      }
      tasks := tasks + [newTask];
    }

    /** The worker's critical section. The task taken is the oldest one, the list keeps the
        others, nothing is taken once the pool is shutting down, and the branch of line 130 is
        never taken. */
    method Take() returns (turn: Turn)
      requires Valid()
      modifies this`headerNext, this`tail, this`tasks
      ensures Valid()
      ensures !turn.TryAgain? && OutcomeOf(turn) == Consume(old(Queue()), shuttingDown)
      ensures Queue() == Leave(old(Queue()), shuttingDown)
      ensures turn.Execute? ==> old(tasks) == [turn.task] + tasks
      ensures !turn.Execute? ==> tasks == old(tasks) && headerNext == old(headerNext)
    {
      if tail == null && !shuttingDown {
        return Wait;
      }
      if shuttingDown {
        return Exit;
      }
      var task := headerNext;
      assert headerNext != null;
      if task == null {
        return TryAgain;
      }
      if task == tail {
        tail := null;
      }
      headerNext := task.next;
      tasks := tasks[1..];
      return Execute(task);
    }
  }
}
