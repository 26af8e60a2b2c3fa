/** The start of proxy.c: main hands each worker its index through one variable, guarded by
    connfd_mutex, which main locks and the worker unlocks; each worker then publishes its epoll
    descriptor, and main gives the first connections to the workers in turn. A schedule is any
    sequence of steps of main and of the workers; a step that would block changes nothing. The
    variable lives in one iteration of main's loop; a worker that reads it later may read anything. */
module StartUp {
  import opened Division

  datatype Main =
    | Lock(i: nat)          // line 113
    | SetArgument(i: nat)   // line 114
    | Create(i: nat)        // line 115
    | Leave(i: nat)         // line 116: the lifetime of the variable ends
    | AcceptLock            // line 128
    | AcceptUnlock          // line 130
    | Assign                // line 146: assert(epoll_list[round_robin]>0)
    | Failed                // the assertion has failed

  datatype Worker =
    | None
    | Created               // line 194
    | Knows(index: nat)     // line 195
    | Free(index: nat)      // line 199
    | Ready(index: nat)     // line 205

  datatype State = State(
    main: Main, mutex: bool, argument: nat, workers: seq<Worker>, epollList: seq<int>, roundRobin: nat,
    late: bool,             // history: a worker has read the variable after its lifetime
    given: nat)             // history: how many connections have been given to workers

  /** found is what a worker finds where the variable was. */
  datatype Action = MainStep | WorkerStep(k: nat, epollfd: int, found: nat)

  predicate Initial(s: State) {
    && s.main == Lock(0) && !s.mutex && s.roundRobin == 0 && !s.late && s.given == 0
    && 0 < |s.workers| == |s.epollList|
    && (forall k :: 0 <= k < |s.workers| ==> s.workers[k] == None)
    && (forall k :: 0 <= k < |s.epollList| ==> s.epollList[k] == 0)
  }

  function MainNext(s: State): State {
    match s.main
    case Lock(i) => if s.mutex then s else s.(mutex := true, main := SetArgument(i))
    case SetArgument(i) => s.(argument := i, main := Create(i))
    case Create(i) =>
      if i < |s.workers| then s.(workers := s.workers[i := Created], main := Leave(i)) else s
    case Leave(i) => s.(main := if i + 1 < |s.workers| then Lock(i + 1) else AcceptLock)
    case AcceptLock => if s.mutex then s else s.(mutex := true, main := AcceptUnlock)
    case AcceptUnlock => s.(mutex := false, main := Assign)
    case Assign =>
      if s.roundRobin < |s.epollList| && s.epollList[s.roundRobin] > 0 then
        s.(roundRobin := (s.roundRobin + 1) % |s.epollList|, given := s.given + 1, main := AcceptLock)
      else s.(main := Failed)
    case Failed => s
  }

  function WorkerNext(s: State, k: nat, epollfd: int, found: nat): State
    requires k < |s.workers|
  {
    match s.workers[k]
    case None => s
    case Created =>
      if s.main == Leave(k) then s.(workers := s.workers[k := Knows(s.argument)])
      else s.(workers := s.workers[k := Knows(found)], late := true)
    case Knows(i) => s.(workers := s.workers[k := Free(i)], mutex := false)
    case Free(i) =>
      if i < |s.epollList| then s.(workers := s.workers[k := Ready(i)], epollList := s.epollList[i := epollfd]) else s
    case Ready(i) => s
  }

  /** epoll_create succeeds; descriptor 0 is in use. */
  predicate Possible(s: State, a: Action) {
    a.WorkerStep? ==> a.k < |s.workers| && a.epollfd > 0
  }

  function Step(s: State, a: Action): State {
    if !Possible(s, a) then s
    else if a.MainStep? then MainNext(s)
    else WorkerNext(s, a.k, a.epollfd, a.found)
  }

  function Run(s: State, actions: seq<Action>): State {
    if actions == [] then s else Step(Run(s, actions[..|actions| - 1]), actions[|actions| - 1])
  }

  // ---------------------------------------------------------------- the invariant

  /** How many workers main has created. */
  function CreatedCount(s: State): nat {
    match s.main
    case Lock(i) => i
    case SetArgument(i) => i
    case Create(i) => i
    case Leave(i) => i + 1
    case _ => |s.workers|
  }

  /** The mutex is held for this worker, which has not read its argument or not yet unlocked. */
  predicate Starting(w: Worker) {
    w.Created? || w.Knows?
  }

  /** Main is about to lock, or on its way there. */
  predicate Waits(main: Main) {
    main.Leave? || main.Lock? || main.AcceptLock?
  }

  predicate WorkerOk(s: State, k: nat)
    requires k < |s.workers| == |s.epollList|
  {
    && (s.workers[k].None? <==> k >= CreatedCount(s))
    && (s.workers[k].Created? ==> s.argument == k)
    && (Starting(s.workers[k]) ==> s.mutex && Waits(s.main) && k == CreatedCount(s) - 1)
    && (!s.late && (s.workers[k].Knows? || s.workers[k].Free? || s.workers[k].Ready?) ==> s.workers[k].index == k)
    && (!s.late ==> (s.epollList[k] > 0 <==> s.workers[k].Ready?))
  }

  predicate Inv(s: State) {
    && 0 < |s.workers| == |s.epollList| && s.roundRobin == s.given % |s.workers|
    && CreatedCount(s) <= |s.workers|
    && (s.main.Lock? || s.main.SetArgument? || s.main.Create? || s.main.Leave? ==> s.main.i < |s.workers|)
    && (s.main.SetArgument? || s.main.Create? || s.main.AcceptUnlock? ==> s.mutex)
    && (s.main.Create? ==> s.argument == s.main.i)
    && (s.main.Assign? ==> !s.mutex)
    && (s.mutex && Waits(s.main) ==> CreatedCount(s) > 0 && Starting(s.workers[CreatedCount(s) - 1]))
    && (forall k :: 0 <= k < |s.workers| ==> WorkerOk(s, k))
  }

  lemma InitialInv(s: State)
    requires Initial(s)
    ensures Inv(s)
  {
    assert forall k :: 0 <= k < |s.workers| ==> WorkerOk(s, k);
  }

  lemma NextTurn(given: nat, n: nat)
    requires 0 < n
    ensures (given % n + 1) % n == (given + 1) % n
  {
    TurnAfter(given, n, given / n, given % n);
  }

  lemma TurnAfter(given: nat, n: nat, q: nat, r: nat)
    requires given == q * n + r && r < n
    ensures (r + 1) % n == (given + 1) % n
  {
    var wraps := r + 1 == n;
    assert (q + 1) * n == q * n + n;
    DivisionIs(given + 1, n, if wraps then q + 1 else q, if wraps then 0 else r + 1);
    DivisionIs(r + 1, n, if wraps then 1 else 0, if wraps then 0 else r + 1);
  }

  lemma MainKeeps(s: State)
    requires Inv(s)
    ensures Inv(MainNext(s))
  {
    NextTurn(s.given, |s.workers|);
    var s' := MainNext(s);
    forall k | 0 <= k < |s'.workers|
      ensures WorkerOk(s', k)
    {
      assert WorkerOk(s, k);
    }
  }

  lemma WorkerKeeps(s: State, w: nat, epollfd: int, found: nat)
    requires Inv(s) && w < |s.workers| && epollfd > 0
    ensures Inv(WorkerNext(s, w, epollfd, found))
  {
    var s' := WorkerNext(s, w, epollfd, found);
    assert WorkerOk(s, w);
    forall k | 0 <= k < |s'.workers|
      ensures WorkerOk(s', k)
    {
      assert WorkerOk(s, k);
    }
  }

  lemma {:induction false} RunInv(s: State, actions: seq<Action>)
    requires Initial(s)
    ensures Inv(Run(s, actions))
  {
    if actions == [] {
      InitialInv(s);
    } else {
      var before := Run(s, actions[..|actions| - 1]);
      RunInv(s, actions[..|actions| - 1]);
      var a := actions[|actions| - 1];
      if Possible(before, a) {
        match a
        case MainStep => MainKeeps(before);
        case WorkerStep(k, epollfd, found) => WorkerKeeps(before, k, epollfd, found);
      }
    }
  }

  // ---------------------------------------------------------------- what follows

  /** As long as no worker has read late, every worker that knows its index knows its own number, so no
      two have the same; and the variable is not written while a worker has yet to read it. */
  lemma DistinctIndices(s: State, actions: seq<Action>, k: nat)
    requires Initial(s) && k < |Run(s, actions).workers|
    ensures var now := Run(s, actions);
      var w := now.workers[k];
      && (!now.late ==> w.None? || w.Created? || w.index == k)
      && (w.Created? ==> now.argument == k && !now.main.SetArgument?)
  {
    RunInv(s, actions);
    assert WorkerOk(Run(s, actions), k);
  }

  /** A worker reads its own number for certain if and only if main has not left the iteration in which
      it created it; otherwise it reads late. */
  lemma ReadIff(s: State, actions: seq<Action>, k: nat, epollfd: int)
    requires Initial(s) && k < |Run(s, actions).workers| && Run(s, actions).workers[k].Created? && epollfd > 0
    ensures var now := Run(s, actions);
      && ((forall found :: Step(now, WorkerStep(k, epollfd, found)).workers[k] == Knows(k)) <==> now.main == Leave(k))
      && forall found :: Step(now, WorkerStep(k, epollfd, found)).late <==> now.late || now.main != Leave(k)
  {
    RunInv(s, actions);
    var now := Run(s, actions);
    assert WorkerOk(now, k);
    assert now.main != Leave(k) ==> Step(now, WorkerStep(k, epollfd, k + 1)).workers[k] == Knows(k + 1);
  }

  /** Nothing makes main wait for that either: for any worker there is a schedule in which it takes any
      number for its index. */
  lemma AnyIndexPossible(s: State, k: nat, found: nat)
    requires Initial(s) && k < |s.workers|
    ensures exists actions :: k < |Run(s, actions).workers| && Run(s, actions).workers[k] == Knows(found)
  {
    var start := Started(s, k);
    RunLast(s, start, MainStep);
    RunLast(s, start + [MainStep], MainStep);
    RunLast(s, start + [MainStep] + [MainStep], MainStep);
    RunLast(s, start + [MainStep] + [MainStep] + [MainStep], MainStep);
    RunLast(s, start + [MainStep] + [MainStep] + [MainStep] + [MainStep], WorkerStep(k, 3, found));
    var actions := start + [MainStep] + [MainStep] + [MainStep] + [MainStep] + [WorkerStep(k, 3, found)];
    assert Run(s, actions).workers[k] == Knows(found);
  }

  /** When main has locked the mutex for a connection, every worker knows an index, which is its own if
      none has read late. */
  lemma AllKnowBeforeFirstConnection(s: State, actions: seq<Action>, k: nat)
    requires Initial(s) && k < |Run(s, actions).workers|
    requires Run(s, actions).main.AcceptUnlock? || Run(s, actions).main.Assign?
    ensures var w := Run(s, actions).workers[k]; (w.Free? || w.Ready?) && (!Run(s, actions).late ==> w.index == k)
  {
    RunInv(s, actions);
    assert WorkerOk(Run(s, actions), k);
  }

  /** Main is never left waiting for good: while it waits for the mutex, the worker it waits for is the
      one it has created last, that worker can go on, and after two of its steps the mutex is free. */
  lemma NoDeadlock(s: State, actions: seq<Action>, epollfd: int, found: nat)
    requires Initial(s) && epollfd > 0
    requires var now := Run(s, actions); now.mutex && (now.main.Lock? || now.main.AcceptLock?)
    ensures var now := Run(s, actions);
      && 0 < CreatedCount(now) <= |now.workers|
      && var awaited := WorkerStep(CreatedCount(now) - 1, epollfd, found);
         && Possible(now, awaited) && Step(now, awaited) != now
         && !Step(Step(now, awaited), awaited).mutex
  {
    RunInv(s, actions);
    var now := Run(s, actions);
    var k := CreatedCount(now) - 1;
    assert WorkerOk(now, k);
    assert Step(now, WorkerStep(k, epollfd, found)).workers[k] != now.workers[k];
  }

  /** If no worker has read late, the assertion on epoll_list holds if and only if the worker whose turn
      it is has stored its epoll descriptor: worker k mod n for the connection that follows k others. */
  lemma AssertionIff(s: State, actions: seq<Action>)
    requires Initial(s) && Run(s, actions).main.Assign? && !Run(s, actions).late
    ensures var now := Run(s, actions);
      && 0 < |now.workers|
      && (MainNext(now).main.Failed? <==> !now.workers[now.given % |now.workers|].Ready?)
      && (!MainNext(now).main.Failed? ==> MainNext(now).given == now.given + 1)
  {
    RunInv(s, actions);
    assert WorkerOk(Run(s, actions), Run(s, actions).roundRobin);
  }

  /** It can fail for any number of workers, though none reads late: nothing makes main wait for that. */
  lemma AssertionCanFail(s: State)
    requires Initial(s)
    ensures exists actions :: Run(s, actions).main.Failed? && !Run(s, actions).late
  {
    var start := Started(s, |s.workers|);
    RunLast(s, start, MainStep);
    RunLast(s, start + [MainStep], MainStep);
    RunLast(s, start + [MainStep] + [MainStep], MainStep);
    assert Run(s, start + [MainStep] + [MainStep] + [MainStep]).main.Failed?;
  }

  /** Main creates worker i, which goes on until it has unlocked the mutex, and then leaves the iteration. */
  function StartNext(actions: seq<Action>, i: nat): seq<Action> {
    actions + [MainStep] + [MainStep] + [MainStep] + [WorkerStep(i, 3, 0)] + [WorkerStep(i, 3, 0)] + [MainStep]
  }

  function StartedState(s: State, n: nat): State {
    s.(main := if n < |s.workers| then Lock(n) else AcceptLock,
       argument := if n == 0 then s.argument else n - 1,
       workers := seq(|s.workers|, (k: nat) => if k < n then Free(k) else None))
  }

  lemma {:induction false} Started(s: State, n: nat) returns (actions: seq<Action>)
    requires Initial(s) && n <= |s.workers|
    ensures Run(s, actions) == StartedState(s, n)
  {
    if n == 0 {
      actions := [];
      assert StartedState(s, 0).workers == s.workers;
    } else {
      var before := Started(s, n - 1);
      OneMore(s, before, n - 1);
      actions := StartNext(before, n - 1);
    }
  }

  lemma OneMore(s: State, actions: seq<Action>, i: nat)
    requires Initial(s) && i < |s.workers| && Run(s, actions) == StartedState(s, i)
    ensures Run(s, StartNext(actions, i)) == StartedState(s, i + 1)
  {
    RunMore(s, actions, WorkerStep(i, 3, 0));
    StartOne(s, i);
  }

  lemma StartOne(s: State, i: nat)
    requires Initial(s) && i < |s.workers|
    ensures StartedState(s, i + 1)
         == MainNext(WorkerNext(WorkerNext(MainNext(MainNext(MainNext(StartedState(s, i)))), i, 3, 0), i, 3, 0))
  {
    var s0 := StartedState(s, i);
    var s3 := MainNext(MainNext(MainNext(s0)));
    assert s3.workers == s0.workers[i := Created] && s3.argument == i;
    var s5 := WorkerNext(WorkerNext(s3, i, 3, 0), i, 3, 0);
    assert s5.workers == s0.workers[i := Free(i)];
    assert s5.workers == StartedState(s, i + 1).workers;
  }

  lemma RunMore(s: State, actions: seq<Action>, w: Action)
    ensures Run(s, actions + [MainStep] + [MainStep] + [MainStep] + [w] + [w] + [MainStep])
         == MainNext(Step(Step(MainNext(MainNext(MainNext(Run(s, actions)))), w), w))
  {
    RunLast(s, actions, MainStep);
    RunLast(s, actions + [MainStep], MainStep);
    RunLast(s, actions + [MainStep] + [MainStep], MainStep);
    RunLast(s, actions + [MainStep] + [MainStep] + [MainStep], w);
    RunLast(s, actions + [MainStep] + [MainStep] + [MainStep] + [w], w);
    RunLast(s, actions + [MainStep] + [MainStep] + [MainStep] + [w] + [w], MainStep);
  }

  lemma RunLast(s: State, actions: seq<Action>, a: Action)
    ensures Run(s, actions + [a]) == Step(Run(s, actions), a)
  {
    assert (actions + [a])[..|actions|] == actions;
  }
}
