/** The lock, condition variable and shutdown protocol of tools/threadpool.c, for any
    number of workers and producers. A worker's program counter names the source line
    it is about to execute; sleeping and waking are steps of their own, so a sleeping
    worker can be woken by a signal, by the broadcast, or spuriously. */
module PoolProtocol {
  import opened Sums
  import opened Consumption

  type Task = nat

  datatype Worker =
    | Locking                // line 117
    | Testing                // line 118, lock held
    | Waiting                // line 119, lock held, about to wait
    | Asleep                 // line 119, inside pthread_cond_wait
    | Woken                  // line 119, leaving pthread_cond_wait, wants the lock back
    | Deciding               // line 122, lock held
    | Popping                // lines 128-134, lock held
    | Popped(ticket: nat)    // line 135, lock held
    | Running(ticket: nat)   // lines 137-139
    | Leaving                // line 124, lock held
    | Exited

  datatype Producer =
    | Idle
    | AddLocking(task: Task) // line 154
    | Appending(task: Task)  // lines 155-163, lock held
    | Signalling             // line 164, lock held
    | AddUnlocking           // line 165, lock held

  datatype Adjuster =
    | LoopTest               // line 176, reads the flag without the lock
    | Sleeping               // line 177
    | AdjLocking             // line 178
    | Checking               // line 179, lock held
    | AdjSignalling          // line 180, lock held
    | AdjUnlocking           // line 182, lock held
    | AdjDone

  datatype Destroyer =
    | NotCalled
    | DesLocking             // line 92
    | Setting                // line 93, lock held
    | DesUnlocking           // line 94, lock held
    | Broadcasting           // line 95
    | Joining(next: nat)     // line 97
    | JoiningAdjust          // line 99
    | Destroyed              // line 108

  datatype Thread = W(w: nat) | P(p: nat) | Adjust | Destroy

  datatype State = State(
    workers: seq<Worker>,
    producers: seq<Producer>,
    adjuster: Adjuster,
    destroyer: Destroyer,
    lock: set<Thread>,       // empty, or the one holder
    queue: seq<Task>,
    shutdown: bool,
    added: seq<Task>,        // history: tasks in the order of their appends
    taken: seq<Task>)        // history: tasks in the order of their pops

  datatype WorkerAct = WLock | WTest | WWait | WSpurious | WDecide | WPop | WUnlock | WFinish | WLeave
  datatype ProducerAct = PStart(task: Task) | PLock | PAppend | PSignal(wake: set<nat>) | PUnlock
  datatype AdjusterAct = ATest | AWake | ALock | ACheck | ASignal(wake: set<nat>) | AUnlock
  datatype DestroyerAct = DCall | DLock | DSet | DUnlock | DBroadcast | DJoin | DJoinAdjust

  datatype Action =
    | ByWorker(w: nat, wa: WorkerAct)
    | ByProducer(p: nat, pa: ProducerAct)
    | ByAdjuster(aa: AdjusterAct)
    | ByDestroyer(da: DestroyerAct)
  {
    predicate StartsAdd() {
      ByProducer? && pa.PStart?
    }
  }

  ghost predicate Init(s: State) {
    && (forall i :: 0 <= i < |s.workers| ==> s.workers[i] == Locking)
    && (forall j :: 0 <= j < |s.producers| ==> s.producers[j] == Idle)
    && s.adjuster == LoopTest && s.destroyer == NotCalled
    && s.lock == {} && s.queue == [] && !s.shutdown && s.added == [] && s.taken == []
  }

  function SetWorker(s: State, w: nat, pc: Worker): State
    requires w < |s.workers|
  {
    s.(workers := s.workers[w := pc])
  }

  function SetProducer(s: State, p: nat, pc: Producer): State
    requires p < |s.producers|
  {
    s.(producers := s.producers[p := pc])
  }

  ghost predicate SomeAsleep(workers: seq<Worker>) {
    exists i :: 0 <= i < |workers| && workers[i] == Asleep
  }

  /** pthread_cond_signal wakes at least one sleeper if there is one, and only sleepers. */
  ghost predicate ValidWake(workers: seq<Worker>, wake: set<nat>) {
    && (forall i :: i in wake ==> i < |workers| && workers[i] == Asleep)
    && (SomeAsleep(workers) ==> wake != {})
  }

  function WakeAll(workers: seq<Worker>, wake: set<nat>): (r: seq<Worker>)
    ensures |r| == |workers|
    ensures forall i :: 0 <= i < |r| ==> r[i] == if i in wake then Woken else workers[i]
  {
    seq(|workers|, i requires 0 <= i < |workers| => if i in wake then Woken else workers[i])
  }

  function Sleepers(workers: seq<Worker>): set<nat> {
    set i: nat | i < |workers| && workers[i] == Asleep
  }

  ghost predicate WorkerNext(s: State, w: nat, a: WorkerAct, s': State) {
    w < |s.workers| &&
    var pc := s.workers[w];
    match a
    case WLock =>
      (pc == Locking || pc == Woken) && s.lock == {} && s' == SetWorker(s, w, Testing).(lock := {W(w)})
    case WTest =>
      pc == Testing && s' == SetWorker(s, w, if s.queue == [] && !s.shutdown then Waiting else Deciding)
    case WWait =>
      pc == Waiting && s' == SetWorker(s, w, Asleep).(lock := {})
    case WSpurious =>
      pc == Asleep && s' == SetWorker(s, w, Woken)
    case WDecide =>
      pc == Deciding && s' == SetWorker(s, w, if s.shutdown then Leaving else Popping)
    case WPop =>
      && pc == Popping && s.queue != []
      && s' == SetWorker(s, w, Popped(|s.taken|)).(queue := s.queue[1..], taken := s.taken + [s.queue[0]])
    case WUnlock =>
      pc.Popped? && s' == SetWorker(s, w, Running(pc.ticket)).(lock := {})
    case WFinish =>
      pc.Running? && s' == SetWorker(s, w, Locking)
    case WLeave =>
      pc == Leaving && s' == SetWorker(s, w, Exited).(lock := {})
  }

  ghost predicate ProducerNext(s: State, p: nat, a: ProducerAct, s': State) {
    p < |s.producers| &&
    var pc := s.producers[p];
    match a
    case PStart(t) =>
      pc == Idle && s' == SetProducer(s, p, AddLocking(t))
    case PLock =>
      pc.AddLocking? && s.lock == {} && s' == SetProducer(s, p, Appending(pc.task)).(lock := {P(p)})
    case PAppend =>
      && pc.Appending?
      && s' == SetProducer(s, p, Signalling).(queue := s.queue + [pc.task], added := s.added + [pc.task])
    case PSignal(wake) =>
      && pc == Signalling && ValidWake(s.workers, wake)
      && s' == SetProducer(s, p, AddUnlocking).(workers := WakeAll(s.workers, wake))
    case PUnlock =>
      pc == AddUnlocking && s' == SetProducer(s, p, Idle).(lock := {})
  }

  ghost predicate AdjusterNext(s: State, a: AdjusterAct, s': State) {
    match a
    case ATest =>
      s.adjuster == LoopTest && s' == s.(adjuster := if s.shutdown then AdjDone else Sleeping)
    case AWake =>
      s.adjuster == Sleeping && s' == s.(adjuster := AdjLocking)
    case ALock =>
      s.adjuster == AdjLocking && s.lock == {} && s' == s.(adjuster := Checking, lock := {Adjust})
    case ACheck =>
      s.adjuster == Checking && s' == s.(adjuster := if s.queue != [] then AdjSignalling else AdjUnlocking)
    case ASignal(wake) =>
      && s.adjuster == AdjSignalling && ValidWake(s.workers, wake)
      && s' == s.(adjuster := AdjUnlocking, workers := WakeAll(s.workers, wake))
    case AUnlock =>
      s.adjuster == AdjUnlocking && s' == s.(adjuster := LoopTest, lock := {})
  }

  ghost predicate DestroyerNext(s: State, a: DestroyerAct, s': State) {
    match a
    case DCall =>
      s.destroyer == NotCalled && s' == s.(destroyer := DesLocking)
    case DLock =>
      s.destroyer == DesLocking && s.lock == {} && s' == s.(destroyer := Setting, lock := {Destroy})
    case DSet =>
      s.destroyer == Setting && s' == s.(destroyer := DesUnlocking, shutdown := true)
    case DUnlock =>
      s.destroyer == DesUnlocking && s' == s.(destroyer := Broadcasting, lock := {})
    case DBroadcast =>
      && s.destroyer == Broadcasting
      && s' == s.(destroyer := Joining(0), workers := WakeAll(s.workers, Sleepers(s.workers)))
    case DJoin =>
      && s.destroyer.Joining?
      && (var k := s.destroyer.next;
          if k < |s.workers| then s.workers[k] == Exited && s' == s.(destroyer := Joining(k + 1))
          else s' == s.(destroyer := JoiningAdjust))
    case DJoinAdjust =>
      s.destroyer == JoiningAdjust && s.adjuster == AdjDone && s' == s.(destroyer := Destroyed)
  }

  ghost predicate Next(s: State, a: Action, s': State) {
    match a
    case ByWorker(w, wa) => WorkerNext(s, w, wa, s')
    case ByProducer(p, pa) => ProducerNext(s, p, pa, s')
    case ByAdjuster(aa) => AdjusterNext(s, aa, s')
    case ByDestroyer(da) => DestroyerNext(s, da, s')
  }

  // ---------------------------------------------------------------- invariants

  predicate WorkerHolds(pc: Worker) {
    pc.Testing? || pc.Waiting? || pc.Deciding? || pc.Popping? || pc.Popped? || pc.Leaving?
  }

  predicate ProducerHolds(pc: Producer) {
    pc.Appending? || pc.Signalling? || pc.AddUnlocking?
  }

  predicate AdjusterHolds(pc: Adjuster) {
    pc.Checking? || pc.AdjSignalling? || pc.AdjUnlocking?
  }

  predicate DestroyerHolds(pc: Destroyer) {
    pc.Setting? || pc.DesUnlocking?
  }

  /** Exactly the threads inside their critical sections hold the lock, and at most one does. */
  ghost predicate LockInv(s: State) {
    && (forall i: nat :: W(i) in s.lock <==> i < |s.workers| && WorkerHolds(s.workers[i]))
    && (forall j: nat :: P(j) in s.lock <==> j < |s.producers| && ProducerHolds(s.producers[j]))
    && (Adjust in s.lock <==> AdjusterHolds(s.adjuster))
    && (Destroy in s.lock <==> DestroyerHolds(s.destroyer))
    && (forall t, u :: t in s.lock && u in s.lock ==> t == u)
  }

  /** What a worker inside the critical section knows. */
  ghost predicate WorkerInv(s: State) {
    forall i :: 0 <= i < |s.workers| ==>
      match s.workers[i]
      case Waiting => s.queue == [] && !s.shutdown
      case Deciding => s.queue != [] || s.shutdown
      case Popping => s.queue != [] && !s.shutdown
      case Popped(_) => !s.shutdown
      case Leaving => s.shutdown
      case Exited => s.shutdown
      case _ => true
  }

  predicate Carries(pc: Worker) {
    pc.Popped? || pc.Running?
  }

  /** A ticket is a position in the order of pops; no two workers carry the same one. */
  ghost predicate TicketInv(s: State) {
    && (forall i :: 0 <= i < |s.workers| && Carries(s.workers[i]) ==> s.workers[i].ticket < |s.taken|)
    && (forall i, j :: 0 <= i < j < |s.workers| && Carries(s.workers[i]) && Carries(s.workers[j])
          ==> s.workers[i].ticket != s.workers[j].ticket)
  }

  ghost predicate DestroyInv(s: State) {
    && (s.shutdown <==> !(s.destroyer.NotCalled? || s.destroyer.DesLocking? || s.destroyer.Setting?))
    && (s.adjuster == AdjDone ==> s.shutdown)
    && (s.destroyer.Joining? ==> s.destroyer.next <= |s.workers|)
    && (forall i :: 0 <= i < |s.workers| && Joined(s, i) ==> s.workers[i] == Exited)
    && (s.destroyer == Destroyed ==> s.adjuster == AdjDone)
  }

  predicate Joined(s: State, i: int) {
    s.destroyer.JoiningAdjust? || s.destroyer.Destroyed? || (s.destroyer.Joining? && i < s.destroyer.next)
  }

  /** After the flag is set a worker can be asleep only until the broadcast. */
  ghost predicate SleepInv(s: State) {
    s.shutdown && SomeAsleep(s.workers) ==> s.destroyer.DesUnlocking? || s.destroyer.Broadcasting?
  }

  /** Weight one for a worker on its way to the lock, or inside and about to take a task. */
  function Heading(pc: Worker): nat {
    if pc.Locking? || pc.Woken? || pc.Testing? || pc.Deciding? || pc.Popping? then 1 else 0
  }

  function SignalPending(pc: Producer): nat {
    if pc.Signalling? then 1 else 0
  }

  ghost predicate WakeupInv(s: State) {
    !s.shutdown && SomeAsleep(s.workers) ==>
      |s.queue| <= Sum(s.workers, Heading) + Sum(s.producers, SignalPending)
  }

  ghost predicate Inv(s: State) {
    && LockInv(s) && WorkerInv(s) && TicketInv(s) && DestroyInv(s) && SleepInv(s) && WakeupInv(s)
    && s.added == s.taken + s.queue
  }

  lemma InitInv(s: State)
    requires Init(s)
    ensures Inv(s)
  {
  }

  lemma WakeCounts(workers: seq<Worker>, wake: set<nat>)
    requires ValidWake(workers, wake)
    ensures Sum(workers, Heading) <= Sum(WakeAll(workers, wake), Heading)
    ensures SomeAsleep(workers) ==> Sum(workers, Heading) < Sum(WakeAll(workers, wake), Heading)
  {
    SumMonotone(workers, WakeAll(workers, wake), Heading);
    if SomeAsleep(workers) {
      var i :| i in wake;
      assert Heading(workers[i]) < Heading(WakeAll(workers, wake)[i]);
    }
  }

  lemma WorkerKeepsLock(s: State, w: nat, a: WorkerAct, s': State)
    requires LockInv(s) && WorkerNext(s, w, a, s')
    ensures LockInv(s')
  {
  }

  lemma WorkerKeepsLocals(s: State, w: nat, a: WorkerAct, s': State)
    requires LockInv(s) && WorkerInv(s) && DestroyInv(s) && WorkerNext(s, w, a, s')
    ensures WorkerInv(s')
  {
  }

  lemma WorkerKeepsTickets(s: State, w: nat, a: WorkerAct, s': State)
    requires TicketInv(s) && WorkerNext(s, w, a, s')
    ensures TicketInv(s')
  {
  }

  lemma WorkerKeepsDestroy(s: State, w: nat, a: WorkerAct, s': State)
    requires LockInv(s) && WorkerInv(s) && DestroyInv(s) && WorkerNext(s, w, a, s')
    ensures DestroyInv(s')
  {
  }

  lemma WorkerKeepsSleep(s: State, w: nat, a: WorkerAct, s': State)
    requires WorkerInv(s) && SleepInv(s) && DestroyInv(s) && WorkerNext(s, w, a, s')
    ensures SleepInv(s')
  {
  }

  lemma WorkerKeepsWakeup(s: State, w: nat, a: WorkerAct, s': State)
    requires WorkerInv(s) && DestroyInv(s) && WakeupInv(s) && WorkerNext(s, w, a, s')
    ensures WakeupInv(s')
  {
    SumUpdate(s.workers, w, s'.workers[w], Heading);
    assert s'.workers == s.workers[w := s'.workers[w]];
    if SomeAsleep(s'.workers) && !SomeAsleep(s.workers) {
      assert a.WWait?;
    }
  }

  lemma WorkerKeeps(s: State, w: nat, a: WorkerAct, s': State)
    requires Inv(s) && WorkerNext(s, w, a, s')
    ensures Inv(s')
  {
    WorkerKeepsLock(s, w, a, s');
    WorkerKeepsLocals(s, w, a, s');
    WorkerKeepsTickets(s, w, a, s');
    WorkerKeepsDestroy(s, w, a, s');
    WorkerKeepsSleep(s, w, a, s');
    WorkerKeepsWakeup(s, w, a, s');
  }

  lemma ProducerKeepsLock(s: State, p: nat, a: ProducerAct, s': State)
    requires LockInv(s) && ProducerNext(s, p, a, s')
    ensures LockInv(s')
  {
  }

  lemma ProducerKeepsLocals(s: State, p: nat, a: ProducerAct, s': State)
    requires LockInv(s) && WorkerInv(s) && DestroyInv(s) && ProducerNext(s, p, a, s')
    ensures WorkerInv(s')
  {
  }

  lemma ProducerKeepsTickets(s: State, p: nat, a: ProducerAct, s': State)
    requires TicketInv(s) && ProducerNext(s, p, a, s')
    ensures TicketInv(s')
  {
  }

  lemma ProducerKeepsDestroy(s: State, p: nat, a: ProducerAct, s': State)
    requires LockInv(s) && WorkerInv(s) && DestroyInv(s) && ProducerNext(s, p, a, s')
    ensures DestroyInv(s')
  {
  }

  lemma ProducerKeepsSleep(s: State, p: nat, a: ProducerAct, s': State)
    requires WorkerInv(s) && SleepInv(s) && DestroyInv(s) && ProducerNext(s, p, a, s')
    ensures SleepInv(s')
  {
  }

  lemma ProducerKeepsWakeup(s: State, p: nat, a: ProducerAct, s': State)
    requires WakeupInv(s) && ProducerNext(s, p, a, s')
    ensures WakeupInv(s')
  {
    SumUpdate(s.producers, p, s'.producers[p], SignalPending);
    assert s'.producers == s.producers[p := s'.producers[p]];
    if a.PSignal? {
      WakeCounts(s.workers, a.wake);
    }
  }

  lemma ProducerKeeps(s: State, p: nat, a: ProducerAct, s': State)
    requires Inv(s) && ProducerNext(s, p, a, s')
    ensures Inv(s')
  {
    ProducerKeepsLock(s, p, a, s');
    ProducerKeepsLocals(s, p, a, s');
    ProducerKeepsTickets(s, p, a, s');
    ProducerKeepsDestroy(s, p, a, s');
    ProducerKeepsSleep(s, p, a, s');
    ProducerKeepsWakeup(s, p, a, s');
  }

  lemma AdjusterKeepsLock(s: State, a: AdjusterAct, s': State)
    requires LockInv(s) && AdjusterNext(s, a, s')
    ensures LockInv(s')
  {
  }

  lemma AdjusterKeepsLocals(s: State, a: AdjusterAct, s': State)
    requires LockInv(s) && WorkerInv(s) && AdjusterNext(s, a, s')
    ensures WorkerInv(s')
  {
  }

  lemma AdjusterKeepsTickets(s: State, a: AdjusterAct, s': State)
    requires TicketInv(s) && AdjusterNext(s, a, s')
    ensures TicketInv(s')
  {
  }

  lemma AdjusterKeepsDestroy(s: State, a: AdjusterAct, s': State)
    requires LockInv(s) && WorkerInv(s) && DestroyInv(s) && AdjusterNext(s, a, s')
    ensures DestroyInv(s')
  {
  }

  lemma AdjusterKeepsSleep(s: State, a: AdjusterAct, s': State)
    requires WorkerInv(s) && SleepInv(s) && DestroyInv(s) && AdjusterNext(s, a, s')
    ensures SleepInv(s')
  {
  }

  lemma AdjusterKeepsWakeup(s: State, a: AdjusterAct, s': State)
    requires WorkerInv(s) && DestroyInv(s) && WakeupInv(s) && AdjusterNext(s, a, s')
    ensures WakeupInv(s')
  {
    if a.ASignal? {
      WakeCounts(s.workers, a.wake);
    }
  }

  lemma AdjusterKeeps(s: State, a: AdjusterAct, s': State)
    requires Inv(s) && AdjusterNext(s, a, s')
    ensures Inv(s')
  {
    AdjusterKeepsLock(s, a, s');
    AdjusterKeepsLocals(s, a, s');
    AdjusterKeepsTickets(s, a, s');
    AdjusterKeepsDestroy(s, a, s');
    AdjusterKeepsSleep(s, a, s');
    AdjusterKeepsWakeup(s, a, s');
  }

  lemma DestroyerKeepsLock(s: State, a: DestroyerAct, s': State)
    requires LockInv(s) && DestroyerNext(s, a, s')
    ensures LockInv(s')
  {
  }

  lemma DestroyerKeepsLocals(s: State, a: DestroyerAct, s': State)
    requires LockInv(s) && WorkerInv(s) && DestroyerNext(s, a, s')
    ensures WorkerInv(s')
  {
  }

  lemma DestroyerKeepsTickets(s: State, a: DestroyerAct, s': State)
    requires TicketInv(s) && DestroyerNext(s, a, s')
    ensures TicketInv(s')
  {
  }

  lemma DestroyerKeepsDestroy(s: State, a: DestroyerAct, s': State)
    requires LockInv(s) && WorkerInv(s) && DestroyInv(s) && DestroyerNext(s, a, s')
    ensures DestroyInv(s')
  {
  }

  lemma DestroyerKeepsSleep(s: State, a: DestroyerAct, s': State)
    requires WorkerInv(s) && SleepInv(s) && DestroyInv(s) && DestroyerNext(s, a, s')
    ensures SleepInv(s')
  {
  }

  lemma DestroyerKeepsWakeup(s: State, a: DestroyerAct, s': State)
    requires WorkerInv(s) && DestroyInv(s) && WakeupInv(s) && DestroyerNext(s, a, s')
    ensures WakeupInv(s')
  {
  }

  lemma DestroyerKeeps(s: State, a: DestroyerAct, s': State)
    requires Inv(s) && DestroyerNext(s, a, s')
    ensures Inv(s')
  {
    DestroyerKeepsLock(s, a, s');
    DestroyerKeepsLocals(s, a, s');
    DestroyerKeepsTickets(s, a, s');
    DestroyerKeepsDestroy(s, a, s');
    DestroyerKeepsSleep(s, a, s');
    DestroyerKeepsWakeup(s, a, s');
  }

  lemma StepInv(s: State, a: Action, s': State)
    requires Inv(s) && Next(s, a, s')
    ensures Inv(s')
  {
    match a
    case ByWorker(w, wa) => WorkerKeeps(s, w, wa, s');
    case ByProducer(p, pa) => ProducerKeeps(s, p, pa, s');
    case ByAdjuster(aa) => AdjusterKeeps(s, aa, s');
    case ByDestroyer(da) => DestroyerKeeps(s, da, s');
  }

  // ---------------------------------------------------------------- runs

  /** A run from the state threadpool_create leaves behind: ss[k] moves to ss[k + 1] by aa[k]. */
  ghost predicate Run(ss: seq<State>, aa: seq<Action>) {
    && |ss| == |aa| + 1
    && Init(ss[0])
    && forall k :: 0 <= k < |aa| ==> Next(ss[k], aa[k], ss[k + 1])
  }

  lemma {:induction false} RunInv(ss: seq<State>, aa: seq<Action>, k: nat)
    requires Run(ss, aa) && k <= |aa|
    ensures Inv(ss[k])
  {
    if k == 0 {
      InitInv(ss[0]);
    } else {
      RunInv(ss, aa, k - 1);
      StepInv(ss[k - 1], aa[k - 1], ss[k]);
    }
  }

  lemma {:induction false} SumAtMostOne<T>(s: seq<T>, weight: T -> nat)
    requires forall i :: 0 <= i < |s| ==> weight(s[i]) <= 1
    requires forall i, j :: 0 <= i < |s| && 0 <= j < |s| && weight(s[i]) > 0 && weight(s[j]) > 0 ==> i == j
    ensures Sum(s, weight) <= 1
  {
    if s != [] {
      forall i | 0 <= i < |s[1..]| ensures weight(s[1..][i]) <= 1 {
        assert weight(s[i + 1]) <= 1;
      }
      SumAtMostOne(s[1..], weight);
      if Sum(s[1..], weight) > 0 {
        var i := SumPositive(s[1..], weight);
        assert weight(s[i + 1]) > 0;
      }
    }
  }

  /** Before shutdown, while some worker sleeps, there are no more queued tasks than workers
      already on their way to take one, apart from the one task whose producer still holds the
      lock and is about to signal. The adjuster's steps are optional in a run, so its periodic
      signal is not what makes this hold. */
  lemma NoLostWakeup(ss: seq<State>, aa: seq<Action>, k: nat)
    requires Run(ss, aa) && k <= |aa|
    requires !ss[k].shutdown && SomeAsleep(ss[k].workers)
    ensures |ss[k].queue| <= Sum(ss[k].workers, Heading) + 1
    ensures (forall p: nat :: P(p) !in ss[k].lock) ==> |ss[k].queue| <= Sum(ss[k].workers, Heading)
  {
    RunInv(ss, aa, k);
    var s := ss[k];
    forall i, j | 0 <= i < |s.producers| && 0 <= j < |s.producers|
        && SignalPending(s.producers[i]) > 0 && SignalPending(s.producers[j]) > 0
      ensures i == j
    {
      assert P(i) in s.lock && P(j) in s.lock;
    }
    SumAtMostOne(s.producers, SignalPending);
    if Sum(s.producers, SignalPending) > 0 {
      var p := SumPositive(s.producers, SignalPending);
      assert P(p) in s.lock;
    }
  }

  /** No task is stuck beside a sleeping worker: whenever the lock is free, some other worker is
      awake and by its own next four steps, with no signal from anyone, takes the oldest task. */
  lemma NoStuckTask(ss: seq<State>, aa: seq<Action>, k: nat)
    returns (w: nat, s1: State, s2: State, s3: State, s4: State)
    requires Run(ss, aa) && k <= |aa|
    requires !ss[k].shutdown && SomeAsleep(ss[k].workers) && ss[k].lock == {} && ss[k].queue != []
    ensures Next(ss[k], ByWorker(w, WLock), s1) && Next(s1, ByWorker(w, WTest), s2)
    ensures Next(s2, ByWorker(w, WDecide), s3) && Next(s3, ByWorker(w, WPop), s4)
    ensures s4.taken == ss[k].taken + [ss[k].queue[0]]
  {
    RunInv(ss, aa, k);
    NoLostWakeup(ss, aa, k);
    var s := ss[k];
    w := SumPositive(s.workers, Heading);
    assert W(w) !in s.lock;
    s1 := SetWorker(s, w, Testing).(lock := {W(w)});
    s2 := SetWorker(s1, w, Deciding);
    s3 := SetWorker(s2, w, Popping);
    s4 := SetWorker(s3, w, Popped(|s3.taken|)).(queue := s3.queue[1..], taken := s3.taken + [s3.queue[0]]);
  }

  /** Tasks added, in lock order, are the tasks taken followed by the tasks queued; and
      the tasks being carried or run by workers stand at different positions of that order. */
  lemma ConservationAndOrder(ss: seq<State>, aa: seq<Action>, k: nat)
    requires Run(ss, aa) && k <= |aa|
    ensures ss[k].added == ss[k].taken + ss[k].queue
    ensures TicketInv(ss[k])
  {
    RunInv(ss, aa, k);
  }

  ghost predicate Grows(s: State, s': State) {
    && s.added <= s'.added && s.taken <= s'.taken
    && (s.shutdown ==> s'.shutdown && s'.taken == s.taken)
  }

  lemma StepGrows(ss: seq<State>, aa: seq<Action>, k: nat)
    requires Run(ss, aa) && k < |aa|
    ensures Grows(ss[k], ss[k + 1])
  {
    RunInv(ss, aa, k);
    assert Next(ss[k], aa[k], ss[k + 1]);
  }

  lemma {:induction false} GrowsAlong(ss: seq<State>, m: nat, n: nat)
    requires m <= n < |ss|
    requires forall k :: m <= k < n ==> Grows(ss[k], ss[k + 1])
    ensures Grows(ss[m], ss[n])
  {
    if m < n {
      GrowsAlong(ss, m, n - 1);
      assert Grows(ss[n - 1], ss[n - 1 + 1]);
    }
  }

  /** Histories only grow; and once the flag is set nothing more is taken and it stays set. */
  lemma HistoriesGrow(ss: seq<State>, aa: seq<Action>, m: nat, n: nat)
    requires Run(ss, aa) && m <= n <= |aa|
    ensures ss[m].added <= ss[n].added && ss[m].taken <= ss[n].taken
    ensures ss[m].shutdown ==> ss[n].shutdown && ss[n].taken == ss[m].taken
  {
    forall k | m <= k < n ensures Grows(ss[k], ss[k + 1]) {
      StepGrows(ss, aa, k);
    }
    GrowsAlong(ss, m, n);
  }

  // ---------------------------------------------------------------- the critical section of a worker

  /** Where worker w stands since it found the queue, the flag and the history of s0. */
  ghost predicate Within(s0: State, s: State, w: nat) {
    var o := Consume(s0.queue, s0.shutdown);
    && w < |s.workers| && s.shutdown == s0.shutdown
    && (match s.workers[w]
        case Testing => s.queue == s0.queue && s.taken == s0.taken
        case Waiting => s.queue == s0.queue && s.taken == s0.taken && o.Nothing?
        case Deciding => s.queue == s0.queue && s.taken == s0.taken && !o.Nothing?
        case Leaving => s.queue == s0.queue && s.taken == s0.taken && o.Stop?
        case Popping => s.queue == s0.queue && s.taken == s0.taken && o.Got?
        case Popped(k) =>
          o.Got? && s.queue == Leave(s0.queue, s0.shutdown) && s.taken == s0.taken + [o.value] && k == |s0.taken|
        case _ => false)
  }

  /** Other threads do not come in between. */
  lemma OthersStayOut(s: State, a: Action, s': State, w: nat)
    requires LockInv(s) && Next(s, a, s') && W(w) in s.lock && !(a.ByWorker? && a.w == w)
    ensures s'.queue == s.queue && s'.shutdown == s.shutdown && s'.taken == s.taken
    ensures w < |s'.workers| && s'.workers[w] == s.workers[w]
  {
  }

  lemma StaysWithin(s0: State, s: State, a: Action, s': State, w: nat)
    requires LockInv(s) && Within(s0, s, w) && Next(s, a, s') && W(w) in s'.lock
    ensures Within(s0, s', w)
  {
    if !(a.ByWorker? && a.w == w) {
      OthersStayOut(s, a, s', w);
    }
  }

  lemma Enters(s: State, s': State, w: nat)
    requires WorkerNext(s, w, WLock, s')
    ensures Within(s, s', w)
  {
  }

  lemma {:induction false} SectionSoFar(ss: seq<State>, aa: seq<Action>, m: nat, n: nat, w: nat)
    requires Run(ss, aa) && m < n <= |aa| && aa[m] == ByWorker(w, WLock)
    requires forall k :: m < k <= n ==> W(w) in ss[k].lock
    ensures Within(ss[m], ss[n], w)
  {
    hide Init, Within, LockInv, WorkerInv, TicketInv, DestroyInv, SleepInv, WakeupInv;
    hide WorkerNext, ProducerNext, AdjusterNext, DestroyerNext;
    assert Next(ss[n - 1], aa[n - 1], ss[n]);
    if n == m + 1 {
      Enters(ss[m], ss[n], w);
    } else {
      SectionSoFar(ss, aa, m, n - 1, w);
      RunInv(ss, aa, n - 1);
      StaysWithin(ss[m], ss[n - 1], aa[n - 1], ss[n], w);
    }
  }

  /** The steps of a worker between taking the lock and giving it back, whatever other threads do
      meanwhile, are one passage of the kind that the list's method makes: the worker waits, exits or
      leaves with the oldest task as the queue and the flag were when it got the lock, and so is the
      queue. */
  lemma SectionIsTake(ss: seq<State>, aa: seq<Action>, m: nat, n: nat, w: nat)
    requires Run(ss, aa) && m < n < |aa| && aa[m] == ByWorker(w, WLock)
    requires (forall k :: m < k <= n ==> W(w) in ss[k].lock) && W(w) !in ss[n + 1].lock
    ensures ss[n + 1].queue == Leave(ss[m].queue, ss[m].shutdown) && ss[n + 1].shutdown == ss[m].shutdown
    ensures w < |ss[n + 1].workers|
    ensures match Consume(ss[m].queue, ss[m].shutdown)
      case Nothing => ss[n + 1].workers[w] == Asleep && ss[n + 1].taken == ss[m].taken
      case Stop => ss[n + 1].workers[w] == Exited && ss[n + 1].taken == ss[m].taken
      case Got(task) =>
        ss[n + 1].workers[w] == Running(|ss[m].taken|) && ss[n + 1].taken == ss[m].taken + [task]
  {
    SectionSoFar(ss, aa, m, n, w);
    RunInv(ss, aa, n);
    RunInv(ss, aa, n + 1);
    assert Next(ss[n], aa[n], ss[n + 1]);
    if !(aa[n].ByWorker? && aa[n].w == w) {
      OthersStayOut(ss[n], aa[n], ss[n + 1], w);
    }
  }

  // ---------------------------------------------------------------- the periodic signal

  predicate IsSignal(a: Action) {
    a.ByAdjuster? && a.aa.ASignal?
  }

  predicate Signals(aa: seq<Action>, m: nat, n: nat)
    requires n <= |aa|
  {
    exists k :: m < k < n && IsSignal(aa[k])
  }

  lemma SignalsMore(aa: seq<Action>, m: nat, n: nat)
    requires m < n < |aa|
    ensures Signals(aa, m, n + 1) <==> Signals(aa, m, n) || IsSignal(aa[n])
  {
    if Signals(aa, m, n + 1) {
      var k :| m < k < n + 1 && IsSignal(aa[k]);
      assert k == n || Signals(aa, m, n);
    }
  }

  /** Where the adjuster stands, by whether it has signalled since it found the queue of s0. */
  ghost predicate AdjusterWithin(s0: State, s: State, signalled: bool) {
    && s.queue == s0.queue
    && (match s.adjuster
        case Checking => !signalled
        case AdjSignalling => !signalled && s0.queue != []
        case AdjUnlocking => signalled <==> s0.queue != []
        case _ => false)
  }

  lemma AdjusterStaysWithin(s0: State, s: State, a: Action, s': State, signalled: bool)
    requires LockInv(s) && AdjusterWithin(s0, s, signalled) && Next(s, a, s') && Adjust in s'.lock && Adjust in s.lock
    ensures AdjusterWithin(s0, s', signalled || IsSignal(a))
  {
  }

  lemma {:induction false} AdjusterSoFar(ss: seq<State>, aa: seq<Action>, m: nat, n: nat)
    requires Run(ss, aa) && m < n <= |aa| && aa[m] == ByAdjuster(ALock)
    requires forall k :: m < k <= n ==> Adjust in ss[k].lock
    ensures AdjusterWithin(ss[m], ss[n], Signals(aa, m, n))
  {
    hide Init, LockInv, WorkerInv, TicketInv, DestroyInv, SleepInv, WakeupInv;
    hide WorkerNext, ProducerNext, DestroyerNext;
    assert Next(ss[n - 1], aa[n - 1], ss[n]);
    if n > m + 1 {
      AdjusterSoFar(ss, aa, m, n - 1);
      RunInv(ss, aa, n - 1);
      AdjusterStaysWithin(ss[m], ss[n - 1], aa[n - 1], ss[n], Signals(aa, m, n - 1));
      SignalsMore(aa, m, n - 1);
    }
  }

  /** Each time the adjuster has the lock it signals if and only if tasks are queued. */
  lemma AdjusterSection(ss: seq<State>, aa: seq<Action>, m: nat, n: nat)
    requires Run(ss, aa) && m < n < |aa| && aa[m] == ByAdjuster(ALock)
    requires (forall k :: m < k <= n ==> Adjust in ss[k].lock) && Adjust !in ss[n + 1].lock
    ensures ss[n + 1].queue == ss[m].queue && ss[n + 1].adjuster == LoopTest
    ensures Signals(aa, m, n) <==> ss[m].queue != []
  {
    AdjusterSoFar(ss, aa, m, n);
    RunInv(ss, aa, n);
    RunInv(ss, aa, n + 1);
    assert Next(ss[n], aa[n], ss[n + 1]);
  }

  // ---------------------------------------------------------------- tickets

  ghost predicate Holds(s: State, i: nat, ticket: nat) {
    i < |s.workers| && Carries(s.workers[i]) && s.workers[i].ticket == ticket
  }

  lemma WorkerTicketStepBack(s: State, w: nat, a: WorkerAct, s': State, i: nat, ticket: nat)
    requires WorkerNext(s, w, a, s') && Holds(s', i, ticket)
    ensures Holds(s, i, ticket) || ticket == |s.taken|
  {
  }

  lemma TicketStepBack(s: State, a: Action, s': State, i: nat, ticket: nat)
    requires Next(s, a, s') && Holds(s', i, ticket)
    ensures Holds(s, i, ticket) || ticket == |s.taken|
  {
    if a.ByWorker? {
      WorkerTicketStepBack(s, a.w, a.wa, s', i, ticket);
    }
  }

  /** A ticket stays with one worker: whoever hold it at two moments of a run are the same. */
  lemma {:induction false} TicketKeepsWorker(ss: seq<State>, aa: seq<Action>, m: nat, n: nat, i: nat, j: nat,
      ticket: nat)
    requires Run(ss, aa) && m <= n <= |aa|
    requires Holds(ss[m], i, ticket) && Holds(ss[n], j, ticket)
    ensures i == j
  {
    RunInv(ss, aa, m);
    if m < n {
      HistoriesGrow(ss, aa, m, n - 1);
      TicketStepBack(ss[n - 1], aa[n - 1], ss[n], j, ticket);
      TicketKeepsWorker(ss, aa, m, n - 1, i, j, ticket);
    }
  }

  /** And once put down it is never picked up again. With the lemma before, no task runs twice. */
  lemma {:induction false} TicketNeverReturns(ss: seq<State>, aa: seq<Action>, m: nat, n: nat, i: nat, ticket: nat)
    requires Run(ss, aa) && m <= n <= |aa|
    requires ticket < |ss[m].taken| && forall j: nat :: !Holds(ss[m], j, ticket)
    ensures !Holds(ss[n], i, ticket)
  {
    if m < n && Holds(ss[n], i, ticket) {
      HistoriesGrow(ss, aa, m, n - 1);
      TicketStepBack(ss[n - 1], aa[n - 1], ss[n], i, ticket);
      TicketNeverReturns(ss, aa, m, n - 1, i, ticket);
    }
  }

  // ---------------------------------------------------------------- shutdown

  function WorkerRank(pc: Worker): nat {
    match pc
    case Exited => 0
    case Leaving => 2
    case Deciding => 3
    case Testing => 4
    case Locking => 5
    case Woken => 5
    case _ => 6
  }

  function ProducerRank(pc: Producer): nat {
    match pc
    case Idle => 0
    case AddUnlocking => 1
    case Signalling => 2
    case Appending(_) => 3
    case AddLocking(_) => 4
  }

  function AdjusterRank(pc: Adjuster): nat {
    match pc
    case AdjDone => 0
    case LoopTest => 1
    case AdjUnlocking => 2
    case AdjSignalling => 3
    case Checking => 4
    case AdjLocking => 5
    case Sleeping => 6
  }

  function DestroyerRank(pc: Destroyer, workers: nat): nat {
    match pc
    case Destroyed => 0
    case JoiningAdjust => 1
    case Joining(k) => if k <= workers then workers - k + 2 else 0
    case Broadcasting => workers + 3
    case _ => workers + 4
  }

  function Measure(s: State): nat {
    Sum(s.workers, WorkerRank) + Sum(s.producers, ProducerRank)
    + AdjusterRank(s.adjuster) + DestroyerRank(s.destroyer, |s.workers|)
  }

  lemma WakeRanks(workers: seq<Worker>, wake: set<nat>)
    requires forall i :: i in wake ==> i < |workers| && workers[i] == Asleep
    ensures Sum(WakeAll(workers, wake), WorkerRank) <= Sum(workers, WorkerRank)
  {
    SumMonotone(WakeAll(workers, wake), workers, WorkerRank);
  }

  lemma WorkerLowersMeasure(s: State, w: nat, a: WorkerAct, s': State)
    requires WorkerInv(s) && s.shutdown && WorkerNext(s, w, a, s')
    ensures Measure(s') < Measure(s)
  {
    SumUpdate(s.workers, w, s'.workers[w], WorkerRank);
    assert s'.workers == s.workers[w := s'.workers[w]];
  }

  lemma ProducerLowersMeasure(s: State, p: nat, a: ProducerAct, s': State)
    requires ProducerNext(s, p, a, s') && !a.PStart?
    ensures Measure(s') < Measure(s)
  {
    SumUpdate(s.producers, p, s'.producers[p], ProducerRank);
    assert s'.producers == s.producers[p := s'.producers[p]];
    if a.PSignal? {
      WakeRanks(s.workers, a.wake);
    }
  }

  lemma AdjusterLowersMeasure(s: State, a: AdjusterAct, s': State)
    requires s.shutdown && AdjusterNext(s, a, s')
    ensures Measure(s') < Measure(s)
  {
    if a.ASignal? {
      WakeRanks(s.workers, a.wake);
    }
  }

  lemma DestroyerLowersMeasure(s: State, a: DestroyerAct, s': State)
    requires DestroyInv(s) && s.shutdown && DestroyerNext(s, a, s')
    ensures Measure(s') < Measure(s)
  {
    WakeRanks(s.workers, Sleepers(s.workers));
  }

  /** After the flag is set every step except a new call of threadpool_add lowers the measure. */
  lemma ShutdownProgress(s: State, a: Action, s': State)
    requires Inv(s) && s.shutdown && Next(s, a, s') && !a.StartsAdd()
    ensures Measure(s') < Measure(s)
  {
    match a
    case ByWorker(w, wa) => WorkerLowersMeasure(s, w, wa, s');
    case ByProducer(p, pa) => ProducerLowersMeasure(s, p, pa, s');
    case ByAdjuster(aa) => AdjusterLowersMeasure(s, aa, s');
    case ByDestroyer(da) => DestroyerLowersMeasure(s, da, s');
  }

  /** The lock's holder can always go on to release it. */
  lemma HolderCanStep(s: State, t: Thread) returns (a: Action, s': State)
    requires Inv(s) && t in s.lock
    ensures Next(s, a, s') && !a.StartsAdd()
  {
    match t
    case W(w) =>
      match s.workers[w] {
        case Testing =>
          a := ByWorker(w, WTest);
          s' := SetWorker(s, w, if s.queue == [] && !s.shutdown then Waiting else Deciding);
        case Waiting => a := ByWorker(w, WWait); s' := SetWorker(s, w, Asleep).(lock := {});
        case Deciding => a := ByWorker(w, WDecide); s' := SetWorker(s, w, if s.shutdown then Leaving else Popping);
        case Popping =>
          a := ByWorker(w, WPop);
          s' := SetWorker(s, w, Popped(|s.taken|)).(queue := s.queue[1..], taken := s.taken + [s.queue[0]]);
        case Popped(k) => a := ByWorker(w, WUnlock); s' := SetWorker(s, w, Running(k)).(lock := {});
        case Leaving => a := ByWorker(w, WLeave); s' := SetWorker(s, w, Exited).(lock := {});
      }
    case P(p) =>
      match s.producers[p] {
        case Appending(task) =>
          a := ByProducer(p, PAppend);
          s' := SetProducer(s, p, Signalling).(queue := s.queue + [task], added := s.added + [task]);
        case Signalling =>
          a := ByProducer(p, PSignal(Sleepers(s.workers)));
          SleepersValid(s.workers);
          s' := SetProducer(s, p, AddUnlocking).(workers := WakeAll(s.workers, Sleepers(s.workers)));
        case AddUnlocking => a := ByProducer(p, PUnlock); s' := SetProducer(s, p, Idle).(lock := {});
      }
    case Adjust =>
      match s.adjuster {
        case Checking =>
          a := ByAdjuster(ACheck);
          s' := s.(adjuster := if s.queue != [] then AdjSignalling else AdjUnlocking);
        case AdjSignalling =>
          a := ByAdjuster(ASignal(Sleepers(s.workers)));
          SleepersValid(s.workers);
          s' := s.(adjuster := AdjUnlocking, workers := WakeAll(s.workers, Sleepers(s.workers)));
        case AdjUnlocking => a := ByAdjuster(AUnlock); s' := s.(adjuster := LoopTest, lock := {});
      }
    case Destroy =>
      if s.destroyer.Setting? {
        a, s' := ByDestroyer(DSet), s.(destroyer := DesUnlocking, shutdown := true);
      } else {
        a, s' := ByDestroyer(DUnlock), s.(destroyer := Broadcasting, lock := {});
      }
  }

  lemma SleepersValid(workers: seq<Worker>)
    ensures ValidWake(workers, Sleepers(workers))
  {
    if SomeAsleep(workers) {
      var i :| 0 <= i < |workers| && workers[i] == Asleep;
      assert i in Sleepers(workers);
    }
  }

  /** After the flag is set the pool is never stuck: until threadpool_destroy has returned, some
      thread other than a new caller of threadpool_add can move. */
  lemma ShutdownNeverStuck(s: State) returns (a: Action, s': State)
    requires Inv(s) && s.shutdown && s.destroyer != Destroyed
    ensures Next(s, a, s') && !a.StartsAdd()
  {
    if t :| t in s.lock {
      a, s' := HolderCanStep(s, t);
    } else if s.destroyer.Broadcasting? {
      a, s' := ByDestroyer(DBroadcast), s.(destroyer := Joining(0), workers := WakeAll(s.workers, Sleepers(s.workers)));
    } else if w :| 0 <= w < |s.workers| && s.workers[w] != Exited {
      assert W(w) !in s.lock;
      if s.workers[w].Running? {
        a, s' := ByWorker(w, WFinish), SetWorker(s, w, Locking);
      } else {
        assert s.workers[w] != Asleep;
        a, s' := ByWorker(w, WLock), SetWorker(s, w, Testing).(lock := {W(w)});
      }
    } else if s.destroyer.Joining? {
      var k := s.destroyer.next;
      a, s' := ByDestroyer(DJoin), s.(destroyer := if k < |s.workers| then Joining(k + 1) else JoiningAdjust);
    } else {
      assert s.destroyer.JoiningAdjust?;
      match s.adjuster
      case AdjDone => a, s' := ByDestroyer(DJoinAdjust), s.(destroyer := Destroyed);
      case LoopTest => a, s' := ByAdjuster(ATest), s.(adjuster := AdjDone);
      case Sleeping => a, s' := ByAdjuster(AWake), s.(adjuster := AdjLocking);
      case AdjLocking => a, s' := ByAdjuster(ALock), s.(adjuster := Checking, lock := {Adjust});
    }
  }

  lemma {:induction false} ShutdownSteps(ss: seq<State>, aa: seq<Action>, m: nat, n: nat)
    requires Run(ss, aa) && m <= n <= |aa| && ss[m].shutdown
    requires forall k :: m <= k < n ==> !aa[k].StartsAdd()
    ensures ss[n].shutdown && Measure(ss[n]) + (n - m) <= Measure(ss[m])
  {
    if m < n {
      ShutdownSteps(ss, aa, m, n - 1);
      RunInv(ss, aa, n - 1);
      ShutdownProgress(ss[n - 1], aa[n - 1], ss[n]);
      HistoriesGrow(ss, aa, n - 1, n);
    }
  }

  /** Shutdown reaches every worker. From the moment the flag is set, a run in which no new
      threadpool_add starts has a bounded number of steps left; where it cannot go on,
      threadpool_destroy has returned, and then every worker and the adjuster have exited. */
  lemma ShutdownReachesEveryWorker(ss: seq<State>, aa: seq<Action>, m: nat)
    requires Run(ss, aa) && m <= |aa| && ss[m].shutdown
    requires forall k :: m <= k < |aa| ==> !aa[k].StartsAdd()
    ensures |aa| - m <= 7 * |ss[m].workers| + 4 * |ss[m].producers| + 10
    ensures (forall a, s' :: Next(ss[|aa|], a, s') ==> a.StartsAdd()) ==> ss[|aa|].destroyer == Destroyed
    ensures ss[|aa|].destroyer == Destroyed ==>
      && ss[|aa|].adjuster == AdjDone
      && forall i :: 0 <= i < |ss[|aa|].workers| ==> ss[|aa|].workers[i] == Exited
  {
    var n := |aa|;
    ShutdownSteps(ss, aa, m, n);
    SumBound(ss[m].workers, WorkerRank, 6);
    SumBound(ss[m].producers, ProducerRank, 4);
    RunInv(ss, aa, n);
    if ss[n].destroyer != Destroyed {
      var a, s' := ShutdownNeverStuck(ss[n]);
    }
  }

  /** Once the flag is set no worker falls asleep, and after the broadcast none is asleep. */
  lemma NoSleepAfterShutdown(ss: seq<State>, aa: seq<Action>, k: nat)
    requires Run(ss, aa) && k < |aa| && ss[k].shutdown
    ensures Sleepers(ss[k + 1].workers) <= Sleepers(ss[k].workers)
    ensures SomeAsleep(ss[k].workers) ==> ss[k].destroyer.DesUnlocking? || ss[k].destroyer.Broadcasting?
  {
    RunInv(ss, aa, k);
    assert Next(ss[k], aa[k], ss[k + 1]);
  }
}
