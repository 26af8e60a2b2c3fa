/** The lock and condition variable protocol of tools/bqueue.c, for any number of blocking
    removers, non-blocking removers ("pollers") and inserters. Unlike the thread pool, an
    inserter signals after it has released the lock, so other threads can act in between. */
module BQueueProtocol {
  import opened Sums
  import opened Consumption

  datatype Remover =
    | RIdle
    | RLocking             // line 123
    | RTesting             // line 124, lock held
    | RWaiting             // line 125, lock held, about to wait
    | RAsleep              // line 125, inside pthread_cond_wait
    | RWoken               // line 125, wants the lock back
    | RDeciding            // line 127, lock held
    | RDequeuing           // line 131, lock held
    | RUnlocking           // lines 128 and 132, lock held

  datatype Poller =
    | QIdle
    | QLocking             // line 102
    | QTesting             // lines 103-107, lock held
    | QDequeuing           // line 111, lock held
    | QUnlocking           // lines 104, 108 and 112, lock held

  datatype Inserter =
    | IIdle
    | ILocking(data: int)  // line 87
    | IAppending(data: int) // line 88, lock held
    | IUnlocking           // line 89, lock held
    | ISignalling          // line 90, lock released

  datatype Destroyer =
    | DNotCalled
    | DLocking             // line 72
    | DSetting             // line 73, lock held
    | DBroadcasting        // line 74, lock held
    | DUnlocking           // line 75, lock held
    | DDone

  datatype Thread = R(r: nat) | Q(q: nat) | I(i: nat) | D

  datatype State = State(
    removers: seq<Remover>,
    pollers: seq<Poller>,
    inserters: seq<Inserter>,
    destroyer: Destroyer,
    lock: set<Thread>,
    queue: seq<int>,
    shutdown: bool,
    inserted: seq<int>,    // history, in the order of the appends
    removed: seq<int>)     // history, in the order of the removals

  datatype RemoverAct = RCall | RLock | RTest | RWait | RSpurious | RDecide | RDequeue | RUnlock
  datatype PollerAct = QCall | QLock | QTest | QDequeue | QUnlock
  datatype InserterAct = ICall(data: int) | ILock | IAppend | IUnlock | ISignal(wake: set<nat>)
  datatype DestroyerAct = DCall | DLock | DSet | DBroadcast | DUnlock

  datatype Action =
    | ByRemover(r: nat, ra: RemoverAct)
    | ByPoller(p: nat, pa: PollerAct)
    | ByInserter(i: nat, ia: InserterAct)
    | ByDestroyer(da: DestroyerAct)
  {
    /** A new call of one of the functions on values. */
    predicate StartsCall() {
      (ByRemover? && ra.RCall?) || (ByPoller? && pa.QCall?) || (ByInserter? && ia.ICall?)
    }
  }

  ghost predicate Init(s: State) {
    && (forall k :: 0 <= k < |s.removers| ==> s.removers[k] == RIdle)
    && (forall k :: 0 <= k < |s.pollers| ==> s.pollers[k] == QIdle)
    && (forall k :: 0 <= k < |s.inserters| ==> s.inserters[k] == IIdle)
    && s.destroyer == DNotCalled && s.lock == {} && s.queue == [] && !s.shutdown
    && s.inserted == [] && s.removed == []
  }

  function SetRemover(s: State, r: nat, pc: Remover): State
    requires r < |s.removers|
  {
    s.(removers := s.removers[r := pc])
  }

  function SetPoller(s: State, p: nat, pc: Poller): State
    requires p < |s.pollers|
  {
    s.(pollers := s.pollers[p := pc])
  }

  function SetInserter(s: State, i: nat, pc: Inserter): State
    requires i < |s.inserters|
  {
    s.(inserters := s.inserters[i := pc])
  }

  ghost predicate SomeAsleep(removers: seq<Remover>) {
    exists k :: 0 <= k < |removers| && removers[k] == RAsleep
  }

  ghost predicate ValidWake(removers: seq<Remover>, wake: set<nat>) {
    && (forall k :: k in wake ==> k < |removers| && removers[k] == RAsleep)
    && (SomeAsleep(removers) ==> wake != {})
  }

  function WakeAll(removers: seq<Remover>, wake: set<nat>): (w: seq<Remover>)
    ensures |w| == |removers|
    ensures forall k :: 0 <= k < |w| ==> w[k] == if k in wake then RWoken else removers[k]
  {
    seq(|removers|, k requires 0 <= k < |removers| => if k in wake then RWoken else removers[k])
  }

  function Sleepers(removers: seq<Remover>): set<nat> {
    set k: nat | k < |removers| && removers[k] == RAsleep
  }

  ghost predicate RemoverNext(s: State, r: nat, a: RemoverAct, s': State) {
    r < |s.removers| &&
    var pc := s.removers[r];
    match a
    case RCall =>
      pc == RIdle && s' == SetRemover(s, r, RLocking)
    case RLock =>
      (pc == RLocking || pc == RWoken) && s.lock == {} && s' == SetRemover(s, r, RTesting).(lock := {R(r)})
    case RTest =>
      pc == RTesting && s' == SetRemover(s, r, if s.queue == [] && !s.shutdown then RWaiting else RDeciding)
    case RWait =>
      pc == RWaiting && s' == SetRemover(s, r, RAsleep).(lock := {})
    case RSpurious =>
      pc == RAsleep && s' == SetRemover(s, r, RWoken)
    case RDecide =>
      pc == RDeciding && s' == SetRemover(s, r, if s.shutdown then RUnlocking else RDequeuing)
    case RDequeue =>
      && pc == RDequeuing && s.queue != []
      && s' == SetRemover(s, r, RUnlocking).(queue := s.queue[1..], removed := s.removed + [s.queue[0]])
    case RUnlock =>
      pc == RUnlocking && s' == SetRemover(s, r, RIdle).(lock := {})
  }

  ghost predicate PollerNext(s: State, p: nat, a: PollerAct, s': State) {
    p < |s.pollers| &&
    var pc := s.pollers[p];
    match a
    case QCall =>
      pc == QIdle && s' == SetPoller(s, p, QLocking)
    case QLock =>
      pc == QLocking && s.lock == {} && s' == SetPoller(s, p, QTesting).(lock := {Q(p)})
    case QTest =>
      pc == QTesting && s' == SetPoller(s, p, if s.shutdown || s.queue == [] then QUnlocking else QDequeuing)
    case QDequeue =>
      && pc == QDequeuing && s.queue != []
      && s' == SetPoller(s, p, QUnlocking).(queue := s.queue[1..], removed := s.removed + [s.queue[0]])
    case QUnlock =>
      pc == QUnlocking && s' == SetPoller(s, p, QIdle).(lock := {})
  }

  ghost predicate InserterNext(s: State, i: nat, a: InserterAct, s': State) {
    i < |s.inserters| &&
    var pc := s.inserters[i];
    match a
    case ICall(data) =>
      pc == IIdle && s' == SetInserter(s, i, ILocking(data))
    case ILock =>
      pc.ILocking? && s.lock == {} && s' == SetInserter(s, i, IAppending(pc.data)).(lock := {I(i)})
    case IAppend =>
      && pc.IAppending?
      && s' == SetInserter(s, i, IUnlocking).(queue := s.queue + [pc.data], inserted := s.inserted + [pc.data])
    case IUnlock =>
      pc == IUnlocking && s' == SetInserter(s, i, ISignalling).(lock := {})
    case ISignal(wake) =>
      && pc == ISignalling && ValidWake(s.removers, wake)
      && s' == SetInserter(s, i, IIdle).(removers := WakeAll(s.removers, wake))
  }

  ghost predicate DestroyerNext(s: State, a: DestroyerAct, s': State) {
    match a
    case DCall =>
      s.destroyer == DNotCalled && s' == s.(destroyer := DLocking)
    case DLock =>
      s.destroyer == DLocking && s.lock == {} && s' == s.(destroyer := DSetting, lock := {D})
    case DSet =>
      s.destroyer == DSetting && s' == s.(destroyer := DBroadcasting, shutdown := true)
    case DBroadcast =>
      && s.destroyer == DBroadcasting
      && s' == s.(destroyer := DUnlocking, removers := WakeAll(s.removers, Sleepers(s.removers)))
    case DUnlock =>
      s.destroyer == DUnlocking && s' == s.(destroyer := DDone, lock := {})
  }

  ghost predicate Next(s: State, a: Action, s': State) {
    match a
    case ByRemover(r, ra) => RemoverNext(s, r, ra, s')
    case ByPoller(p, pa) => PollerNext(s, p, pa, s')
    case ByInserter(i, ia) => InserterNext(s, i, ia, s')
    case ByDestroyer(da) => DestroyerNext(s, da, s')
  }

  // ---------------------------------------------------------------- invariants

  predicate RemoverHolds(pc: Remover) {
    pc.RTesting? || pc.RWaiting? || pc.RDeciding? || pc.RDequeuing? || pc.RUnlocking?
  }

  predicate PollerHolds(pc: Poller) {
    pc.QTesting? || pc.QDequeuing? || pc.QUnlocking?
  }

  predicate InserterHolds(pc: Inserter) {
    pc.IAppending? || pc.IUnlocking?
  }

  predicate DestroyerHolds(pc: Destroyer) {
    pc.DSetting? || pc.DBroadcasting? || pc.DUnlocking?
  }

  ghost predicate LockInv(s: State) {
    && (forall k: nat :: R(k) in s.lock <==> k < |s.removers| && RemoverHolds(s.removers[k]))
    && (forall k: nat :: Q(k) in s.lock <==> k < |s.pollers| && PollerHolds(s.pollers[k]))
    && (forall k: nat :: I(k) in s.lock <==> k < |s.inserters| && InserterHolds(s.inserters[k]))
    && (D in s.lock <==> DestroyerHolds(s.destroyer))
    && (forall t, u :: t in s.lock && u in s.lock ==> t == u)
  }

  /** What a thread inside the critical section knows. In particular dequeue is only reached
      with something to dequeue, so it never returns NULL. */
  ghost predicate LocalInv(s: State) {
    && (forall k :: 0 <= k < |s.removers| ==>
          match s.removers[k]
          case RWaiting => s.queue == [] && !s.shutdown
          case RDeciding => s.queue != [] || s.shutdown
          case RDequeuing => s.queue != [] && !s.shutdown
          case _ => true)
    && (forall k :: 0 <= k < |s.pollers| && s.pollers[k].QDequeuing? ==> s.queue != [] && !s.shutdown)
  }

  ghost predicate ShutdownInv(s: State) {
    && (s.shutdown <==> s.destroyer.DBroadcasting? || s.destroyer.DUnlocking? || s.destroyer.DDone?)
    && (s.shutdown && SomeAsleep(s.removers) ==> s.destroyer.DBroadcasting?)
  }

  /** Weight one for a remover on its way to the lock, or inside and about to dequeue. */
  function Heading(pc: Remover): nat {
    if pc.RLocking? || pc.RWoken? || pc.RTesting? || pc.RDeciding? || pc.RDequeuing? then 1 else 0
  }

  /** Weight one for an inserter that has appended and not yet signalled. */
  function SignalPending(pc: Inserter): nat {
    if pc.IUnlocking? || pc.ISignalling? then 1 else 0
  }

  ghost predicate WakeupInv(s: State) {
    !s.shutdown && SomeAsleep(s.removers) ==>
      |s.queue| <= Sum(s.removers, Heading) + Sum(s.inserters, SignalPending)
  }

  ghost predicate Inv(s: State) {
    && LockInv(s) && LocalInv(s) && ShutdownInv(s) && WakeupInv(s)
    && s.inserted == s.removed + s.queue
  }

  lemma InitInv(s: State)
    requires Init(s)
    ensures Inv(s)
  {
  }

  lemma WakeCounts(removers: seq<Remover>, wake: set<nat>)
    requires ValidWake(removers, wake)
    ensures Sum(removers, Heading) <= Sum(WakeAll(removers, wake), Heading)
    ensures SomeAsleep(removers) ==> Sum(removers, Heading) < Sum(WakeAll(removers, wake), Heading)
  {
    SumMonotone(removers, WakeAll(removers, wake), Heading);
    if SomeAsleep(removers) {
      var k :| k in wake;
      assert Heading(removers[k]) < Heading(WakeAll(removers, wake)[k]);
    }
  }

  lemma RemoverKeepsLock(s: State, r: nat, a: RemoverAct, s': State)
    requires LockInv(s) && RemoverNext(s, r, a, s')
    ensures LockInv(s')
  {
  }

  lemma RemoverKeepsLocals(s: State, r: nat, a: RemoverAct, s': State)
    requires LockInv(s) && LocalInv(s) && ShutdownInv(s) && RemoverNext(s, r, a, s')
    ensures LocalInv(s')
  {
  }

  lemma RemoverKeepsShutdown(s: State, r: nat, a: RemoverAct, s': State)
    requires LockInv(s) && LocalInv(s) && ShutdownInv(s) && RemoverNext(s, r, a, s')
    ensures ShutdownInv(s')
  {
  }

  lemma RemoverKeepsWakeup(s: State, r: nat, a: RemoverAct, s': State)
    requires LocalInv(s) && WakeupInv(s) && RemoverNext(s, r, a, s')
    ensures WakeupInv(s')
  {
    SumUpdate(s.removers, r, s'.removers[r], Heading);
    assert s'.removers == s.removers[r := s'.removers[r]];
    if SomeAsleep(s'.removers) && !SomeAsleep(s.removers) {
      assert a.RWait?;
    }
  }

  lemma RemoverKeeps(s: State, r: nat, a: RemoverAct, s': State)
    requires Inv(s) && RemoverNext(s, r, a, s')
    ensures Inv(s')
  {
    RemoverKeepsLock(s, r, a, s');
    RemoverKeepsLocals(s, r, a, s');
    RemoverKeepsShutdown(s, r, a, s');
    RemoverKeepsWakeup(s, r, a, s');
  }

  lemma PollerKeepsLock(s: State, p: nat, a: PollerAct, s': State)
    requires LockInv(s) && PollerNext(s, p, a, s')
    ensures LockInv(s')
  {
  }

  lemma PollerKeepsLocals(s: State, p: nat, a: PollerAct, s': State)
    requires LockInv(s) && LocalInv(s) && ShutdownInv(s) && PollerNext(s, p, a, s')
    ensures LocalInv(s')
  {
  }

  lemma PollerKeepsShutdown(s: State, p: nat, a: PollerAct, s': State)
    requires LockInv(s) && LocalInv(s) && ShutdownInv(s) && PollerNext(s, p, a, s')
    ensures ShutdownInv(s')
  {
  }

  lemma PollerKeepsWakeup(s: State, p: nat, a: PollerAct, s': State)
    requires LocalInv(s) && WakeupInv(s) && PollerNext(s, p, a, s')
    ensures WakeupInv(s')
  {
  }

  lemma PollerKeeps(s: State, p: nat, a: PollerAct, s': State)
    requires Inv(s) && PollerNext(s, p, a, s')
    ensures Inv(s')
  {
    PollerKeepsLock(s, p, a, s');
    PollerKeepsLocals(s, p, a, s');
    PollerKeepsShutdown(s, p, a, s');
    PollerKeepsWakeup(s, p, a, s');
  }

  lemma InserterKeepsLock(s: State, i: nat, a: InserterAct, s': State)
    requires LockInv(s) && InserterNext(s, i, a, s')
    ensures LockInv(s')
  {
  }

  lemma InserterKeepsLocals(s: State, i: nat, a: InserterAct, s': State)
    requires LockInv(s) && LocalInv(s) && ShutdownInv(s) && InserterNext(s, i, a, s')
    ensures LocalInv(s')
  {
  }

  lemma InserterKeepsShutdown(s: State, i: nat, a: InserterAct, s': State)
    requires LockInv(s) && LocalInv(s) && ShutdownInv(s) && InserterNext(s, i, a, s')
    ensures ShutdownInv(s')
  {
  }

  lemma InserterKeepsWakeup(s: State, i: nat, a: InserterAct, s': State)
    requires LocalInv(s) && WakeupInv(s) && InserterNext(s, i, a, s')
    ensures WakeupInv(s')
  {
    SumUpdate(s.inserters, i, s'.inserters[i], SignalPending);
    assert s'.inserters == s.inserters[i := s'.inserters[i]];
    if a.ISignal? {
      WakeCounts(s.removers, a.wake);
    }
  }

  lemma InserterKeeps(s: State, i: nat, a: InserterAct, s': State)
    requires Inv(s) && InserterNext(s, i, a, s')
    ensures Inv(s')
  {
    InserterKeepsLock(s, i, a, s');
    InserterKeepsLocals(s, i, a, s');
    InserterKeepsShutdown(s, i, a, s');
    InserterKeepsWakeup(s, i, a, s');
  }

  lemma DestroyerKeepsLock(s: State, a: DestroyerAct, s': State)
    requires LockInv(s) && DestroyerNext(s, a, s')
    ensures LockInv(s')
  {
  }

  lemma DestroyerKeepsLocals(s: State, a: DestroyerAct, s': State)
    requires LockInv(s) && LocalInv(s) && ShutdownInv(s) && DestroyerNext(s, a, s')
    ensures LocalInv(s')
  {
  }

  lemma DestroyerKeepsShutdown(s: State, a: DestroyerAct, s': State)
    requires LockInv(s) && LocalInv(s) && ShutdownInv(s) && DestroyerNext(s, a, s')
    ensures ShutdownInv(s')
  {
  }

  lemma DestroyerKeepsWakeup(s: State, a: DestroyerAct, s': State)
    requires LocalInv(s) && WakeupInv(s) && DestroyerNext(s, a, s')
    ensures WakeupInv(s')
  {
  }

  lemma DestroyerKeeps(s: State, a: DestroyerAct, s': State)
    requires Inv(s) && DestroyerNext(s, a, s')
    ensures Inv(s')
  {
    DestroyerKeepsLock(s, a, s');
    DestroyerKeepsLocals(s, a, s');
    DestroyerKeepsShutdown(s, a, s');
    DestroyerKeepsWakeup(s, a, s');
  }

  lemma StepInv(s: State, a: Action, s': State)
    requires Inv(s) && Next(s, a, s')
    ensures Inv(s')
  {
    match a
    case ByRemover(r, ra) => RemoverKeeps(s, r, ra, s');
    case ByPoller(p, pa) => PollerKeeps(s, p, pa, s');
    case ByInserter(i, ia) => InserterKeeps(s, i, ia, s');
    case ByDestroyer(da) => DestroyerKeeps(s, da, s');
  }

  // ---------------------------------------------------------------- runs

  ghost predicate Run(ss: seq<State>, aa: seq<Action>) {
    && |ss| == |aa| + 1
    && Init(ss[0])
    && forall k :: 0 <= k < |aa| ==> Next(ss[k], aa[k], ss[k + 1])
  }

  lemma {:induction false} RunInv(ss: seq<State>, aa: seq<Action>, k: nat)
    requires Run(ss, aa) && k <= |aa|
    ensures Inv(ss[k])
  {
    if k == 0 {
      InitInv(ss[0]);
    } else {
      RunInv(ss, aa, k - 1);
      StepInv(ss[k - 1], aa[k - 1], ss[k]);
    }
  }

  /** Before shutdown, while some remover sleeps, there are no more queued values than removers
      heading for the lock plus inserters that still owe their signal, whatever the
      non-blocking removers take meanwhile. */
  lemma NoLostWakeup(ss: seq<State>, aa: seq<Action>, k: nat)
    requires Run(ss, aa) && k <= |aa|
    requires !ss[k].shutdown && SomeAsleep(ss[k].removers)
    ensures |ss[k].queue| <= Sum(ss[k].removers, Heading) + Sum(ss[k].inserters, SignalPending)
  {
    RunInv(ss, aa, k);
  }

  /** So once every signal has been sent, no value is stuck beside a sleeping remover: when the
      lock is free another remover is awake and removes the oldest value by its own steps. */
  lemma NoStuckValue(ss: seq<State>, aa: seq<Action>, k: nat)
    returns (r: nat, s1: State, s2: State, s3: State, s4: State)
    requires Run(ss, aa) && k <= |aa|
    requires !ss[k].shutdown && SomeAsleep(ss[k].removers) && ss[k].lock == {} && ss[k].queue != []
    requires forall i :: 0 <= i < |ss[k].inserters| ==> !ss[k].inserters[i].ISignalling?
    ensures Next(ss[k], ByRemover(r, RLock), s1) && Next(s1, ByRemover(r, RTest), s2)
    ensures Next(s2, ByRemover(r, RDecide), s3) && Next(s3, ByRemover(r, RDequeue), s4)
    ensures s4.removed == ss[k].removed + [ss[k].queue[0]]
  {
    RunInv(ss, aa, k);
    var s := ss[k];
    if Sum(s.inserters, SignalPending) > 0 {
      var i := SumPositive(s.inserters, SignalPending);
      assert false;
    }
    r := SumPositive(s.removers, Heading);
    assert R(r) !in s.lock;
    s1 := SetRemover(s, r, RTesting).(lock := {R(r)});
    s2 := SetRemover(s1, r, RDeciding);
    s3 := SetRemover(s2, r, RDequeuing);
    s4 := SetRemover(s3, r, RUnlocking).(queue := s3.queue[1..], removed := s3.removed + [s3.queue[0]]);
  }

  /** Values are removed in the order of insertion, none is lost and none is removed twice; a
      thread about to dequeue always has something to dequeue. */
  lemma ConservationAndOrder(ss: seq<State>, aa: seq<Action>, k: nat)
    requires Run(ss, aa) && k <= |aa|
    ensures ss[k].inserted == ss[k].removed + ss[k].queue
    ensures LocalInv(ss[k])
  {
    RunInv(ss, aa, k);
  }

  /** Nothing is removed once the flag is set, and a remover that still sleeps then is about to
      be woken by the broadcast, which is sent before the lock is released. */
  lemma ShutdownStopsRemovals(ss: seq<State>, aa: seq<Action>, k: nat)
    requires Run(ss, aa) && k < |aa| && ss[k].shutdown
    ensures ss[k + 1].shutdown && ss[k + 1].removed == ss[k].removed
    ensures Sleepers(ss[k + 1].removers) <= Sleepers(ss[k].removers)
    ensures D !in ss[k].lock ==> !SomeAsleep(ss[k].removers)
  {
    RunInv(ss, aa, k);
    assert Next(ss[k], aa[k], ss[k + 1]);
  }

  // ---------------------------------------------------------------- shutdown

  function RemoverRank(pc: Remover): nat {
    match pc
    case RIdle => 0
    case RUnlocking => 1
    case RDequeuing => 2
    case RDeciding => 2
    case RTesting => 3
    case RLocking => 4
    case RWoken => 4
    case _ => 5
  }

  function PollerRank(pc: Poller): nat {
    match pc
    case QIdle => 0
    case QUnlocking => 1
    case QDequeuing => 2
    case QTesting => 3
    case QLocking => 4
  }

  function InserterRank(pc: Inserter): nat {
    match pc
    case IIdle => 0
    case ISignalling => 1
    case IUnlocking => 2
    case IAppending(_) => 3
    case ILocking(_) => 4
  }

  function DestroyerRank(pc: Destroyer): nat {
    match pc
    case DDone => 0
    case DUnlocking => 1
    case _ => 2
  }

  function Measure(s: State): nat {
    Sum(s.removers, RemoverRank) + Sum(s.pollers, PollerRank) + Sum(s.inserters, InserterRank)
    + DestroyerRank(s.destroyer)
  }

  lemma WakeRanks(removers: seq<Remover>, wake: set<nat>)
    requires forall k :: k in wake ==> k < |removers| && removers[k] == RAsleep
    ensures Sum(WakeAll(removers, wake), RemoverRank) <= Sum(removers, RemoverRank)
  {
    SumMonotone(WakeAll(removers, wake), removers, RemoverRank);
  }

  lemma RemoverLowersMeasure(s: State, r: nat, a: RemoverAct, s': State)
    requires LocalInv(s) && s.shutdown && RemoverNext(s, r, a, s') && !a.RCall?
    ensures Measure(s') < Measure(s)
  {
    SumUpdate(s.removers, r, s'.removers[r], RemoverRank);
    assert s'.removers == s.removers[r := s'.removers[r]];
  }

  lemma PollerLowersMeasure(s: State, p: nat, a: PollerAct, s': State)
    requires PollerNext(s, p, a, s') && !a.QCall?
    ensures Measure(s') < Measure(s)
  {
    SumUpdate(s.pollers, p, s'.pollers[p], PollerRank);
    assert s'.pollers == s.pollers[p := s'.pollers[p]];
  }

  lemma InserterLowersMeasure(s: State, i: nat, a: InserterAct, s': State)
    requires InserterNext(s, i, a, s') && !a.ICall?
    ensures Measure(s') < Measure(s)
  {
    SumUpdate(s.inserters, i, s'.inserters[i], InserterRank);
    assert s'.inserters == s.inserters[i := s'.inserters[i]];
    if a.ISignal? {
      WakeRanks(s.removers, a.wake);
    }
  }

  lemma DestroyerLowersMeasure(s: State, a: DestroyerAct, s': State)
    requires ShutdownInv(s) && s.shutdown && DestroyerNext(s, a, s')
    ensures Measure(s') < Measure(s)
  {
    WakeRanks(s.removers, Sleepers(s.removers));
  }

  /** After the flag is set every step except a new call lowers the measure. */
  lemma ShutdownProgress(s: State, a: Action, s': State)
    requires Inv(s) && s.shutdown && Next(s, a, s') && !a.StartsCall()
    ensures Measure(s') < Measure(s)
  {
    match a
    case ByRemover(r, ra) => RemoverLowersMeasure(s, r, ra, s');
    case ByPoller(p, pa) => PollerLowersMeasure(s, p, pa, s');
    case ByInserter(i, ia) => InserterLowersMeasure(s, i, ia, s');
    case ByDestroyer(da) => DestroyerLowersMeasure(s, da, s');
  }

  ghost predicate AllReturned(s: State) {
    && (forall k :: 0 <= k < |s.removers| ==> s.removers[k] == RIdle)
    && (forall k :: 0 <= k < |s.pollers| ==> s.pollers[k] == QIdle)
    && (forall k :: 0 <= k < |s.inserters| ==> s.inserters[k] == IIdle)
    && s.destroyer == DDone
  }

  /** The lock's holder can always go on to release it. */
  lemma HolderCanStep(s: State, t: Thread) returns (a: Action, s': State)
    requires Inv(s) && t in s.lock
    ensures Next(s, a, s') && !a.StartsCall()
  {
    match t
    case R(r) =>
      match s.removers[r] {
        case RTesting =>
          a := ByRemover(r, RTest);
          s' := SetRemover(s, r, if s.queue == [] && !s.shutdown then RWaiting else RDeciding);
        case RWaiting => a := ByRemover(r, RWait); s' := SetRemover(s, r, RAsleep).(lock := {});
        case RDeciding =>
          a := ByRemover(r, RDecide);
          s' := SetRemover(s, r, if s.shutdown then RUnlocking else RDequeuing);
        case RDequeuing =>
          a := ByRemover(r, RDequeue);
          s' := SetRemover(s, r, RUnlocking).(queue := s.queue[1..], removed := s.removed + [s.queue[0]]);
        case RUnlocking => a := ByRemover(r, RUnlock); s' := SetRemover(s, r, RIdle).(lock := {});
      }
    case Q(p) =>
      match s.pollers[p] {
        case QTesting =>
          a := ByPoller(p, QTest);
          s' := SetPoller(s, p, if s.shutdown || s.queue == [] then QUnlocking else QDequeuing);
        case QDequeuing =>
          a := ByPoller(p, QDequeue);
          s' := SetPoller(s, p, QUnlocking).(queue := s.queue[1..], removed := s.removed + [s.queue[0]]);
        case QUnlocking => a := ByPoller(p, QUnlock); s' := SetPoller(s, p, QIdle).(lock := {});
      }
    case I(i) =>
      match s.inserters[i] {
        case IAppending(data) =>
          a := ByInserter(i, IAppend);
          s' := SetInserter(s, i, IUnlocking).(queue := s.queue + [data], inserted := s.inserted + [data]);
        case IUnlocking => a := ByInserter(i, IUnlock); s' := SetInserter(s, i, ISignalling).(lock := {});
      }
    case D =>
      if s.destroyer.DSetting? {
        a, s' := ByDestroyer(DSet), s.(destroyer := DBroadcasting, shutdown := true);
      } else if s.destroyer.DBroadcasting? {
        a := ByDestroyer(DBroadcast);
        s' := s.(destroyer := DUnlocking, removers := WakeAll(s.removers, Sleepers(s.removers)));
      } else {
        a, s' := ByDestroyer(DUnlock), s.(destroyer := DDone, lock := {});
      }
  }

  lemma SleepersValid(removers: seq<Remover>)
    ensures ValidWake(removers, Sleepers(removers))
  {
    if SomeAsleep(removers) {
      var k :| 0 <= k < |removers| && removers[k] == RAsleep;
      assert k in Sleepers(removers);
    }
  }

  /** After the flag is set the calls under way are never stuck: until all have returned, some thread
      can move without a new call. */
  lemma ShutdownNeverStuck(s: State) returns (a: Action, s': State)
    requires Inv(s) && s.shutdown && !AllReturned(s)
    ensures Next(s, a, s') && !a.StartsCall()
  {
    if t :| t in s.lock {
      a, s' := HolderCanStep(s, t);
    } else if r :| 0 <= r < |s.removers| && s.removers[r] != RIdle {
      assert R(r) !in s.lock && s.removers[r] != RAsleep;
      a, s' := ByRemover(r, RLock), SetRemover(s, r, RTesting).(lock := {R(r)});
    } else if p :| 0 <= p < |s.pollers| && s.pollers[p] != QIdle {
      assert Q(p) !in s.lock;
      a, s' := ByPoller(p, QLock), SetPoller(s, p, QTesting).(lock := {Q(p)});
    } else {
      var i :| 0 <= i < |s.inserters| && s.inserters[i] != IIdle;
      assert I(i) !in s.lock;
      a, s' := InserterCanStep(s, i);
    }
  }

  lemma InserterCanStep(s: State, i: nat) returns (a: Action, s': State)
    requires s.lock == {} && i < |s.inserters| && (s.inserters[i].ILocking? || s.inserters[i].ISignalling?)
    ensures Next(s, a, s') && !a.StartsCall()
  {
    if s.inserters[i].ILocking? {
      a, s' := ByInserter(i, ILock), SetInserter(s, i, IAppending(s.inserters[i].data)).(lock := {I(i)});
    } else {
      SleepersValid(s.removers);
      a := ByInserter(i, ISignal(Sleepers(s.removers)));
      s' := SetInserter(s, i, IIdle).(removers := WakeAll(s.removers, Sleepers(s.removers)));
    }
  }

  lemma {:induction false} ShutdownSteps(ss: seq<State>, aa: seq<Action>, m: nat, n: nat)
    requires Run(ss, aa) && m <= n <= |aa| && ss[m].shutdown
    requires forall k :: m <= k < n ==> !aa[k].StartsCall()
    ensures ss[n].shutdown && ss[n].removed == ss[m].removed && Measure(ss[n]) + (n - m) <= Measure(ss[m])
  {
    if m < n {
      ShutdownSteps(ss, aa, m, n - 1);
      RunInv(ss, aa, n - 1);
      ShutdownProgress(ss[n - 1], aa[n - 1], ss[n]);
      ShutdownStopsRemovals(ss, aa, n - 1);
    }
  }

  /** Shutdown ends every call. From the moment the flag is set, a run in which no new call starts has a
      bounded number of steps left, removes nothing, and cannot go on if and only if every remover, every
      inserter and bqueue_destroy have returned. */
  lemma ShutdownEndsEveryCall(ss: seq<State>, aa: seq<Action>, m: nat)
    requires Run(ss, aa) && m <= |aa| && ss[m].shutdown
    requires forall k :: m <= k < |aa| ==> !aa[k].StartsCall()
    ensures |aa| - m <= 5 * |ss[m].removers| + 4 * |ss[m].pollers| + 4 * |ss[m].inserters| + 2
    ensures ss[|aa|].removed == ss[m].removed
    ensures (forall a, s' :: Next(ss[|aa|], a, s') ==> a.StartsCall()) <==> AllReturned(ss[|aa|])
  {
    hide Sum, LockInv, LocalInv, WakeupInv;
    var n := |aa|;
    ShutdownSteps(ss, aa, m, n);
    SumBound(ss[m].removers, RemoverRank, 5);
    SumBound(ss[m].pollers, PollerRank, 4);
    SumBound(ss[m].inserters, InserterRank, 4);
    RunInv(ss, aa, n);
    if !AllReturned(ss[n]) {
      var a, s' := ShutdownNeverStuck(ss[n]);
    }
  }

  // ---------------------------------------------------------------- the critical sections

  /** Nothing has been done to the queue since s0. */
  ghost predicate Same(s0: State, s: State) {
    s.queue == s0.queue && s.removed == s0.removed
  }

  /** The passage is over. */
  ghost predicate Through(s0: State, s: State) {
    && s.queue == Leave(s0.queue, s0.shutdown) && s.shutdown == s0.shutdown
    && match Consume(s0.queue, s0.shutdown)
       case Got(value) => s.removed == s0.removed + [value]
       case _ => s.removed == s0.removed
  }

  /** Where remover r stands since it found the queue, the flag and the history of s0. */
  ghost predicate RemoverWithin(s0: State, s: State, r: nat) {
    var o := Consume(s0.queue, s0.shutdown);
    && r < |s.removers| && s.shutdown == s0.shutdown
    && (match s.removers[r]
        case RTesting => Same(s0, s)
        case RWaiting => Same(s0, s) && o.Nothing?
        case RDeciding => Same(s0, s) && !o.Nothing?
        case RDequeuing => Same(s0, s) && o.Got?
        case RUnlocking => !o.Nothing? && Through(s0, s)
        case _ => false)
  }

  ghost predicate PollerWithin(s0: State, s: State, p: nat) {
    var o := Consume(s0.queue, s0.shutdown);
    && p < |s.pollers| && s.shutdown == s0.shutdown
    && (match s.pollers[p]
        case QTesting => Same(s0, s)
        case QDequeuing => Same(s0, s) && o.Got?
        case QUnlocking => Through(s0, s)
        case _ => false)
  }

  /** Other threads do not come in between. */
  lemma OthersLeaveRemover(s: State, a: Action, s': State, r: nat)
    requires LockInv(s) && Next(s, a, s') && R(r) in s.lock && !(a.ByRemover? && a.r == r)
    ensures Same(s, s') && s'.shutdown == s.shutdown && r < |s'.removers| && s'.removers[r] == s.removers[r]
  {
  }

  lemma OthersLeavePoller(s: State, a: Action, s': State, p: nat)
    requires LockInv(s) && Next(s, a, s') && Q(p) in s.lock && !(a.ByPoller? && a.p == p)
    ensures Same(s, s') && s'.shutdown == s.shutdown && p < |s'.pollers| && s'.pollers[p] == s.pollers[p]
  {
  }

  lemma RemoverStaysWithin(s0: State, s: State, a: Action, s': State, r: nat)
    requires LockInv(s) && RemoverWithin(s0, s, r) && Next(s, a, s') && R(r) in s'.lock
    ensures RemoverWithin(s0, s', r)
  {
    if !(a.ByRemover? && a.r == r) {
      OthersLeaveRemover(s, a, s', r);
    }
  }

  lemma PollerStaysWithin(s0: State, s: State, a: Action, s': State, p: nat)
    requires LockInv(s) && PollerWithin(s0, s, p) && Next(s, a, s') && Q(p) in s'.lock
    ensures PollerWithin(s0, s', p)
  {
    if !(a.ByPoller? && a.p == p) {
      OthersLeavePoller(s, a, s', p);
    }
  }

  lemma RemoverEnters(s: State, s': State, r: nat)
    requires RemoverNext(s, r, RLock, s')
    ensures RemoverWithin(s, s', r)
  {
  }

  lemma {:induction false} RemoverSoFar(ss: seq<State>, aa: seq<Action>, m: nat, n: nat, r: nat)
    requires Run(ss, aa) && m < n <= |aa| && aa[m] == ByRemover(r, RLock)
    requires forall k :: m < k <= n ==> R(r) in ss[k].lock
    ensures RemoverWithin(ss[m], ss[n], r)
  {
    hide Init, RemoverWithin, LockInv, LocalInv, ShutdownInv, WakeupInv;
    hide RemoverNext, PollerNext, InserterNext, DestroyerNext;
    assert Next(ss[n - 1], aa[n - 1], ss[n]);
    if n == m + 1 {
      RemoverEnters(ss[m], ss[n], r);
    } else {
      RemoverSoFar(ss, aa, m, n - 1, r);
      RunInv(ss, aa, n - 1);
      RemoverStaysWithin(ss[m], ss[n - 1], aa[n - 1], ss[n], r);
    }
  }

  lemma PollerEnters(s: State, s': State, p: nat)
    requires PollerNext(s, p, QLock, s')
    ensures PollerWithin(s, s', p)
  {
  }

  lemma {:induction false} PollerSoFar(ss: seq<State>, aa: seq<Action>, m: nat, n: nat, p: nat)
    requires Run(ss, aa) && m < n <= |aa| && aa[m] == ByPoller(p, QLock)
    requires forall k :: m < k <= n ==> Q(p) in ss[k].lock
    ensures PollerWithin(ss[m], ss[n], p)
  {
    hide Init, PollerWithin, LockInv, LocalInv, ShutdownInv, WakeupInv;
    hide RemoverNext, PollerNext, InserterNext, DestroyerNext;
    assert Next(ss[n - 1], aa[n - 1], ss[n]);
    if n == m + 1 {
      PollerEnters(ss[m], ss[n], p);
    } else {
      PollerSoFar(ss, aa, m, n - 1, p);
      RunInv(ss, aa, n - 1);
      PollerStaysWithin(ss[m], ss[n - 1], aa[n - 1], ss[n], p);
    }
  }

  /** The steps of a remover between getting the lock and giving it back, whatever other threads do
      meanwhile, are one passage of the kind that the list's method makes, on the queue and the flag as
      they were when it got the lock: it waits exactly if that method answers Wait, and otherwise returns. */
  lemma RemoverSection(ss: seq<State>, aa: seq<Action>, m: nat, n: nat, r: nat)
    requires Run(ss, aa) && m < n < |aa| && aa[m] == ByRemover(r, RLock)
    requires (forall k :: m < k <= n ==> R(r) in ss[k].lock) && R(r) !in ss[n + 1].lock
    ensures Through(ss[m], ss[n + 1]) && r < |ss[n + 1].removers|
    ensures ss[n + 1].removers[r] == if Consume(ss[m].queue, ss[m].shutdown).Nothing? then RAsleep else RIdle
  {
    RemoverSoFar(ss, aa, m, n, r);
    RunInv(ss, aa, n);
    RunInv(ss, aa, n + 1);
    assert Next(ss[n], aa[n], ss[n + 1]);
    if !(aa[n].ByRemover? && aa[n].r == r) {
      OthersLeaveRemover(ss[n], aa[n], ss[n + 1], r);
    }
  }

  /** And so are those of a non-blocking remover, which always returns. */
  lemma PollerSection(ss: seq<State>, aa: seq<Action>, m: nat, n: nat, p: nat)
    requires Run(ss, aa) && m < n < |aa| && aa[m] == ByPoller(p, QLock)
    requires (forall k :: m < k <= n ==> Q(p) in ss[k].lock) && Q(p) !in ss[n + 1].lock
    ensures Through(ss[m], ss[n + 1]) && p < |ss[n + 1].pollers| && ss[n + 1].pollers[p] == QIdle
  {
    PollerSoFar(ss, aa, m, n, p);
    RunInv(ss, aa, n);
    RunInv(ss, aa, n + 1);
    assert Next(ss[n], aa[n], ss[n + 1]);
    if !(aa[n].ByPoller? && aa[n].p == p) {
      OthersLeavePoller(ss[n], aa[n], ss[n + 1], p);
    }
  }
}
