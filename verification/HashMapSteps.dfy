/** Concurrent put, putIfAbsent and get on the hash map of tools/concurrent_hashmap.c, without
    remove. Each operation first looks its key up under the read lock of the segment; what it does
    with the entry found, or without one, is a second step, and other threads can act in between. A
    schedule is any sequence of such steps of any threads. An entry is known by its place in its
    chain. */
module HashMapSteps {
  import opened HashMap

  datatype Operation = Put(key: int, value: int) | PutIfAbsent(key: int, value: int) | Get(key: int)

  datatype Node = Node(key: int, value: int)

  datatype Thread =
    | Idle
    | Found(op: Operation, at: nat)    // hashmap_getentry has returned this entry
    | Absent(op: Operation)            // hashmap_getentry has returned NULL

  datatype Done = Done(thread: nat, op: Operation, result: int)

  /** The log lists the operations that have returned, with their results. */
  datatype State = State(chains: seq<seq<Node>>, threads: seq<Thread>, log: seq<Done>)

  datatype Action = Lookup(thread: nat, op: Operation) | Finish(thread: nat)

  ghost predicate Has(chain: seq<Node>, key: int) {
    exists i :: 0 <= i < |chain| && chain[i].key == key
  }

  function Find(chain: seq<Node>, key: int): (at: nat)
    ensures at < |chain| ==> chain[at].key == key
    ensures at >= |chain| ==> !Has(chain, key)
  {
    if chain == [] then 0 else if chain[0].key == key then 0
    else
      var at := Find(chain[1..], key);
      assert forall i :: 0 < i < |chain| ==> chain[i] == chain[1..][i - 1];
      at + 1
  }

  predicate HasBucket(chains: seq<seq<Node>>, key: int) {
    0 < |chains| && LegalKey(key, |chains|)
  }

  function Bucket(chains: seq<seq<Node>>, key: int): (b: nat)
    requires HasBucket(chains, key)
    ensures b < |chains|
  {
    HashInRange(key, |chains|);
    Hash(key, |chains|)
  }

  function ChainOf(chains: seq<seq<Node>>, key: int): seq<Node>
    requires HasBucket(chains, key)
  {
    chains[Bucket(chains, key)]
  }

  /** The entry a thread has found is in its chain, with the key that was looked up. */
  ghost predicate ThreadOk(chains: seq<seq<Node>>, thread: Thread) {
    match thread
    case Idle => true
    case Absent(op) => HasBucket(chains, op.key) && !op.Get?
    case Found(op, at) =>
      && HasBucket(chains, op.key) && !op.PutIfAbsent?
      && at < |ChainOf(chains, op.key)| && ChainOf(chains, op.key)[at].key == op.key
  }

  /** Every entry is in the bucket of its key. */
  ghost predicate InBuckets(chains: seq<seq<Node>>) {
    && 0 < |chains|
    && forall b, i :: 0 <= b < |chains| && 0 <= i < |chains[b]| ==>
         HasBucket(chains, chains[b][i].key) && Bucket(chains, chains[b][i].key) == b
  }

  ghost predicate Valid(s: State) {
    InBuckets(s.chains) && forall t :: 0 <= t < |s.threads| ==> ThreadOk(s.chains, s.threads[t])
  }

  predicate Enabled(s: State, a: Action) {
    a.thread < |s.threads| && match a
      case Lookup(t, op) => s.threads[t].Idle? && HasBucket(s.chains, op.key)
      case Finish(t) => !s.threads[t].Idle?
  }

  function Return(s: State, t: nat, op: Operation, result: int): State
    requires t < |s.threads|
  {
    s.(threads := s.threads[t := Idle], log := s.log + [Done(t, op, result)])
  }

  /** Lines 159-171, and the returns that need no second step. */
  function LookupStep(s: State, t: nat, op: Operation): State
    requires Enabled(s, Lookup(t, op))
  {
    var chain := ChainOf(s.chains, op.key);
    var at := Find(chain, op.key);
    if at < |chain| then
      if op.PutIfAbsent? then Return(s, t, op, 0) else s.(threads := s.threads[t := Found(op, at)])
    else
      if op.Get? then Return(s, t, op, -1) else s.(threads := s.threads[t := Absent(op)])
  }

  /** Under the write lock a new entry is put at the end of the chain, whatever the chain holds by
      now. */
  function Append(chains: seq<seq<Node>>, key: int, value: int): seq<seq<Node>>
    requires HasBucket(chains, key)
  {
    chains[Bucket(chains, key) := ChainOf(chains, key) + [Node(key, value)]]
  }

  function Assign(chains: seq<seq<Node>>, key: int, at: nat, value: int): seq<seq<Node>>
    requires HasBucket(chains, key) && at < |ChainOf(chains, key)|
  {
    var chain := ChainOf(chains, key);
    chains[Bucket(chains, key) := chain[at := chain[at].(value := value)]]
  }

  /** Lines 113-125, 137-154 and 189. */
  function FinishStep(s: State, t: nat): State
    requires Valid(s) && Enabled(s, Finish(t))
  {
    assert ThreadOk(s.chains, s.threads[t]);
    match s.threads[t]
    case Absent(op) => Return(s.(chains := Append(s.chains, op.key, op.value)), t, op, 1)
    case Found(op, at) =>
      if op.Get? then Return(s, t, op, ChainOf(s.chains, op.key)[at].value)
      else Return(s.(chains := Assign(s.chains, op.key, at, op.value)), t, op, 0)
  }

  function Step(s: State, a: Action): (s': State)
    requires Valid(s)
  {
    if !Enabled(s, a) then s
    else if a.Lookup? then LookupStep(s, a.thread, a.op)
    else FinishStep(s, a.thread)
  }

  /** Chains only grow, and their entries keep their places and keys. */
  ghost predicate Grown(chains: seq<seq<Node>>, chains': seq<seq<Node>>) {
    && |chains| == |chains'|
    && (forall b :: 0 <= b < |chains| ==> |chains[b]| <= |chains'[b]|)
    && (forall b, i :: 0 <= b < |chains| && 0 <= i < |chains[b]| ==> chains'[b][i].key == chains[b][i].key)
  }

  lemma AppendGrows(chains: seq<seq<Node>>, key: int, value: int)
    requires InBuckets(chains) && HasBucket(chains, key)
    ensures InBuckets(Append(chains, key, value)) && Grown(chains, Append(chains, key, value))
  {
  }

  lemma AssignGrows(chains: seq<seq<Node>>, key: int, at: nat, value: int)
    requires InBuckets(chains) && HasBucket(chains, key) && at < |ChainOf(chains, key)|
    ensures InBuckets(Assign(chains, key, at, value)) && Grown(chains, Assign(chains, key, at, value))
  {
  }

  /** So an entry that was found stays in its chain, and a thread's step does not disturb others. */
  lemma StepGrows(s: State, a: Action)
    requires Valid(s)
    ensures Valid(Step(s, a)) && Grown(s.chains, Step(s, a).chains) && |Step(s, a).threads| == |s.threads|
    ensures forall t :: 0 <= t < |s.threads| && t != a.thread ==> Step(s, a).threads[t] == s.threads[t]
  {
    if Enabled(s, a) && a.Finish? {
      assert ThreadOk(s.chains, s.threads[a.thread]);
      match s.threads[a.thread]
      case Absent(op) => AppendGrows(s.chains, op.key, op.value);
      case Found(op, at) =>
        if op.Put? {
          AssignGrows(s.chains, op.key, at, op.value);
        }
    }
  }

  function Run(s: State, actions: seq<Action>): (s': State)
    requires Valid(s)
    ensures Valid(s') && Grown(s.chains, s'.chains) && |s'.threads| == |s.threads|
  {
    if actions == [] then s
    else
      var before := Run(s, actions[..|actions| - 1]);
      StepGrows(before, actions[|actions| - 1]);
      Step(before, actions[|actions| - 1])
  }

  // ---------------------------------------------------------------- the map as one thread sees it

  /** put and putIfAbsent tell whether the key is new; get answers -1 for an absent key. */
  function AtomicResult(m: map<int, int>, op: Operation): int {
    match op
    case Put(key, _) => if key in m then 0 else 1
    case PutIfAbsent(key, _) => if key in m then 0 else 1
    case Get(key) => if key in m then m[key] else -1
  }

  function AtomicMap(m: map<int, int>, op: Operation): map<int, int> {
    match op
    case Put(key, value) => m[key := value]
    case PutIfAbsent(key, value) => if key in m then m else m[key := value]
    case Get(_) => m
  }

  function Replay(log: seq<Done>): map<int, int> {
    if log == [] then map[] else AtomicMap(Replay(log[..|log| - 1]), log[|log| - 1].op)
  }

  /** Done one after another in the order of the log, the operations give the results logged. */
  predicate Consistent(log: seq<Done>) {
    log == [] ||
    (Consistent(log[..|log| - 1]) && log[|log| - 1].result == AtomicResult(Replay(log[..|log| - 1]), log[|log| - 1].op))
  }

  ghost predicate Unique(chains: seq<seq<Node>>) {
    forall b, i, j :: 0 <= b < |chains| && 0 <= i < j < |chains[b]| ==> chains[b][i].key != chains[b][j].key
  }

  ghost predicate Present(chains: seq<seq<Node>>, key: int) {
    HasBucket(chains, key) && Has(ChainOf(chains, key), key)
  }

  ghost predicate Represents(chains: seq<seq<Node>>, m: map<int, int>) {
    && (forall key :: key in m ==> Present(chains, key))
    && (forall b, i :: 0 <= b < |chains| && 0 <= i < |chains[b]| ==>
          chains[b][i].key in m && m[chains[b][i].key] == chains[b][i].value)
  }

  /** What has happened so far could have been done by atomic operations, one after another. */
  ghost predicate Linear(s: State) {
    Unique(s.chains) && Represents(s.chains, Replay(s.log)) && Consistent(s.log)
  }

  lemma ReplayOne(log: seq<Done>, done: Done)
    ensures Replay(log + [done]) == AtomicMap(Replay(log), done.op)
    ensures Consistent(log + [done]) <==> Consistent(log) && done.result == AtomicResult(Replay(log), done.op)
  {
    assert (log + [done])[..|log|] == log;
  }

  lemma PresentIff(chains: seq<seq<Node>>, m: map<int, int>, key: int)
    requires InBuckets(chains) && Represents(chains, m) && HasBucket(chains, key)
    ensures Present(chains, key) <==> key in m
  {
  }

  lemma AppendRepresents(chains: seq<seq<Node>>, m: map<int, int>, key: int, value: int)
    requires InBuckets(chains) && HasBucket(chains, key) && Unique(chains) && Represents(chains, m)
    ensures Unique(Append(chains, key, value)) <==> !Present(chains, key)
    ensures !Present(chains, key) ==> Represents(Append(chains, key, value), m[key := value])
  {
    var b, chain := Bucket(chains, key), ChainOf(chains, key);
    var chains': seq<seq<Node>> := Append(chains, key, value);
    if Present(chains, key) {
      var i :| 0 <= i < |chain| && chain[i].key == key;
      assert chains'[b][i].key == chains'[b][|chain|].key;
    } else {
      PresentIff(chains, m, key);
      assert chains'[b][|chain|].key == key;
      forall k | k in m
        ensures Present(chains', k)
      {
        var i :| 0 <= i < |ChainOf(chains, k)| && ChainOf(chains, k)[i].key == k;
        assert ChainOf(chains', k)[i].key == k;
      }
    }
  }

  lemma AssignRepresents(chains: seq<seq<Node>>, m: map<int, int>, key: int, at: nat, value: int)
    requires InBuckets(chains) && HasBucket(chains, key) && Unique(chains) && Represents(chains, m)
    requires at < |ChainOf(chains, key)| && ChainOf(chains, key)[at].key == key
    ensures Unique(Assign(chains, key, at, value))
    ensures Represents(Assign(chains, key, at, value), m[key := value])
  {
    var chains': seq<seq<Node>> := Assign(chains, key, at, value);
    AssignGrows(chains, key, at, value);
    assert chains'[Bucket(chains, key)][at].key == key;
    forall k | k in m
      ensures Present(chains', k)
    {
      var i :| 0 <= i < |ChainOf(chains, k)| && ChainOf(chains, k)[i].key == k;
      assert ChainOf(chains', k)[i].key == k;
    }
  }

  // ---------------------------------------------------------------- what can go wrong

  ghost predicate Stale(s: State, t: nat) {
    t < |s.threads| && s.threads[t].Absent? && Present(s.chains, s.threads[t].op.key)
  }

  /** Two threads are about to insert the same key. */
  ghost predicate Overlap(s: State) {
    exists t, u :: 0 <= t < u < |s.threads| && Clash(s.threads[t], s.threads[u])
  }

  predicate Clash(a: Thread, b: Thread) {
    a.Absent? && b.Absent? && a.op.key == b.op.key
  }

  ghost predicate Clean(s: State) {
    !Overlap(s) && forall t :: 0 <= t < |s.threads| ==> !Stale(s, t)
  }

  lemma LookupKeeps(s: State, t: nat, op: Operation)
    requires Valid(s) && Linear(s) && Enabled(s, Lookup(t, op))
    ensures Linear(Step(s, Lookup(t, op)))
    ensures !Stale(Step(s, Lookup(t, op)), t)
  {
    var chain := ChainOf(s.chains, op.key);
    var m := Replay(s.log);
    PresentIff(s.chains, m, op.key);
    ReplayOne(s.log, Done(t, op, if op.Get? then -1 else 0));
    if Find(chain, op.key) < |chain| {
      assert chain[Find(chain, op.key)].key == op.key;
    }
  }

  /** The second step keeps the keys unique, and its result is right, if and only if the key of a new
      entry is not in the chain when it is put there. */
  lemma FinishIff(s: State, t: nat)
    requires Valid(s) && Linear(s) && Enabled(s, Finish(t))
    ensures var s' := Step(s, Finish(t));
      && (Unique(s'.chains) <==> !Stale(s, t))
      && (Consistent(s'.log) <==> !Stale(s, t))
      && (Linear(s') <==> !Stale(s, t))
  {
    var m := Replay(s.log);
    assert ThreadOk(s.chains, s.threads[t]);
    match s.threads[t]
    case Absent(op) =>
      PresentIff(s.chains, m, op.key);
      ReplayOne(s.log, Done(t, op, 1));
      AppendRepresents(s.chains, m, op.key, op.value);
    case Found(op, at) =>
      var entry := ChainOf(s.chains, op.key)[at];
      assert entry.key in m;
      if op.Get? {
        ReplayOne(s.log, Done(t, op, entry.value));
      } else {
        ReplayOne(s.log, Done(t, op, 0));
        AssignRepresents(s.chains, m, op.key, at, op.value);
      }
  }

  lemma GrownKeepsPresent(chains: seq<seq<Node>>, chains': seq<seq<Node>>, key: int)
    requires Grown(chains, chains') && Present(chains, key)
    ensures Present(chains', key)
  {
    var i :| 0 <= i < |ChainOf(chains, key)| && ChainOf(chains, key)[i].key == key;
    assert ChainOf(chains', key)[i].key == key;
  }

  /** A present key stays present, whatever the threads do. */
  lemma PresentStays(s: State, actions: seq<Action>, key: int)
    requires Valid(s) && Present(s.chains, key)
    ensures Present(Run(s, actions).chains, key)
  {
    GrownKeepsPresent(s.chains, Run(s, actions).chains, key);
  }

  lemma AppendPresent(chains: seq<seq<Node>>, key: int, value: int, k: int)
    requires InBuckets(chains) && HasBucket(chains, key)
    ensures Present(Append(chains, key, value), k) <==> Present(chains, k) || k == key
  {
    var chains': seq<seq<Node>> := Append(chains, key, value);
    AppendGrows(chains, key, value);
    if Present(chains, k) {
      GrownKeepsPresent(chains, chains', k);
    }
    assert ChainOf(chains', key)[|ChainOf(chains, key)|].key == key;
    if Present(chains', k) && k != key {
      var i :| 0 <= i < |ChainOf(chains', k)| && ChainOf(chains', k)[i].key == k;
      assert ChainOf(chains, k)[i].key == k;
    }
  }

  lemma AssignPresent(chains: seq<seq<Node>>, key: int, at: nat, value: int, k: int)
    requires InBuckets(chains) && HasBucket(chains, key) && at < |ChainOf(chains, key)|
    ensures Present(Assign(chains, key, at, value), k) <==> Present(chains, k)
  {
    var chains': seq<seq<Node>> := Assign(chains, key, at, value);
    AssignGrows(chains, key, at, value);
    if Present(chains, k) {
      GrownKeepsPresent(chains, chains', k);
    }
    if Present(chains', k) {
      var i :| 0 <= i < |ChainOf(chains', k)| && ChainOf(chains', k)[i].key == k;
      assert ChainOf(chains, k)[i].key == k;
    }
  }

  lemma FinishKeepsOthers(s: State, t: nat, u: nat)
    requires Valid(s) && Enabled(s, Finish(t)) && u < |s.threads| && u != t
    requires !Stale(s, u) && !Clash(s.threads[t], s.threads[u])
    ensures !Stale(Step(s, Finish(t)), u)
  {
    assert ThreadOk(s.chains, s.threads[t]);
    match s.threads[t]
    case Absent(op) =>
      if s.threads[u].Absent? {
        AppendPresent(s.chains, op.key, op.value, s.threads[u].op.key);
      }
    case Found(op, at) =>
      if op.Put? && s.threads[u].Absent? {
        AssignPresent(s.chains, op.key, at, op.value, s.threads[u].op.key);
      }
  }

  lemma FinishKeepsClean(s: State, t: nat)
    requires Valid(s) && Linear(s) && Clean(s) && Enabled(s, Finish(t))
    ensures Linear(Step(s, Finish(t))) && Clean(Step(s, Finish(t)))
  {
    var s' := Step(s, Finish(t));
    FinishIff(s, t);
    StepGrows(s, Finish(t));
    assert s'.threads[t].Idle?;
    forall u | 0 <= u < |s.threads| && u != t
      ensures !Stale(s', u)
    {
      assert !Clash(s.threads[if t < u then t else u], s.threads[if t < u then u else t]);
      FinishKeepsOthers(s, t, u);
    }
    forall u, v | 0 <= u < v < |s'.threads|
      ensures !Clash(s'.threads[u], s'.threads[v])
    {
      assert !Clash(s.threads[u], s.threads[v]);
    }
  }

  lemma StepKeepsClean(s: State, a: Action)
    requires Valid(s) && Linear(s) && Clean(s) && !Overlap(Step(s, a))
    ensures Linear(Step(s, a)) && Clean(Step(s, a))
  {
    if Enabled(s, a) {
      match a
      case Lookup(t, op) =>
        StepGrows(s, a);
        LookupKeeps(s, t, op);
        forall u | 0 <= u < |s.threads| && u != t
          ensures !Stale(Step(s, a), u)
        {
          assert !Stale(s, u);
        }
      case Finish(t) => FinishKeepsClean(s, t);
    }
  }

  /** If at no time two threads are about to insert the same key, the keys stay unique, and the map
      and all results are those of atomic operations in the order in which they return. */
  lemma {:induction false} RunIsAtomic(s: State, actions: seq<Action>)
    requires Valid(s) && Linear(s) && Clean(s)
    requires forall n :: 0 <= n <= |actions| ==> !Overlap(Run(s, actions[..n]))
    ensures Linear(Run(s, actions)) && Clean(Run(s, actions))
  {
    if actions != [] {
      var before := actions[..|actions| - 1];
      assert forall n :: 0 <= n <= |before| ==> before[..n] == actions[..n];
      RunIsAtomic(s, before);
      assert actions[..|actions|] == actions;
      StepKeepsClean(Run(s, before), actions[|actions| - 1]);
    }
  }

  /** The map as hashmap_init leaves it, with no operation under way. */
  predicate Initial(s: State) {
    && 0 < |s.chains| && s.log == []
    && (forall b :: 0 <= b < |s.chains| ==> s.chains[b] == [])
    && (forall t :: 0 <= t < |s.threads| ==> s.threads[t].Idle?)
  }

  lemma InitialIsClean(s: State)
    requires Initial(s)
    ensures Valid(s) && Linear(s) && Clean(s)
  {
  }

  /** So it is for every run from the empty map. */
  lemma RunFromEmptyIsAtomic(s: State, actions: seq<Action>)
    requires Initial(s)
    requires Valid(s) && forall n :: 0 <= n <= |actions| ==> !Overlap(Run(s, actions[..n]))
    ensures var now := Run(s, actions);
      Unique(now.chains) && Represents(now.chains, Replay(now.log)) && Consistent(now.log)
  {
    InitialIsClean(s);
    RunIsAtomic(s, actions);
  }

  // ---------------------------------------------------------------- exactly when it goes wrong

  function Finishes(order: seq<nat>): seq<Action> {
    if order == [] then [] else Finishes(order[..|order| - 1]) + [Finish(order[|order| - 1])]
  }

  lemma {:induction false} CleanCompletes(s: State, order: seq<nat>)
    requires Valid(s) && Linear(s) && Clean(s)
    ensures Linear(Run(s, Finishes(order))) && Clean(Run(s, Finishes(order)))
  {
    if order != [] {
      var before := order[..|order| - 1];
      CleanCompletes(s, before);
      FinishesLast(s, order);
      var t := order[|order| - 1];
      if Enabled(Run(s, Finishes(before)), Finish(t)) {
        FinishKeepsClean(Run(s, Finishes(before)), t);
      }
    }
  }

  lemma FinishesLast(s: State, order: seq<nat>)
    requires Valid(s) && order != []
    ensures Run(s, Finishes(order)) == Step(Run(s, Finishes(order[..|order| - 1])), Finish(order[|order| - 1]))
  {
    var actions := Finishes(order);
    assert actions[..|actions| - 1] == Finishes(order[..|order| - 1]);
  }

  lemma RunOne(s: State, t: nat)
    requires Valid(s)
    ensures Run(s, Finishes([t])) == Step(s, Finish(t))
  {
    FinishesLast(s, [t]);
    assert [t][..0] == [];
  }

  lemma RunTwo(s: State, t: nat, u: nat)
    requires Valid(s)
    ensures Valid(Step(s, Finish(t))) && Run(s, Finishes([t, u])) == Step(Step(s, Finish(t)), Finish(u))
  {
    StepGrows(s, Finish(t));
    RunOne(s, t);
    FinishesLast(s, [t, u]);
    assert [t, u][..1] == [t];
  }

  /** Threads about to insert the same key: when both are done, the key is there twice, or the
      first to finish put it there twice. */
  lemma ClashBreaks(s: State, t: nat, u: nat)
    requires Valid(s) && Linear(s) && t < u < |s.threads| && Clash(s.threads[t], s.threads[u])
    ensures !Linear(Run(s, Finishes([t]))) || !Linear(Run(s, Finishes([t, u])))
  {
    RunOne(s, t);
    RunTwo(s, t, u);
    var s1 := Step(s, Finish(t));
    StepGrows(s, Finish(t));
    assert ThreadOk(s.chains, s.threads[t]);
    if Linear(s1) {
      var op := s.threads[t].op;
      AppendPresent(s.chains, op.key, op.value, op.key);
      assert Stale(s1, u);
      FinishIff(s1, u);
    }
  }

  /** As long as the map has been linear, it stays so however the operations under way are completed
      if and only if no two of them insert the same key and none inserts a key that is there. */
  lemma CompletesIff(s: State)
    requires Valid(s) && Linear(s)
    ensures Clean(s) <==> forall order :: Linear(Run(s, Finishes(order)))
  {
    if Clean(s) {
      forall order: seq<nat>
        ensures Linear(Run(s, Finishes(order)))
      {
        CleanCompletes(s, order);
      }
    } else if Overlap(s) {
      var t, u :| 0 <= t < u < |s.threads| && Clash(s.threads[t], s.threads[u]);
      ClashBreaks(s, t, u);
    } else {
      var t: nat :| t < |s.threads| && Stale(s, t);
      RunOne(s, t);
      FinishIff(s, t);
    }
  }

  /** Two puts of an absent key whose lookups both come first: both answer that the key is new, and
      the chain then holds it twice. */
  lemma TwoPutsDuplicate(s: State, t: nat, u: nat, key: int, v: int, w: int)
    requires Valid(s) && Linear(s) && t < u < |s.threads| && s.threads[t].Idle? && s.threads[u].Idle?
    requires HasBucket(s.chains, key) && !Present(s.chains, key)
    ensures var s1 := Run(s, [Lookup(t, Put(key, v)), Lookup(u, Put(key, w)), Finish(t), Finish(u)]);
      && s1.log == s.log + [Done(t, Put(key, v), 1)] + [Done(u, Put(key, w), 1)]
      && !Unique(s1.chains) && !Consistent(s1.log)
  {
    var s1, s2 := LookupAbsent(s, t, Put(key, v)), LookupAbsent(LookupAbsent(s, t, Put(key, v)), u, Put(key, w));
    RunFour(s, Lookup(t, Put(key, v)), Lookup(u, Put(key, w)), Finish(t), Finish(u));
    LookupOfAbsent(s, t, Put(key, v));
    LookupOfAbsent(s1, u, Put(key, w));
    StepGrows(s, Lookup(t, Put(key, v)));
    StepGrows(s1, Lookup(u, Put(key, w)));
    StepGrows(s2, Finish(t));
    FinishIff(s2, t);
    AppendPresent(s.chains, key, v, key);
    assert Stale(Step(s2, Finish(t)), u);
    FinishIff(Step(s2, Finish(t)), u);
  }

  function LookupAbsent(s: State, t: nat, op: Operation): State
    requires t < |s.threads|
  {
    s.(threads := s.threads[t := Absent(op)])
  }

  lemma LookupOfAbsent(s: State, t: nat, op: Operation)
    requires Valid(s) && Enabled(s, Lookup(t, op)) && op.Put? && !Present(s.chains, op.key)
    ensures Step(s, Lookup(t, op)) == LookupAbsent(s, t, op)
  {
  }

  lemma RunFour(s: State, a: Action, b: Action, c: Action, d: Action)
    requires Valid(s)
    ensures Valid(Step(s, a)) && Valid(Step(Step(s, a), b)) && Valid(Step(Step(Step(s, a), b), c))
    ensures Run(s, [a, b, c, d]) == Step(Step(Step(Step(s, a), b), c), d)
  {
    RunPair(s, a, b);
    StepGrows(Step(Step(s, a), b), c);
    var most := [a, b] + [c];
    RunLast(s, [a, b], c);
    RunLast(s, most, d);
    assert most + [d] == [a, b, c, d];
  }

  lemma RunPair(s: State, a: Action, b: Action)
    requires Valid(s)
    ensures Valid(Step(s, a)) && Valid(Step(Step(s, a), b)) && Run(s, [a, b]) == Step(Step(s, a), b)
  {
    StepGrows(s, a);
    StepGrows(Step(s, a), b);
    RunLast(s, [], a);
    RunLast(s, [a], b);
    assert [] + [a] == [a] && [a] + [b] == [a, b];
  }

  lemma RunLast(s: State, actions: seq<Action>, a: Action)
    requires Valid(s)
    ensures Run(s, actions + [a]) == Step(Run(s, actions), a)
  {
    assert (actions + [a])[..|actions|] == actions;
  }
}
