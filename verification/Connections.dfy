/** Who holds which descriptor in proxy.c: main accepts connections and gives them to the workers in
    turn, each worker takes batches of ready connections from its epoll descriptor and serves them one
    after another with doit, whose operations are single steps here. Descriptors are numbers that are
    used again once they are closed; a connection is known by when it was accepted. A run is any
    sequence of steps of main and of the workers. */
module Connections {
  import opened Doit
  import opened RequestGrammar
  import opened Division

  datatype Owner = Client(conn: nat) | Server(worker: nat) | Tunnel(worker: nat)

  /** What a worker is doing: nothing, or serving fd with these operations still to do. held tells
      whether the client is still its own, and server and tunnel are the descriptors doit has open. */
  datatype Service =
    | Idle
    | Serving(fd: nat, todo: seq<Op>, held: bool, server: Option<nat>, tunnel: Option<nat>)

  /** The epoll descriptor of the worker: the descriptors registered, those armed among them; and the
      events that epoll_wait has returned and that are still to be served. */
  datatype Worker = Worker(registered: set<nat>, armed: set<nat>, batch: seq<nat>, service: Service)

  /** pending is the connection that main has accepted and not yet given to a worker; crashed is set by
      a Close of a descriptor that is not open and by an epoll_ctl that must not fail and does. */
  datatype State = State(table: map<nat, Owner>, workers: seq<Worker>, accepted: nat, roundRobin: nat,
                         pending: Option<nat>, crashed: bool)

  predicate Initial(s: State) {
    && s.table == map[] && 0 < |s.workers| && s.accepted == 0 && s.roundRobin == 0 && s.pending.None? && !s.crashed
    && forall w :: 0 <= w < |s.workers| ==> s.workers[w] == Worker({}, {}, [], Idle)
  }

  // ---------------------------------------------------------------- steps

  /** Line 134: the kernel chooses a number that is not in use. */
  predicate Accept(s: State, s': State, fd: nat) {
    && s.pending.None? && fd !in s.table
    && s' == s.(table := s.table[fd := Client(s.accepted)], accepted := s.accepted + 1, pending := Some(fd))
  }

  function Register(w: Worker, fd: nat): Worker {
    w.(registered := w.registered + {fd}, armed := w.armed + {fd})
  }

  function Unregister(w: Worker, fd: nat): Worker {
    w.(registered := w.registered - {fd}, armed := w.armed - {fd})
  }

  /** Lines 144-152: a second registration of the same descriptor fails. */
  predicate Give(s: State, s': State) {
    && s.pending.Some? && s.roundRobin < |s.workers|
    && var fd, w := s.pending.value, s.workers[s.roundRobin];
       s' == if fd in w.registered then s.(crashed := true)
             else s.(workers := s.workers[s.roundRobin := Register(w, fd)],
                     roundRobin := (s.roundRobin + 1) % |s.workers|, pending := None)
  }

  predicate NoRepeats(batch: seq<nat>) {
    forall i, j :: 0 <= i < j < |batch| ==> batch[i] != batch[j]
  }

  /** Line 220: some armed connections are ready; they are disarmed. */
  predicate Wait(s: State, s': State, k: nat, batch: seq<nat>) {
    && k < |s.workers|
    && var w := s.workers[k];
       && w.service.Idle? && w.batch == [] && NoRepeats(batch) && (forall i :: 0 <= i < |batch| ==> batch[i] in w.armed)
       && s' == s.(workers := s.workers[k := w.(armed := w.armed - (set fd | fd in batch), batch := batch)])
  }

  /** Line 226: doit starts, and its course is any of the plans. */
  predicate Begin(s: State, s': State, k: nat, kind: Kind, close: bool, undo: bool) {
    && k < |s.workers|
    && var w := s.workers[k];
       && w.service.Idle? && w.batch != []
       && var sv := Serving(w.batch[0], Plan(kind, close, undo), true, None, None);
          s' == s.(workers := s.workers[k := w.(batch := w.batch[1..], service := sv)])
  }

  predicate Return(s: State, s': State, k: nat) {
    && k < |s.workers|
    && var w := s.workers[k];
       w.service.Serving? && w.service.todo == [] && s' == s.(workers := s.workers[k := w.(service := Idle)])
  }

  /** The kernel forgets a closed descriptor everywhere. */
  function Forget(workers: seq<Worker>, fd: nat): seq<Worker> {
    seq(|workers|, i requires 0 <= i < |workers| =>
      workers[i].(registered := workers[i].registered - {fd}, armed := workers[i].armed - {fd}))
  }

  function CloseFd(s: State, fd: nat): State {
    if fd in s.table then s.(table := s.table - {fd}, workers := Forget(s.workers, fd)) else s.(crashed := true)
  }

  function SetService(s: State, k: nat, service: Service): State
    requires k < |s.workers|
  {
    s.(workers := s.workers[k := s.workers[k].(service := service)])
  }

  /** The next operation of doit; n is the number of a descriptor that it opens. */
  predicate Operate(s: State, s': State, k: nat, n: nat) {
    && k < |s.workers|
    && var w := s.workers[k];
       && w.service.Serving? && w.service.todo != []
       && var sv := w.service.(todo := w.service.todo[1..]);
          match w.service.todo[0]
          case OpenServer =>
            n !in s.table && s' == SetService(s, k, sv.(server := Some(n))).(table := s.table[n := Server(k)])
          case OpenTunnel =>
            n !in s.table && s' == SetService(s, k, sv.(tunnel := Some(n))).(table := s.table[n := Tunnel(k)])
          case CloseServer =>
            && w.service.server.Some?
            && s' == CloseFd(SetService(s, k, sv.(server := None)), w.service.server.value)
          case CloseTunnel =>
            && w.service.tunnel.Some?
            && s' == CloseFd(SetService(s, k, sv.(tunnel := None)), w.service.tunnel.value)
          case CloseClient => s' == CloseFd(SetService(s, k, sv.(held := false)), sv.fd)
          case DropServer => s' == SetService(s, k, sv)
          case Delete => s' == s.(workers := s.workers[k := Unregister(w, sv.fd).(service := sv)])
          case Rearm =>
            s' == if sv.fd !in w.registered then s.(crashed := true)
                  else s.(workers := s.workers[k := w.(armed := w.armed + {sv.fd}, service := sv.(held := false))])
  }

  datatype Action =
    | Accepts(fd: nat)
    | Gives
    | Waits(k: nat, batch: seq<nat>)
    | Begins(k: nat, kind: Kind, close: bool, undo: bool)
    | Operates(k: nat, n: nat)
    | Returns(k: nat)

  predicate Next(s: State, s': State, a: Action) {
    !s.crashed &&
    match a
    case Accepts(fd) => Accept(s, s', fd)
    case Gives => Give(s, s')
    case Waits(k, batch) => Wait(s, s', k, batch)
    case Begins(k, kind, close, undo) => Begin(s, s', k, kind, close, undo)
    case Operates(k, n) => Operate(s, s', k, n)
    case Returns(k) => Return(s, s', k)
  }

  ghost predicate IsRun(ss: seq<State>, aa: seq<Action>) {
    && |ss| == |aa| + 1 && Initial(ss[0])
    && forall i :: 0 <= i < |aa| ==> Next(ss[i], ss[i + 1], aa[i])
  }

  // ---------------------------------------------------------------- the invariant

  /** The descriptor belongs to a connection that was given to worker k. */
  predicate Given(s: State, k: nat, fd: nat)
    requires 0 < |s.workers|
  {
    fd in s.table && s.table[fd].Client? && s.table[fd].conn % |s.workers| == k && s.pending != Some(fd)
  }

  /** Worker w holds the connection. */
  predicate Holds(w: Worker, fd: nat) {
    fd in w.armed || fd in w.batch || Serves(w, fd)
  }

  predicate Serves(w: Worker, fd: nat) {
    w.service.Serving? && w.service.held && w.service.fd == fd
  }

  /** What one worker holds is its own, in one place only, and what it serves will be done soundly. */
  predicate WorkerOk(s: State, k: nat)
    requires k < |s.workers|
  {
    var w := s.workers[k];
    && (forall fd :: fd in w.registered ==> Given(s, k, fd))
    && w.armed <= w.registered
    && (forall i :: 0 <= i < |w.batch| ==> w.batch[i] in w.registered && w.batch[i] !in w.armed)
    && NoRepeats(w.batch)
    && ServiceOk(s, k, w)
  }

  predicate ServiceOk(s: State, k: nat, w: Worker)
    requires 0 < |s.workers|
  {
    w.service.Serving? ==>
      && Sound(w.service.todo, w.service.held, w.service.held && w.service.fd in w.registered,
               w.service.server.Some?, w.service.tunnel.Some?)
      && (w.service.held ==> Given(s, k, w.service.fd) && w.service.fd !in w.armed && w.service.fd !in w.batch)
      && (w.service.server.Some? ==> w.service.server.value in s.table && s.table[w.service.server.value] == Server(k))
      && (w.service.tunnel.Some? ==> w.service.tunnel.value in s.table && s.table[w.service.tunnel.value] == Tunnel(k))
  }

  /** Every open descriptor is held by the one it belongs to. */
  predicate EntryOk(s: State, fd: nat)
    requires fd in s.table && 0 < |s.workers|
  {
    match s.table[fd]
    case Client(c) => c < s.accepted && (s.pending == Some(fd) || Holds(s.workers[c % |s.workers|], fd))
    case Server(k) => k < |s.workers| && s.workers[k].service.Serving? && s.workers[k].service.server == Some(fd)
    case Tunnel(k) => k < |s.workers| && s.workers[k].service.Serving? && s.workers[k].service.tunnel == Some(fd)
  }

  predicate MainOk(s: State)
    requires 0 < |s.workers|
  {
    match s.pending
    case None => s.roundRobin == s.accepted % |s.workers|
    case Some(fd) =>
      && 0 < s.accepted && fd in s.table && s.table[fd] == Client(s.accepted - 1)
      && s.roundRobin == (s.accepted - 1) % |s.workers|
  }

  predicate OnePerConnection(table: map<nat, Owner>) {
    forall f, g :: f in table && g in table && table[f].Client? && table[f] == table[g] ==> f == g
  }

  predicate Inv(s: State) {
    && !s.crashed && 0 < |s.workers| && MainOk(s) && OnePerConnection(s.table)
    && (forall fd :: fd in s.table ==> EntryOk(s, fd))
    && (forall k :: 0 <= k < |s.workers| ==> WorkerOk(s, k))
  }

  lemma InitialInv(s: State)
    requires Initial(s)
    ensures Inv(s)
  {
  }

  /** A worker that does not take part keeps what it has, if its descriptors keep their owners. */
  lemma WorkerKept(s: State, s': State, k: nat)
    requires 0 < |s.workers| == |s'.workers| && k < |s.workers| && WorkerOk(s, k) && s'.workers[k] == s.workers[k]
    requires forall fd :: Given(s, k, fd) ==> Given(s', k, fd)
    requires forall fd :: fd in s.table && (s.table[fd] == Server(k) || s.table[fd] == Tunnel(k)) ==>
      fd in s'.table && s'.table[fd] == s.table[fd]
    ensures WorkerOk(s', k)
  {
  }

  lemma AcceptKeeps(s: State, s': State, fd: nat)
    requires Inv(s) && Accept(s, s', fd)
    ensures Inv(s')
  {
    forall k | 0 <= k < |s'.workers|
      ensures WorkerOk(s', k)
    {
      WorkerKept(s, s', k);
    }
    forall g | g in s'.table
      ensures EntryOk(s', g)
    {
      if g != fd {
        assert EntryOk(s, g);
      }
    }
    forall f, g | f in s'.table && g in s'.table && s'.table[f].Client? && s'.table[f] == s'.table[g]
      ensures f == g
    {
      assert f != fd ==> EntryOk(s, f);
      assert g != fd ==> EntryOk(s, g);
    }
  }

  lemma GiveKeeps(s: State, s': State)
    requires Inv(s) && Give(s, s')
    ensures Inv(s')
  {
    var fd, r := s.pending.value, s.roundRobin;
    assert WorkerOk(s, r);
    forall k | 0 <= k < |s'.workers|
      ensures WorkerOk(s', k)
    {
      if k != r {
        WorkerKept(s, s', k);
      }
    }
    forall g | g in s'.table
      ensures EntryOk(s', g)
    {
      assert EntryOk(s, g);
    }
    NextInTurn(s.accepted - 1, |s.workers|);
  }

  lemma NextInTurn(n: nat, m: nat)
    requires 0 < m
    ensures (n + 1) % m == (n % m + 1) % m
  {
    var q := n / m;
    assert n + 1 == q * m + (n % m + 1);
    if n % m + 1 == m {
      DivisionIs(n + 1, m, q + 1, 0);
      DivisionIs(m, m, 1, 0);
    } else {
      DivisionIs(n + 1, m, q, n % m + 1);
      DivisionIs(n % m + 1, m, 0, n % m + 1);
    }
  }

  function ServerOf(w: Worker): Option<nat> {
    if w.service.Serving? then w.service.server else None
  }

  function TunnelOf(w: Worker): Option<nat> {
    if w.service.Serving? then w.service.tunnel else None
  }

  /** A step inside one worker that loses no descriptor. */
  lemma LocalStep(s: State, s': State, j: nat)
    requires Inv(s) && j < |s.workers| == |s'.workers| && s' == s.(workers := s.workers[j := s'.workers[j]])
    requires WorkerOk(s', j)
    requires forall fd :: Given(s, j, fd) && Holds(s.workers[j], fd) ==> Holds(s'.workers[j], fd)
    requires ServerOf(s'.workers[j]) == ServerOf(s.workers[j]) && TunnelOf(s'.workers[j]) == TunnelOf(s.workers[j])
    ensures Inv(s')
  {
    forall k | 0 <= k < |s'.workers|
      ensures WorkerOk(s', k)
    {
      if k != j {
        WorkerKept(s, s', k);
      }
    }
    forall fd | fd in s'.table
      ensures EntryOk(s', fd)
    {
      assert EntryOk(s, fd);
    }
  }

  lemma WaitKeeps(s: State, s': State, j: nat, batch: seq<nat>)
    requires Inv(s) && Wait(s, s', j, batch)
    ensures Inv(s')
  {
    assert WorkerOk(s, j);
    LocalStep(s, s', j);
  }

  lemma BeginKeeps(s: State, s': State, j: nat, kind: Kind, close: bool, undo: bool)
    requires Inv(s) && Begin(s, s', j, kind, close, undo)
    ensures Inv(s')
  {
    assert WorkerOk(s, j);
    EveryPlanIsSound(kind, close, undo);
    var w, w' := s.workers[j], s'.workers[j];
    assert w.batch[0] in w.registered;
    assert forall i :: 0 <= i < |w'.batch| ==> w'.batch[i] == w.batch[i + 1];
    LocalStep(s, s', j);
  }

  lemma ReturnKeeps(s: State, s': State, j: nat)
    requires Inv(s) && Return(s, s', j)
    ensures Inv(s')
  {
    assert WorkerOk(s, j);
    LocalStep(s, s', j);
  }

  /** The operations that open and close nothing. */
  lemma WatchKeeps(s: State, s': State, j: nat, n: nat)
    requires Inv(s) && Operate(s, s', j, n)
    requires var op := s.workers[j].service.todo[0]; op.DropServer? || op.Delete? || op.Rearm?
    ensures Inv(s')
  {
    assert WorkerOk(s, j);
    LocalStep(s, s', j);
  }

  /** A new descriptor n for worker j. */
  lemma NewDescriptor(s: State, s': State, j: nat, n: nat, owner: Owner)
    requires Inv(s) && j < |s.workers| == |s'.workers| && n !in s.table && WorkerOk(s', j)
    requires s' == s.(table := s.table[n := owner], workers := s.workers[j := s'.workers[j]])
    requires owner == Server(j) || owner == Tunnel(j)
    requires if owner.Server? then ServerOf(s'.workers[j]) == Some(n) && ServerOf(s.workers[j]) == None
             else ServerOf(s'.workers[j]) == ServerOf(s.workers[j])
    requires if owner.Tunnel? then TunnelOf(s'.workers[j]) == Some(n) && TunnelOf(s.workers[j]) == None
             else TunnelOf(s'.workers[j]) == TunnelOf(s.workers[j])
    requires forall fd :: Holds(s.workers[j], fd) ==> Holds(s'.workers[j], fd)
    ensures Inv(s')
  {
    forall k | 0 <= k < |s'.workers|
      ensures WorkerOk(s', k)
    {
      if k != j {
        WorkerKept(s, s', k);
      }
    }
    forall g | g in s'.table
      ensures EntryOk(s', g)
    {
      if g != n {
        assert EntryOk(s, g);
      }
    }
  }

  lemma OpenServerKeeps(s: State, s': State, j: nat, n: nat)
    requires Inv(s) && Operate(s, s', j, n) && s.workers[j].service.todo[0].OpenServer?
    ensures Inv(s')
  {
    assert WorkerOk(s, j);
    assert WorkerOk(s', j);
    NewDescriptor(s, s', j, n, Server(j));
  }

  lemma OpenTunnelKeeps(s: State, s': State, j: nat, n: nat)
    requires Inv(s) && Operate(s, s', j, n) && s.workers[j].service.todo[0].OpenTunnel?
    ensures Inv(s')
  {
    assert WorkerOk(s, j);
    assert WorkerOk(s', j);
    NewDescriptor(s, s', j, n, Tunnel(j));
  }

  lemma ForgetOthers(s: State, workers: seq<Worker>, fd: nat, j: nat)
    requires Inv(s) && j < |s.workers| && |workers| == |s.workers| && fd in s.table
    requires forall k :: 0 <= k < |workers| && k != j ==> workers[k] == s.workers[k]
    requires s.table[fd].Client? ==> s.table[fd].conn % |s.workers| == j
    ensures forall k :: 0 <= k < |workers| && k != j ==> Forget(workers, fd)[k] == s.workers[k]
  {
    forall k | 0 <= k < |workers| && k != j
      ensures Forget(workers, fd)[k] == s.workers[k]
    {
      assert WorkerOk(s, k);
      assert fd !in s.workers[k].registered;
      assert s.workers[k].registered - {fd} == s.workers[k].registered;
      assert s.workers[k].armed - {fd} == s.workers[k].armed;
    }
  }

  /** Worker j closes fd, which is its own. */
  lemma CloseKeeps(s: State, s': State, j: nat, fd: nat)
    requires Inv(s) && j < |s.workers| && fd in s.table
    requires s'.table == s.table - {fd} && s' == s.(table := s'.table, workers := s'.workers)
    requires |s'.workers| == |s.workers|
    requires forall k :: 0 <= k < |s.workers| && k != j ==> s'.workers[k] == s.workers[k]
    requires s.table[fd].Client? ==> Given(s, j, fd)
    requires s.table[fd].Server? ==> s.table[fd].worker == j
    requires s.table[fd].Tunnel? ==> s.table[fd].worker == j
    requires WorkerOk(s', j)
    requires forall g :: g != fd && Given(s, j, g) && Holds(s.workers[j], g) ==> Holds(s'.workers[j], g)
    requires ServerOf(s.workers[j]) != Some(fd) ==> ServerOf(s'.workers[j]) == ServerOf(s.workers[j])
    requires TunnelOf(s.workers[j]) != Some(fd) ==> TunnelOf(s'.workers[j]) == TunnelOf(s.workers[j])
    ensures Inv(s')
  {
    forall k | 0 <= k < |s'.workers|
      ensures WorkerOk(s', k)
    {
      if k != j {
        WorkerKept(s, s', k);
      }
    }
    forall g | g in s'.table
      ensures EntryOk(s', g)
    {
      assert EntryOk(s, g);
    }
  }

  lemma CloseServerKeeps(s: State, s': State, j: nat, n: nat)
    requires Inv(s) && Operate(s, s', j, n) && s.workers[j].service.todo[0].CloseServer?
    ensures Inv(s')
  {
    assert WorkerOk(s, j);
    var w := s.workers[j];
    var fd := w.service.server.value;
    var workers := s.workers[j := w.(service := w.service.(todo := w.service.todo[1..], server := None))];
    ForgetOthers(s, workers, fd, j);
    assert w.registered - {fd} == w.registered && w.armed - {fd} == w.armed;
    CloseKeeps(s, s', j, fd);
  }

  lemma CloseTunnelKeeps(s: State, s': State, j: nat, n: nat)
    requires Inv(s) && Operate(s, s', j, n) && s.workers[j].service.todo[0].CloseTunnel?
    ensures Inv(s')
  {
    assert WorkerOk(s, j);
    var w := s.workers[j];
    var fd := w.service.tunnel.value;
    var workers := s.workers[j := w.(service := w.service.(todo := w.service.todo[1..], tunnel := None))];
    ForgetOthers(s, workers, fd, j);
    assert w.registered - {fd} == w.registered && w.armed - {fd} == w.armed;
    CloseKeeps(s, s', j, fd);
  }

  lemma CloseClientKeeps(s: State, s': State, j: nat, n: nat)
    requires Inv(s) && Operate(s, s', j, n) && s.workers[j].service.todo[0].CloseClient?
    ensures Inv(s')
  {
    assert WorkerOk(s, j);
    var w := s.workers[j];
    var fd := w.service.fd;
    var workers := s.workers[j := w.(service := w.service.(todo := w.service.todo[1..], held := false))];
    ForgetOthers(s, workers, fd, j);
    CloseKeeps(s, s', j, fd);
  }

  lemma NextInv(s: State, s': State, a: Action)
    requires Inv(s) && Next(s, s', a)
    ensures Inv(s')
  {
    match a
    case Accepts(fd) => AcceptKeeps(s, s', fd);
    case Gives => GiveKeeps(s, s');
    case Waits(k, batch) => WaitKeeps(s, s', k, batch);
    case Begins(k, kind, close, undo) => BeginKeeps(s, s', k, kind, close, undo);
    case Returns(k) => ReturnKeeps(s, s', k);
    case Operates(k, n) =>
      match s.workers[k].service.todo[0]
      case OpenServer => OpenServerKeeps(s, s', k, n);
      case OpenTunnel => OpenTunnelKeeps(s, s', k, n);
      case CloseServer => CloseServerKeeps(s, s', k, n);
      case CloseTunnel => CloseTunnelKeeps(s, s', k, n);
      case CloseClient => CloseClientKeeps(s, s', k, n);
      case _ => WatchKeeps(s, s', k, n);
  }

  lemma {:induction false} RunInv(ss: seq<State>, aa: seq<Action>, n: nat)
    requires IsRun(ss, aa) && n < |ss|
    ensures Inv(ss[n])
  {
    if n == 0 {
      InitialInv(ss[0]);
    } else {
      RunInv(ss, aa, n - 1);
      assert Next(ss[n - 1], ss[n - 1 + 1], aa[n - 1]);
      NextInv(ss[n - 1], ss[n], aa[n - 1]);
    }
  }

  // ---------------------------------------------------------------- ownership

  /** Where a connection is. */
  datatype Place =
    | AtMain
    | Armed(worker: nat)
    | Ready(worker: nat)     // in a batch
    | Served(worker: nat)
    | Gone                   // closed

  predicate Has(s: State, fd: nat, conn: nat) {
    fd in s.table && s.table[fd] == Client(conn)
  }

  ghost predicate IsAt(s: State, conn: nat, place: Place) {
    match place
    case AtMain => s.pending.Some? && Has(s, s.pending.value, conn)
    case Armed(k) => k < |s.workers| && exists fd :: fd in s.workers[k].armed && Has(s, fd, conn)
    case Ready(k) => k < |s.workers| && exists fd :: fd in s.workers[k].batch && Has(s, fd, conn)
    case Served(k) => k < |s.workers| && exists fd :: Serves(s.workers[k], fd) && Has(s, fd, conn)
    case Gone => forall fd :: !Has(s, fd, conn)
  }

  function WorkerFor(s: State, conn: nat): nat
    requires 0 < |s.workers|
  {
    conn % |s.workers|
  }

  lemma PlaceExists(s: State, conn: nat) returns (place: Place)
    requires Inv(s)
    ensures IsAt(s, conn, place)
    ensures place.Armed? || place.Ready? || place.Served? ==> place.worker == WorkerFor(s, conn)
  {
    if forall fd: nat :: !Has(s, fd, conn) {
      return Gone;
    }
    var fd: nat :| Has(s, fd, conn);
    assert EntryOk(s, fd);
    var k := WorkerFor(s, conn);
    if s.pending == Some(fd) {
      return AtMain;
    } else if fd in s.workers[k].armed {
      return Armed(k);
    } else if fd in s.workers[k].batch {
      return Ready(k);
    } else {
      assert Serves(s.workers[k], fd);
      return Served(k);
    }
  }

  /** The descriptor by which a connection is at a place. */
  lemma PlaceOf(s: State, conn: nat, place: Place) returns (fd: nat)
    requires Inv(s) && IsAt(s, conn, place) && !place.Gone?
    ensures Has(s, fd, conn)
    ensures match place
      case AtMain => s.pending == Some(fd)
      case Armed(k) => k == WorkerFor(s, conn) && fd in s.workers[k].armed
      case Ready(k) => k == WorkerFor(s, conn) && fd in s.workers[k].batch
      case Served(k) => k == WorkerFor(s, conn) && Serves(s.workers[k], fd)
      case Gone => false
  {
    match place
    case AtMain => fd := s.pending.value;
    case Armed(k) =>
      fd :| fd in s.workers[k].armed && Has(s, fd, conn);
      assert WorkerOk(s, k);
    case Ready(k) =>
      fd :| fd in s.workers[k].batch && Has(s, fd, conn);
      assert WorkerOk(s, k);
    case Served(k) =>
      fd :| Serves(s.workers[k], fd) && Has(s, fd, conn);
      assert WorkerOk(s, k);
  }

  lemma OnePlace(s: State, conn: nat, a: Place, b: Place)
    requires Inv(s) && IsAt(s, conn, a) && IsAt(s, conn, b)
    ensures a == b
  {
    if !a.Gone? && !b.Gone? {
      var f := PlaceOf(s, conn, a);
      var g := PlaceOf(s, conn, b);
      assert f == g;
      assert WorkerOk(s, WorkerFor(s, conn));
    } else if !a.Gone? {
      var f := PlaceOf(s, conn, a);
    } else if !b.Gone? {
      var g := PlaceOf(s, conn, b);
    }
  }

  /** In every state of every run, an accepted connection is in exactly one place: with main, armed at
      its worker, waiting in its worker's batch, being served by its worker, or closed; and its worker
      is the one whose turn it was. */
  lemma EveryConnectionHasOnePlace(ss: seq<State>, aa: seq<Action>, n: nat, conn: nat)
    requires IsRun(ss, aa) && n < |ss|
    ensures exists place :: IsAt(ss[n], conn, place)
    ensures forall a, b :: IsAt(ss[n], conn, a) && IsAt(ss[n], conn, b) ==> a == b
    ensures forall place :: IsAt(ss[n], conn, place) && !place.AtMain? && !place.Gone? ==>
      0 < |ss[n].workers| && place.worker == WorkerFor(ss[n], conn)
  {
    RunInv(ss, aa, n);
    var place := PlaceExists(ss[n], conn);
    forall a, b | IsAt(ss[n], conn, a) && IsAt(ss[n], conn, b)
      ensures a == b
    {
      OnePlace(ss[n], conn, a, b);
    }
  }

  /** No Close ever fails, no descriptor is registered twice, and no re-arming misses. */
  lemma NeverCrashes(ss: seq<State>, aa: seq<Action>, n: nat)
    requires IsRun(ss, aa) && n < |ss|
    ensures !ss[n].crashed
  {
    RunInv(ss, aa, n);
  }

  /** A server's or a tunnel's descriptor is open only while the worker that opened it serves a
      connection, so that doit leaves none behind; and one whose service is over has parted with the
      client. */
  lemma NothingLeftBehind(ss: seq<State>, aa: seq<Action>, n: nat, k: nat)
    requires IsRun(ss, aa) && n < |ss| && k < |ss[n].workers|
    requires var sv := ss[n].workers[k].service; sv.Idle? || sv.todo == []
    ensures forall fd :: fd in ss[n].table ==> ss[n].table[fd] != Server(k) && ss[n].table[fd] != Tunnel(k)
    ensures forall fd :: !Serves(ss[n].workers[k], fd)
  {
    RunInv(ss, aa, n);
    assert WorkerOk(ss[n], k);
    forall fd | fd in ss[n].table
      ensures ss[n].table[fd] != Server(k) && ss[n].table[fd] != Tunnel(k)
    {
      assert EntryOk(ss[n], fd);
    }
  }

  /** What a worker closes is open and its own at that time, and not another connection that has got
      the same number since. */
  lemma ClosesItsOwn(ss: seq<State>, aa: seq<Action>, n: nat, k: nat)
    requires IsRun(ss, aa) && n < |ss| && k < |ss[n].workers|
    requires var sv := ss[n].workers[k].service; sv.Serving? && sv.todo != []
    ensures var s, sv := ss[n], ss[n].workers[k].service;
      match sv.todo[0]
      case CloseServer => sv.server.Some? && sv.server.value in s.table && s.table[sv.server.value] == Server(k)
      case CloseTunnel => sv.tunnel.Some? && sv.tunnel.value in s.table && s.table[sv.tunnel.value] == Tunnel(k)
      case CloseClient => sv.held && Given(s, k, sv.fd)
      case Rearm => sv.held && Given(s, k, sv.fd) && sv.fd in s.workers[k].registered
      case _ => true
  {
    RunInv(ss, aa, n);
    assert WorkerOk(ss[n], k);
  }

  /** Whatever the others do, a worker that serves can always take its next step, and one operation
      fewer is then left: every service ends. */
  lemma ServiceAdvances(ss: seq<State>, aa: seq<Action>, m: nat, k: nat, n: nat) returns (s': State)
    requires IsRun(ss, aa) && m < |ss| && k < |ss[m].workers| && n !in ss[m].table
    requires var sv := ss[m].workers[k].service; sv.Serving? && sv.todo != []
    ensures Next(ss[m], s', Operates(k, n)) && |s'.workers| == |ss[m].workers|
    ensures var sv := s'.workers[k].service; sv.Serving? && |sv.todo| == |ss[m].workers[k].service.todo| - 1
  {
    RunInv(ss, aa, m);
    var s := ss[m];
    assert WorkerOk(s, k);
    var w := s.workers[k];
    var sv := w.service.(todo := w.service.todo[1..]);
    match w.service.todo[0]
    case OpenServer => s' := SetService(s, k, sv.(server := Some(n))).(table := s.table[n := Server(k)]);
    case OpenTunnel => s' := SetService(s, k, sv.(tunnel := Some(n))).(table := s.table[n := Tunnel(k)]);
    case CloseServer => s' := CloseFd(SetService(s, k, sv.(server := None)), w.service.server.value);
    case CloseTunnel => s' := CloseFd(SetService(s, k, sv.(tunnel := None)), w.service.tunnel.value);
    case CloseClient => s' := CloseFd(SetService(s, k, sv.(held := false)), sv.fd);
    case DropServer => s' := SetService(s, k, sv);
    case Delete => s' := s.(workers := s.workers[k := Unregister(w, sv.fd).(service := sv)]);
    case Rearm => s' := s.(workers := s.workers[k := w.(armed := w.armed + {sv.fd}, service := sv.(held := false))]);
  }

  // ---------------------------------------------------------------- fairness

  /** How many of the first n connections are given to worker k of m in turn. */
  function Share(n: nat, k: nat, m: nat): nat
    requires 0 < m
  {
    if n == 0 then 0 else Share(n - 1, k, m) + (if (n - 1) % m == k then 1 else 0)
  }

  lemma {:induction false} ShareIs(n: nat, k: nat, m: nat)
    requires k < m
    ensures Share(n, k, m) == n / m + (if k < n % m then 1 else 0)
  {
    if n == 0 {
      DivisionIs(0, m, 0, 0);
    } else {
      ShareIs(n - 1, k, m);
      DivNext(n - 1, m);
    }
  }

  lemma DivNext(n: nat, m: nat)
    requires 0 < m
    ensures if n % m + 1 == m then (n + 1) / m == n / m + 1 && (n + 1) % m == 0
            else (n + 1) / m == n / m && (n + 1) % m == n % m + 1
  {
    var q := n / m;
    if n % m + 1 == m {
      assert n + 1 == (q + 1) * m + 0;
      DivisionIs(n + 1, m, q + 1, 0);
    } else {
      assert n + 1 == q * m + (n % m + 1);
      DivisionIs(n + 1, m, q, n % m + 1);
    }
  }

  /** In how many of the first n steps of a run main gives a connection to worker k. */
  function GivesTo(ss: seq<State>, aa: seq<Action>, n: nat, k: nat): nat
    requires |ss| == |aa| + 1 && n < |ss|
  {
    if n == 0 then 0
    else GivesTo(ss, aa, n - 1, k) + (if aa[n - 1].Gives? && ss[n - 1].roundRobin == k then 1 else 0)
  }

  /** How many connections main has given away. */
  function GivenAway(s: State): int {
    s.accepted - (if s.pending.Some? then 1 else 0)
  }

  /** A step gives at most one connection away, and to the worker in turn. */
  predicate InTurn(s: State, a: Action, s': State, m: nat) {
    && |s.workers| == |s'.workers| == m && 0 < m && 0 <= GivenAway(s)
    && GivenAway(s') == GivenAway(s) + (if a.Gives? then 1 else 0)
    && (a.Gives? ==> s.roundRobin == GivenAway(s) % m)
  }

  lemma StepInTurn(ss: seq<State>, aa: seq<Action>, n: nat)
    requires IsRun(ss, aa) && n < |aa|
    ensures InTurn(ss[n], aa[n], ss[n + 1], |ss[n].workers|)
  {
    RunInv(ss, aa, n);
    assert Next(ss[n], ss[n + 1], aa[n]);
    NextInv(ss[n], ss[n + 1], aa[n]);
  }

  lemma {:induction false} WorkersStay(ss: seq<State>, aa: seq<Action>, n: nat)
    requires IsRun(ss, aa) && n < |ss|
    ensures |ss[n].workers| == |ss[0].workers|
  {
    if n > 0 {
      WorkersStay(ss, aa, n - 1);
      StepInTurn(ss, aa, n - 1);
    }
  }

  lemma {:induction false} CountInTurn(ss: seq<State>, aa: seq<Action>, n: nat, k: nat, m: nat)
    requires |ss| == |aa| + 1 && n < |ss| && 0 < m && GivenAway(ss[0]) == 0
    requires forall i :: 0 <= i < |aa| ==> InTurn(ss[i], aa[i], ss[i + 1], m)
    ensures 0 <= GivenAway(ss[n]) && GivesTo(ss, aa, n, k) == Share(GivenAway(ss[n]), k, m)
  {
    if n > 0 {
      CountInTurn(ss, aa, n - 1, k, m);
      assert InTurn(ss[n - 1], aa[n - 1], ss[n - 1 + 1], m);
    }
  }

  /** In every run, main gives worker k a connection exactly as often as its turn comes among the
      connections given away. */
  lemma GivesAreShares(ss: seq<State>, aa: seq<Action>, n: nat, k: nat)
    requires IsRun(ss, aa) && n < |ss|
    ensures 0 < |ss[0].workers| && 0 <= GivenAway(ss[n])
    ensures GivesTo(ss, aa, n, k) == Share(GivenAway(ss[n]), k, |ss[0].workers|)
  {
    var m := |ss[0].workers|;
    assert Initial(ss[0]);
    forall i | 0 <= i < |aa|
      ensures InTurn(ss[i], aa[i], ss[i + 1], m)
    {
      WorkersStay(ss, aa, i);
      StepInTurn(ss, aa, i);
    }
    CountInTurn(ss, aa, n, k, m);
  }

  /** At every moment of every run, the numbers of connections that two workers have been given differ
      by at most one. */
  lemma GivesDifferByOne(ss: seq<State>, aa: seq<Action>, n: nat, k: nat, l: nat)
    requires IsRun(ss, aa) && n < |ss| && k < |ss[0].workers| && l < |ss[0].workers|
    ensures -1 <= GivesTo(ss, aa, n, k) - GivesTo(ss, aa, n, l) <= 1
  {
    GivesAreShares(ss, aa, n, k);
    GivesAreShares(ss, aa, n, l);
    ShareIs(GivenAway(ss[n]), k, |ss[0].workers|);
    ShareIs(GivenAway(ss[n]), l, |ss[0].workers|);
  }
}
