/** connect_handler of proxy.c: which descriptors it opens and closes, and what the tunnel of a CONNECT
    request carries. */
module Tunnel {
  import opened Rio
  import Chunked

  // ---------------------------------------------------------------- descriptors

  /** A call that changes descriptors. */
  datatype Call =
    | Opened(fd: nat)
    | Closed(fd: nat)
    | Deleted(epollfd: nat, fd: nat)
    | Rearmed(epollfd: nat, fd: nat)

  class Kernel {
    var open: set<nat>
    var exited: bool           // a failing Close ends the program
    ghost var calls: seq<Call>

    /** socket, epoll_create1: the lowest number that is not in use. */
    method Open() returns (fd: nat)
      modifies this`open, this`calls
      ensures fd !in old(open) && forall k: nat :: k < fd ==> k in old(open)
      ensures open == old(open) + {fd} && calls == old(calls) + [Opened(fd)]
    {
      fd := Lowest(open, 0);
      open := open + {fd};
      calls := calls + [Opened(fd)];
    }

    method Close(fd: nat)
      modifies this
      ensures open == old(open) - {fd} && exited == (old(exited) || fd !in old(open))
      ensures calls == old(calls) + [Closed(fd)]
    {
      if fd !in open {
        exited := true;
      }
      open := open - {fd};
      calls := calls + [Closed(fd)];
    }

    method EpollDelete(epollfd: nat, fd: nat)
      modifies this`calls
      ensures calls == old(calls) + [Deleted(epollfd, fd)]
    {
      calls := calls + [Deleted(epollfd, fd)];
    }

    /** reset_oneshot. */
    method ResetOneshot(epollfd: nat, fd: nat)
      modifies this`calls
      ensures calls == old(calls) + [Rearmed(epollfd, fd)]
    {
      calls := calls + [Rearmed(epollfd, fd)];
    }
  }

  /** The lowest unused number from low on. */
  function Lowest(used: set<nat>, low: nat): (n: nat)
    ensures low <= n && n !in used && forall k: nat :: low <= k < n ==> k in used
    decreases |used|
  {
    if low !in used then low
    else
      var n := Lowest(used - {low}, low + 1);
      assert forall k: nat :: low <= k < n ==> k in used by {
        forall k: nat | low < k < n ensures k in used {
          assert k in used - {low};
        }
      }
      assert n !in used - {low};
      n
  }

  // ---------------------------------------------------------------- the tunnel

  /** What one read from a peer gives; Again stands for every error. */
  datatype Got = Text(bytes: string) | Eof | Again

  predicate ValidReads(script: seq<Got>) {
    forall i :: 0 <= i < |script| && script[i].Text? ==> 0 < |script[i].bytes| <= Chunked.MAXLINE
  }

  function BytesOf(script: seq<Got>): string {
    if script == [] then "" else (if script[0].Text? then script[0].bytes else "") + BytesOf(script[1..])
  }

  /** A read that fills the buffer, after which one reads again. */
  predicate Fills(got: Got) {
    got.Text? && |got.bytes| == Chunked.MAXLINE
  }

  /** How many reads in a row fill the buffer. */
  function Full(script: seq<Got>): nat {
    if script != [] && Fills(script[0]) then 1 + Full(script[1..]) else 0
  }

  /** What is left after one event: what comes behind the first read that does not fill the buffer. */
  function Rest(script: seq<Got>): seq<Got> {
    if script == [] then [] else if Fills(script[0]) then Rest(script[1..]) else script[1..]
  }

  /** That read is an end of file. */
  predicate MeetsEof(script: seq<Got>) {
    script != [] && if Fills(script[0]) then MeetsEof(script[1..]) else script[0].Eof?
  }

  /** The portions passed on at one event. */
  function Portions(script: seq<Got>): seq<string> {
    if script == [] || !script[0].Text? then []
    else [script[0].bytes] + if Fills(script[0]) then Portions(script[1..]) else []
  }

  /** One event reads up to the first read that comes short, and no further. */
  lemma {:induction false} OneEventReads(script: seq<Got>)
    ensures var k := Full(script);
      && k <= |script|
      && (forall i :: 0 <= i < k ==> script[i].Text? && |script[i].bytes| == 8192)
      && (k < |script| ==> !(script[k].Text? && |script[k].bytes| == 8192))
      && Rest(script) == (if k < |script| then script[k + 1..] else [])
      && (MeetsEof(script) <==> k < |script| && script[k].Eof?)
      && |Portions(script)| == (if k < |script| && script[k].Text? then k + 1 else k)
      && (forall i :: 0 <= i < |Portions(script)| ==> script[i].Text? && Portions(script)[i] == script[i].bytes)
  {
    if script != [] && Fills(script[0]) {
      OneEventReads(script[1..]);
    }
  }

  predicate IsSuffix(left: seq<Got>, all: seq<Got>) {
    |left| <= |all| && left == all[|all| - |left|..]
  }

  /** The portions are what has been read, in order. */
  predicate Carried(all: seq<Got>, left: seq<Got>, portions: seq<string>) {
    IsSuffix(left, all) && BytesOf(all) == Concat(portions) + BytesOf(left)
  }

  lemma {:induction false} OneEventCarries(script: seq<Got>)
    ensures Carried(script, Rest(script), Portions(script))
  {
    if script != [] && Fills(script[0]) {
      OneEventCarries(script[1..]);
      OneCarried(script);
      CarriedMore(script, script[1..], [script[0].bytes], Rest(script), Portions(script[1..]));
    } else if script != [] {
      OneCarried(script);
      assert script[0].Text? ==> [script[0].bytes] + [] == [script[0].bytes];
    }
  }

  /** What is written to the peer and what is left to read make up the input if and only if no rio_writen
      gives up. */
  lemma CarriesIff(before: Output, all: seq<Got>, left: seq<Got>, portions: seq<string>)
    requires Carried(all, left, portions)
    ensures Send(before, portions).written + BytesOf(left) == before.written + BytesOf(all)
      <==> AllAccepted(before, portions)
  {
    SentWholeIff(before, portions);
    var after := Send(before, portions);
    Grouping(before.written, Concat(portions), BytesOf(left));
    if after.written + BytesOf(left) == before.written + BytesOf(all) {
      assert |after.written| + |BytesOf(left)| == |before.written| + |Concat(portions)| + |BytesOf(left)|;
    }
  }

  lemma CarriedMore(all: seq<Got>, some: seq<Got>, first: seq<string>, left: seq<Got>, second: seq<string>)
    requires Carried(all, some, first) && Carried(some, left, second)
    ensures Carried(all, left, first + second)
  {
    ConcatJoin(first, second);
    Grouping(Concat(first), Concat(second), BytesOf(left));
  }

  lemma NothingCarried(all: seq<Got>)
    ensures Carried(all, all, [])
  {
    assert "" + BytesOf(all) == BytesOf(all);
  }

  /** One read, and what it carries. */
  lemma OneCarried(all: seq<Got>)
    requires all != []
    ensures Carried(all, all[1..], if all[0].Text? then [all[0].bytes] else [])
  {
    if all[0].Text? {
      ConcatOne([], all[0].bytes);
      assert [] + [all[0].bytes] == [all[0].bytes] && "" + all[0].bytes == all[0].bytes;
    } else {
      assert "" + BytesOf(all[1..]) == BytesOf(all[1..]);
    }
  }

  /** What is still to be read from each peer of a tunnel, what has been passed on from the client (up) and
      from the server (down), and whether an end of file has been met. */
  datatype Flow = Flow(client: seq<Got>, server: seq<Got>, up: seq<string>, down: seq<string>, eof: bool)

  function Start(client: seq<Got>, server: seq<Got>): Flow {
    Flow(client, server, [], [], false)
  }

  /** Lines 284-328: one event. */
  function EventFlow(f: Flow, fromClient: bool): Flow {
    if fromClient
    then f.(client := Rest(f.client), up := f.up + Portions(f.client), eof := f.eof || MeetsEof(f.client))
    else f.(server := Rest(f.server), down := f.down + Portions(f.server), eof := f.eof || MeetsEof(f.server))
  }

  /** The events of one epoll_wait: all of them are handled, whatever they meet. */
  function BatchFlow(f: Flow, events: seq<bool>): Flow
    decreases |events|
  {
    if events == [] then f else BatchFlow(EventFlow(f, events[0]), events[1..])
  }

  /** Lines 277-332: batches until one has met an end of file. */
  function TunnelFlow(f: Flow, batches: seq<seq<bool>>): Flow
    decreases |batches|
  {
    if f.eof || batches == [] then f else TunnelFlow(BatchFlow(f, batches[0]), batches[1..])
  }

  /** All batches. */
  function AllFlow(f: Flow, batches: seq<seq<bool>>): Flow {
    if batches == [] then f else BatchFlow(AllFlow(f, batches[..|batches| - 1]), batches[|batches| - 1])
  }

  lemma {:induction false} AllFlowFirst(f: Flow, batches: seq<seq<bool>>)
    requires batches != []
    ensures AllFlow(f, batches) == AllFlow(BatchFlow(f, batches[0]), batches[1..])
  {
    var n := |batches| - 1;
    if n > 0 {
      AllFlowFirst(f, batches[..n]);
      assert batches[..n][1..] == batches[1..][..n - 1] && batches[..n][0] == batches[0];
      assert batches[1..][n - 1] == batches[n];
    } else {
      assert batches[..n] == [] && batches[1..] == [];
      assert AllFlow(f, batches[..n]) == f;
    }
  }

  /** The tunnel handles the batches up to and including the first one that meets an end of file, all of
      them if none does. */
  lemma {:induction false} TunnelStops(f: Flow, batches: seq<seq<bool>>) returns (k: nat)
    ensures k <= |batches| && TunnelFlow(f, batches) == AllFlow(f, batches[..k])
    ensures forall j :: 0 <= j < k ==> !AllFlow(f, batches[..j]).eof
    ensures k < |batches| ==> AllFlow(f, batches[..k]).eof
    decreases |batches|
  {
    if f.eof || batches == [] {
      k := 0;
    } else {
      var next := BatchFlow(f, batches[0]);
      var m := TunnelStops(next, batches[1..]);
      k := m + 1;
      forall j | 0 < j <= k
        ensures AllFlow(f, batches[..j]) == AllFlow(next, batches[1..][..j - 1])
      {
        AllFlowFirst(f, batches[..j]);
        assert batches[..j][1..] == batches[1..][..j - 1];
      }
      assert batches[..0] == [];
    }
  }

  /** An end of file is met if and only if one of the events meets one. */
  lemma {:induction false} BatchMeetsEof(f: Flow, events: seq<bool>)
    ensures BatchFlow(f, events).eof <==> f.eof || exists n :: 0 <= n < |events| && Meets(f, events, n)
    decreases |events|
  {
    if events != [] {
      var next := EventFlow(f, events[0]);
      BatchMeetsEof(next, events[1..]);
      forall n | 0 <= n < |events| - 1 ensures Meets(next, events[1..], n) == Meets(f, events, n + 1) {
        assert events[..n + 1][1..] == events[1..][..n] && events[..n + 1][0] == events[0];
      }
      assert events[..0] == [] && (next.eof <==> f.eof || Meets(f, events, 0));
      if exists n :: 0 <= n < |events| && Meets(f, events, n) {
        var n :| 0 <= n < |events| && Meets(f, events, n);
        assert n > 0 ==> Meets(next, events[1..], n - 1);
      }
    }
  }

  /** Event n reads an end of file. */
  predicate Meets(f: Flow, events: seq<bool>, n: nat)
    requires n < |events|
  {
    var now := BatchFlow(f, events[..n]);
    MeetsEof(if events[n] then now.client else now.server)
  }

  lemma FlowMore(client: seq<Got>, server: seq<Got>, f: Flow, fromClient: bool)
    requires Carried(client, f.client, f.up) && Carried(server, f.server, f.down)
    ensures var g := EventFlow(f, fromClient); Carried(client, g.client, g.up) && Carried(server, g.server, g.down)
  {
    if fromClient {
      OneEventCarries(f.client);
      CarriedMore(client, f.client, f.up, Rest(f.client), Portions(f.client));
    } else {
      OneEventCarries(f.server);
      CarriedMore(server, f.server, f.down, Rest(f.server), Portions(f.server));
    }
  }

  lemma {:induction false} BatchCarries(client: seq<Got>, server: seq<Got>, f: Flow, events: seq<bool>)
    requires Carried(client, f.client, f.up) && Carried(server, f.server, f.down)
    ensures var g := BatchFlow(f, events); Carried(client, g.client, g.up) && Carried(server, g.server, g.down)
    decreases |events|
  {
    if events != [] {
      FlowMore(client, server, f, events[0]);
      BatchCarries(client, server, EventFlow(f, events[0]), events[1..]);
    }
  }

  lemma {:induction false} BatchesCarry(client: seq<Got>, server: seq<Got>, f: Flow, batches: seq<seq<bool>>)
    requires Carried(client, f.client, f.up) && Carried(server, f.server, f.down)
    ensures var g := TunnelFlow(f, batches); Carried(client, g.client, g.up) && Carried(server, g.server, g.down)
    decreases |batches|
  {
    if !f.eof && batches != [] {
      BatchCarries(client, server, f, batches[0]);
      BatchesCarry(client, server, BatchFlow(f, batches[0]), batches[1..]);
    }
  }

  /** In both directions a tunnel passes on all that it reads, in order. */
  lemma TunnelCarries(client: seq<Got>, server: seq<Got>, batches: seq<seq<bool>>)
    ensures var f := TunnelFlow(Start(client, server), batches);
      Carried(client, f.client, f.up) && Carried(server, f.server, f.down)
  {
    NothingCarried(client);
    NothingCarried(server);
    BatchesCarry(client, server, Start(client, server), batches);
  }

  /** For example, a peer whose kernel takes one byte and then has no room gets "ac" for "abc". */
  lemma TunnelLoses(script: seq<Got>)
    requires script == [Text("ab"), Text("c"), Eof]
    ensures var f := TunnelFlow(Start(script, []), [[true], [true], [true]]);
      && f == Flow([], [], ["ab", "c"], [], true)
      && Send(Output("", [Accept(1), Refuse(false)]), f.up).written == "ac"
  {
    RefusalLoses();
    TwoReads(script, Text("ab"), Text("c"));
  }

  lemma TwoReads(script: seq<Got>, a: Got, b: Got)
    requires a.Text? && b.Text? && !Fills(a) && !Fills(b) && script == [a, b, Eof]
    ensures TunnelFlow(Start(script, []), [[true], [true], [true]]) == Flow([], [], [a.bytes, b.bytes], [], true)
  {
    var f0 := Start(script, []);
    var f1 := Flow([b, Eof], [], [a.bytes], [], false);
    var f2 := Flow([Eof], [], [a.bytes, b.bytes], [], false);
    var f3 := Flow([], [], [a.bytes, b.bytes], [], true);
    OneBatch(f0);
    OneBatch(f1);
    OneBatch(f2);
    assert script[1..] == [b, Eof] && [b, Eof][1..] == [Eof] && [Eof][1..] == [];
    assert BatchFlow(f0, [true]) == f1 && BatchFlow(f1, [true]) == f2 && BatchFlow(f2, [true]) == f3;
    TunnelFlowCons(f2, [true], []);
    TunnelFlowCons(f1, [true], [[true]]);
    TunnelFlowCons(f0, [true], [[true], [true]]);
    assert [[true]] + [[true], [true]] == [[true], [true], [true]] && [[true]] + [[true]] == [[true], [true]];
    assert [[true]] + [] == [[true]];
  }

  lemma OneBatch(f: Flow)
    ensures BatchFlow(f, [true]) == EventFlow(f, true)
  {
    assert [true][1..] == [];
  }

  lemma TunnelFlowCons(f: Flow, events: seq<bool>, rest: seq<seq<bool>>)
    requires !f.eof
    ensures TunnelFlow(f, [events] + rest) == TunnelFlow(BatchFlow(f, events), rest)
  {
    assert ([events] + rest)[1..] == rest;
  }

  // ---------------------------------------------------------------- the handler

  /** Lines 285-305 and 307-327: what one peer sends goes to the other, until a read comes short. A
      peer whose script has ended has nothing to read for now. */
  method Pump(sink: Sink, script: seq<Got>) returns (left: seq<Got>, eof: bool)
    requires ValidWrites(sink.script) && ValidReads(script)
    modifies sink
    ensures ValidWrites(sink.script) && ValidReads(left)
    ensures left == Rest(script) && (eof <==> MeetsEof(script))
    ensures sink.State() == Send(old(sink.State()), Portions(script))
  {
    hide Send, Full, BytesOf;
    left, eof := script, false;
    ghost var before, done := sink.State(), [];
    var go := true;
    Chunked.SendNothing(before);
    assert [] + Portions(script) == Portions(script);
    while go && left != []
      invariant ValidWrites(sink.script) && ValidReads(left)
      invariant sink.State() == Send(before, done)
      invariant if go then !eof && Rest(script) == Rest(left) && (MeetsEof(script) <==> MeetsEof(left)) &&
                           Portions(script) == done + Portions(left)
                else left == Rest(script) && (eof <==> MeetsEof(script)) && Portions(script) == done
      decreases go, |left|
    {
      var got := left[0];
      ghost var some := left;
      left := left[1..];
      go := got.Text? && |got.bytes| == Chunked.MAXLINE;
      if got.Text? {
        sink.Put(got.bytes);
        SendJoin(before, done, [got.bytes]);
        PortionsMore(done, some);
        done := done + [got.bytes];
      } else {
        assert done + [] == done;
        eof := got.Eof?;
      }
    }
    assert done + [] == done;
  }

  lemma PortionsMore(done: seq<string>, script: seq<Got>)
    requires script != [] && script[0].Text?
    ensures done + Portions(script)
         == if Fills(script[0]) then (done + [script[0].bytes]) + Portions(script[1..]) else done + [script[0].bytes]
  {
    assert [script[0].bytes] + [] == [script[0].bytes];
  }

  /** The two peers of a tunnel: what is still to be read from each, and what is written to each. */
  datatype Peers = Peers(client: seq<Got>, server: seq<Got>, toClient: Sink, toServer: Sink)

  ghost predicate ValidPeers(p: Peers)
    reads p.toClient, p.toServer
  {
    && p.toClient != p.toServer && ValidReads(p.client) && ValidReads(p.server)
    && ValidWrites(p.toClient.script) && ValidWrites(p.toServer.script)
  }

  /** The peers are where the flow is; before are the outputs from which it started. */
  ghost predicate FlowsTo(p: Peers, f: Flow, toServer: Output, toClient: Output)
    reads p.toClient, p.toServer
  {
    && p.client == f.client && p.server == f.server
    && p.toServer.State() == Send(toServer, f.up) && p.toClient.State() == Send(toClient, f.down)
  }

  /** Lines 277-332. */
  method CarryBoth(peers: Peers, batches: seq<seq<bool>>, ghost f0: Flow, ghost toServer: Output,
      ghost toClient: Output)
    returns (left: Peers)
    requires ValidPeers(peers) && FlowsTo(peers, f0, toServer, toClient) && !f0.eof
    modifies peers.toClient, peers.toServer
    ensures left.toClient == peers.toClient && left.toServer == peers.toServer && ValidPeers(left)
    ensures FlowsTo(left, TunnelFlow(f0, batches), toServer, toClient)
  {
    left := peers;
    ghost var f := f0;
    var disconnect, k := false, 0;
    while k < |batches| && !disconnect
      invariant k <= |batches|
      invariant left.toClient == peers.toClient && left.toServer == peers.toServer && ValidPeers(left)
      invariant FlowsTo(left, f, toServer, toClient) && disconnect == f.eof
      invariant TunnelFlow(f0, batches) == TunnelFlow(f, batches[k..])
    {
      TunnelFlowCons(f, batches[k], batches[k + 1..]);
      assert batches[k..] == [batches[k]] + batches[k + 1..];
      left, disconnect := CarryBatch(left, batches[k], f, toServer, toClient);
      f := BatchFlow(f, batches[k]);
      k := k + 1;
    }
  }

  /** Lines 283-330: the events of one epoll_wait. */
  method CarryBatch(peers: Peers, events: seq<bool>, ghost f0: Flow, ghost toServer: Output, ghost toClient: Output)
    returns (left: Peers, disconnect: bool)
    requires ValidPeers(peers) && FlowsTo(peers, f0, toServer, toClient) && !f0.eof
    modifies peers.toClient, peers.toServer
    ensures left.toClient == peers.toClient && left.toServer == peers.toServer && ValidPeers(left)
    ensures FlowsTo(left, BatchFlow(f0, events), toServer, toClient) && disconnect == BatchFlow(f0, events).eof
  {
    left, disconnect := peers, false;
    ghost var f := f0;
    for n := 0 to |events|
      invariant left.toClient == peers.toClient && left.toServer == peers.toServer && ValidPeers(left)
      invariant FlowsTo(left, f, toServer, toClient) && disconnect == f.eof
      invariant BatchFlow(f0, events) == BatchFlow(f, events[n..])
    {
      var eof;
      assert events[n..][1..] == events[n + 1..];
      left, eof := OneEvent(left, events[n], f, toServer, toClient);
      f := EventFlow(f, events[n]);
      if eof {
        disconnect := true;
      }
    }
  }

  /** Lines 284-328. */
  method OneEvent(peers: Peers, fromClient: bool, ghost f: Flow, ghost toServer: Output, ghost toClient: Output)
    returns (left: Peers, eof: bool)
    requires ValidPeers(peers) && FlowsTo(peers, f, toServer, toClient)
    modifies peers.toClient, peers.toServer
    ensures left.toClient == peers.toClient && left.toServer == peers.toServer && ValidPeers(left)
    ensures FlowsTo(left, EventFlow(f, fromClient), toServer, toClient)
    ensures eof <==> MeetsEof(if fromClient then f.client else f.server)
  {
    hide Rest, MeetsEof, Portions;
    var rest;
    if fromClient {
      SendJoin(toServer, f.up, Portions(f.client));
      rest, eof := Pump(peers.toServer, peers.client);
      left := peers.(client := rest);
    } else {
      SendJoin(toClient, f.down, Portions(f.server));
      rest, eof := Pump(peers.toClient, peers.server);
      left := peers.(server := rest);
    }
  }

  /** The empty line that ends the head of the reply to CONNECT. */
  const HEAD_END: seq<string> := ["\r\n"]

  /** The descriptor calls of connect_handler. */
  function TunnelCalls(undo: bool, clientfd: nat, serverfd: nat, tunnelfd: nat): seq<Call> {
    [Opened(tunnelfd)] + (if undo then [Deleted(tunnelfd, serverfd)] else [])
    + [Closed(clientfd)] + [Closed(serverfd)] + [Closed(tunnelfd)]
  }

  /** Lines 275-332 are reached if both peers have been added. */
  function HandlerFlow(added: bool, client: seq<Got>, server: seq<Got>, batches: seq<seq<bool>>): Flow {
    TunnelFlow(Start(client, server), if added then batches else [])
  }

  function Greeting(added: bool): seq<string> {
    if added then HEAD_END else []
  }

  /** connect_handler. addServer and addClient tell whether epoll_ctl succeeds; batches are the results
      of epoll_wait, true for an event of the client, until it fails. Whatever happens, the client, the
      server and the handler's own epoll descriptor are closed, and nothing else; of what each peer sends
      that is passed to rio_writen for the other which the events tell to read before an end of file stops
      the loop. */
  method ConnectHandler(kernel: Kernel, clientfd: nat, serverfd: nat, addServer: bool, addClient: bool,
      peers: Peers, batches: seq<seq<bool>>)
    returns (left: Peers, ghost tunnelfd: nat)
    requires ValidPeers(peers) && clientfd != serverfd && {clientfd, serverfd} <= kernel.open && !kernel.exited
    modifies kernel, peers.toClient, peers.toServer
    ensures kernel.open == old(kernel.open) - {clientfd, serverfd} && !kernel.exited
    ensures kernel.calls == old(kernel.calls) + TunnelCalls(addServer && !addClient, clientfd, serverfd, tunnelfd)
    ensures ValidPeers(left) && left.toClient == peers.toClient && left.toServer == peers.toServer
    ensures var f := HandlerFlow(addServer && addClient, peers.client, peers.server, batches);
      && left.client == f.client && left.server == f.server
      && peers.toServer.State() == Send(old(peers.toServer.State()), f.up)
      && peers.toClient.State() == Send(old(peers.toClient.State()), Greeting(addServer && addClient) + f.down)
  {
    hide HandlerFlow, Send, Greeting, ValidReads;
    var epollfd := kernel.Open();
    tunnelfd := epollfd;
    if addServer && !addClient {
      kernel.EpollDelete(epollfd, serverfd);
    }
    left := GreetAndCarry(peers, addServer && addClient, batches);
    kernel.Close(clientfd);
    kernel.Close(serverfd);
    kernel.Close(epollfd);
  }

  /** Lines 275-332, if both peers have been added. */
  method GreetAndCarry(peers: Peers, added: bool, batches: seq<seq<bool>>) returns (left: Peers)
    requires ValidPeers(peers)
    modifies peers.toClient, peers.toServer
    ensures ValidPeers(left) && left.toClient == peers.toClient && left.toServer == peers.toServer
    ensures var f := HandlerFlow(added, peers.client, peers.server, batches);
      && left.client == f.client && left.server == f.server
      && peers.toServer.State() == Send(old(peers.toServer.State()), f.up)
      && peers.toClient.State() == Send(old(peers.toClient.State()), Greeting(added) + f.down)
  {
    left := peers;
    ghost var f := HandlerFlow(added, peers.client, peers.server, batches);
    ghost var toClient := peers.toClient.State();
    if added {
      left.toClient.Put("\r\n");
      left := CarryBoth(left, batches, Start(peers.client, peers.server), left.toServer.State(), left.toClient.State());
      SendJoin(toClient, HEAD_END, f.down);
    } else {
      assert Greeting(added) + f.down == [];
    }
  }
}
