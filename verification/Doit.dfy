/** doit and reply_nonconnection of proxy.c: a request is read, parsed and served, and the descriptors
    that are opened for it are closed. */
module Doit {
  import opened Rio
  import opened Chunked
  import opened Tunnel
  import opened RequestGrammar
  import Headers
  import Exchange
  import RequestParser
  import Messages

  // ---------------------------------------------------------------- kinds of requests

  /** What is decided on: the method and the version of an accepted request line. */
  datatype Request = Request(method_: string, version: string)

  /** What doit does to the descriptors of a request, in order. */
  datatype Op =
    | OpenServer
    | CloseServer
    | OpenTunnel      // the epoll descriptor of connect_handler
    | DropServer      // line 268
    | CloseTunnel
    | Delete          // line 509 and others: the client is no longer watched
    | Rearm           // line 537: the client is watched again
    | CloseClient

  /** How a request is served. */
  datatype Kind =
    | BadLine         // line 455: parse_requestline fails
    | Unreachable     // line 467: open_clientfd fails
    | Version10
    | Connect         // the tunnel
    | Exchange        // GET and POST
    | Unimplemented   // any other method of HTTP/1.1
    | OtherVersion

  function KindOf(request: Option<Request>, reachable: bool): Kind {
    if request.None? then BadLine
    else if !reachable then Unreachable
    else if request.value.version == "HTTP/1.0" then Version10
    else if request.value.version != "HTTP/1.1" then OtherVersion
    else if Headers.IsWord(request.value.method_, "connect") then Connect
    else if Headers.IsWord(request.value.method_, "get") || Headers.IsWord(request.value.method_, "post") then Exchange
    else Unimplemented
  }

  /** close tells whether a peer has asked for the end of the connection, undo whether the tunnel's
      second epoll_ctl fails. */
  function Plan(kind: Kind, close: bool, undo: bool): seq<Op> {
    match kind
    case BadLine => [CloseClient]
    case Unreachable => [CloseClient]
    case Version10 => [OpenServer, Delete, CloseServer, CloseClient]
    case Connect =>
      [OpenServer, Delete, OpenTunnel] + (if undo then [DropServer] else []) + [CloseClient, CloseServer, CloseTunnel]
    case Exchange =>
      if close then [OpenServer, CloseServer, Delete, CloseClient] else [OpenServer, CloseServer, Rearm]
    case Unimplemented => [OpenServer, Delete, CloseServer, CloseClient]
    case OtherVersion => [OpenServer, Delete, CloseClient, CloseServer]
  }

  function CallOf(op: Op, fd: nat, epollfd: nat, serverfd: nat, tunnelfd: nat): Call {
    match op
    case OpenServer => Opened(serverfd)
    case CloseServer => Closed(serverfd)
    case OpenTunnel => Opened(tunnelfd)
    case DropServer => Deleted(tunnelfd, serverfd)
    case CloseTunnel => Closed(tunnelfd)
    case Delete => Deleted(epollfd, fd)
    case Rearm => Rearmed(epollfd, fd)
    case CloseClient => Closed(fd)
  }

  function Calls(plan: seq<Op>, fd: nat, epollfd: nat, serverfd: nat, tunnelfd: nat): (calls: seq<Call>)
    ensures |calls| == |plan|
    ensures forall i :: 0 <= i < |plan| ==> calls[i] == CallOf(plan[i], fd, epollfd, serverfd, tunnelfd)
  {
    seq(|plan|, i requires 0 <= i < |plan| => CallOf(plan[i], fd, epollfd, serverfd, tunnelfd))
  }

  // ---------------------------------------------------------------- serving

  /** The connections to the two peers. */
  datatype Wires = Wires(client: Reader, toClient: Sink, server: Reader, toServer: Sink)

  ghost predicate ValidWires(w: Wires)
    reads w.client, w.client.source, w.client.buf, w.server, w.server.source, w.server.buf, w.toClient, w.toServer
  {
    && w.client.Valid() && w.server.Valid() && Exchange.Apart(w.client, w.server) && w.toClient != w.toServer
    && ValidWrites(w.toClient.script) && ValidWrites(w.toServer.script)
    && Headers.NoErrors(w.client.Unread()) && Headers.NoErrors(w.server.Unread())
  }

  /** What comes from outside: which hosts are reached at which ports, the results of epoll, what is read from the
      two ends of a tunnel, and what uninitialised variables hold. */
  datatype Outside = Outside(
    reachable: (string, string) -> bool, addServer: bool, addClient: bool, batches: seq<seq<bool>>,
    fromClient: seq<Got>, fromServer: seq<Got>,
    readBytes: int, requestJunk: Exchange.Junk, replyJunk: Exchange.Junk, replyVersion: string)

  /** The bytes of a stream without errors. */
  ghost function Chars(items: seq<Item>): (s: string)
    requires Headers.NoErrors(items)
    ensures Bytes(s) == items
  {
    seq(|items|, i requires 0 <= i < |items| => items[i].c)
  }

  /** reply_nonconnection: everything the server sends goes to the client. */
  method ReplyNonconnection(sink: Sink, reader: Reader, ghost items: seq<Item>) returns (ghost out: seq<string>)
    requires reader.Valid() && ValidWrites(sink.script) && reader.Unread() == items && Headers.NoErrors(items)
    modifies reader, reader.source, reader.buf, sink
    ensures reader.Valid() && ValidWrites(sink.script) && reader.Unread() == []
    ensures sink.State() == Send(old(sink.State()), out) && Concat(out) == Chars(items)
  {
    var buf := new char[MAXLINE];
    ghost var before := sink.State();
    out := [];
    var go := true;
    while go
      invariant reader.Valid() && ValidWrites(sink.script) && buf != reader.buf && Headers.NoErrors(reader.Unread())
      invariant sink.State() == Send(before, out)
      invariant Bytes(Concat(out)) + reader.Unread() == items
      invariant !go ==> reader.Unread() == []
      decreases go, |reader.Unread()|
    {
      go, out := CopyPortion(sink, reader, buf, before, out, items);
    }
    assert Bytes(Concat(out)) == items;
    SameBytes(Concat(out), Chars(items));
  }

  lemma SameBytes(a: string, b: string)
    requires Bytes(a) == Bytes(b)
    ensures a == b
  {
    assert forall i :: 0 <= i < |a| ==> Bytes(a)[i] == Byte(a[i]) && Bytes(b)[i] == Byte(b[i]);
  }

  /** Lines 580-583: one turn of the loop. */
  method CopyPortion(sink: Sink, reader: Reader, buf: array<char>, ghost before: Output, ghost done: seq<string>,
      ghost items: seq<Item>)
    returns (go: bool, ghost out: seq<string>)
    requires reader.Valid() && ValidWrites(sink.script) && buf != reader.buf && buf.Length == MAXLINE
    requires Headers.NoErrors(reader.Unread()) && sink.State() == Send(before, done)
    requires Bytes(Concat(done)) + reader.Unread() == items
    modifies reader, reader.source, reader.buf, sink, buf
    ensures reader.Valid() && ValidWrites(sink.script) && Headers.NoErrors(reader.Unread())
    ensures sink.State() == Send(before, out) && Bytes(Concat(out)) + reader.Unread() == items
    ensures if go then |reader.Unread()| < |old(reader.Unread())| else reader.Unread() == []
  {
    ghost var left := reader.Unread();
    ghost var t := TakeN(left, MAXLINE);
    Headers.TakeNNoErrors(left, MAXLINE);
    PortionOf(left);
    var n := reader.ReadNb(buf, MAXLINE);
    out := done;
    go := n != 0;
    if go {
      assert buf[..][..n] == t.bytes;
      sink.Put(buf[..n]);
      PortionAdded(before, done, t.bytes, left, t.rest);
      out := done + [t.bytes];
    }
  }

  lemma PortionOf(items: seq<Item>)
    requires Headers.NoErrors(items)
    ensures var t := TakeN(items, MAXLINE);
      && items == Bytes(t.bytes) + t.rest && Headers.NoErrors(t.rest) && |t.bytes| + |t.rest| == |items|
      && (t.bytes == "" ==> items == [] && t.rest == [])
  {
    var t := TakeN(items, MAXLINE);
    Headers.TakeNNoErrors(items, MAXLINE);
    TakeNConserves(items, MAXLINE);
    TakeNLength(items, MAXLINE);
    assert Bytes(t.bytes) + [] == Bytes(t.bytes);
    Headers.NoErrorsTail(Bytes(t.bytes), t.rest);
  }

  lemma PortionAdded(before: Output, done: seq<string>, portion: string, left: seq<Item>, rest: seq<Item>)
    requires left == Bytes(portion) + rest
    ensures Send(Send(before, done), [portion]) == Send(before, done + [portion])
    ensures Bytes(Concat(done + [portion])) + rest == Bytes(Concat(done)) + left
  {
    SendJoin(before, done, [portion]);
    ConcatOne(done, portion);
    BytesConcat(Concat(done), portion, rest);
  }

  const NOT_FOUND := "HTTP/1.0 404 Not found\r\n"
  const NOT_IMPLEMENTED := "HTTP/1.0 501 Not implemented\r\n"

  /** What has been written to the two peers. */
  datatype Outputs = Outputs(toServer: Output, toClient: Output)

  /** The client gets one line and the server nothing. */
  predicate OnlyTold(line: string, before: Outputs, after: Outputs) {
    after.toServer == before.toServer && after.toClient == Send(before.toClient, [line])
  }

  /** What serving a request of some kind writes, and whether an exchange closes the connection; asked
      is the stream behind the request line. */
  ghost predicate Served(kind: Kind, f: RequestParser.Fields, outside: Outside, asked: seq<Item>, answered: seq<Item>,
      ending: Ending, close: bool, course: Exchange.Course, before: Outputs, after: Outputs)
    requires Headers.NoErrors(asked) && Headers.NoErrors(answered)
  {
    match kind
    case Version10 =>
      && after.toServer == Send(before.toServer, Asked(f, outside, asked, course))
      && after.toClient == Send(before.toClient, course.replyBody)
      && ending == course.requestEnding && RequestPassed(f, outside, asked, course)
      && (if ending == Finished then Concat(course.replyBody) == Chars(answered) else course.replyBody == [])
    case Exchange =>
      && after.toServer == Send(before.toServer, Asked(f, outside, asked, course))
      && RequestPassed(f, outside, asked, course)
      && (if course.requestEnding == Finished
          then Answered(f, outside, asked, answered, ending, close, course, before, after)
          else ending == course.requestEnding && after.toClient == before.toClient)
    case Unimplemented => ending == Finished && OnlyTold(NOT_IMPLEMENTED, before, after)
    case OtherVersion => ending == Finished && OnlyTold(NOT_IMPLEMENTED, before, after)
    case _ => false
  }

  /** The portions of the request. */
  ghost function Asked(f: RequestParser.Fields, outside: Outside, asked: seq<Item>, course: Exchange.Course)
    : seq<string>
    requires Headers.NoErrors(asked)
  {
    var line := Exchange.RequestLine(f.method_, f.loc, f.version);
    Exchange.RequestPortions(outside.requestJunk, f.host, line, asked, course.requestBody)
  }

  /** The body of the request is the one due. */
  ghost predicate RequestPassed(f: RequestParser.Fields, outside: Outside, asked: seq<Item>, course: Exchange.Course)
    requires Headers.NoErrors(asked)
  {
    exists left :: Exchange.RequestBody(outside.requestJunk, f.method_, asked, course.requestScratch,
                                        course.requestEnding, course.requestBody, left)
  }

  ghost predicate ReplyPassed(outside: Outside, closing: bool, answered: seq<Item>, ending: Ending,
      course: Exchange.Course)
    requires Headers.NoErrors(answered)
  {
    exists left :: Exchange.ReplyBody(outside.replyJunk, closing, answered, course.replyScratch,
                                      ending, course.replyBody, left)
  }

  /** The reply of an exchange, and whether it closes the connection. */
  ghost predicate Answered(f: RequestParser.Fields, outside: Outside, asked: seq<Item>, answered: seq<Item>,
      ending: Ending, close: bool, course: Exchange.Course, before: Outputs, after: Outputs)
    requires Headers.NoErrors(asked) && Headers.NoErrors(answered)
  {
    var refused := Exchange.DueOfRequest(outside.requestJunk, f.method_, asked).Unknown?;
    var closing := Exchange.Closing(refused, outside.replyVersion, answered);
    match ending
    case Finished =>
      && ReplyPassed(outside, closing, answered, ending, course)
      && after.toClient == Send(before.toClient, Exchange.ReplyPortions(outside.replyJunk,
           Exchange.LastReply(outside.requestJunk, f.method_, asked), closing, answered, course.replyBody))
      && (close <==>
            || Exchange.RequestCloses(outside.requestJunk, f.method_, asked)
            || Exchange.ReplyCloses(outside.replyJunk, closing, answered))
    case _ =>
      && ReplyPassed(outside, closing, answered, ending, course)
      && after.toClient == Send(before.toClient, Exchange.ReplyPortions(outside.replyJunk,
        Exchange.LastReply(outside.requestJunk, f.method_, asked), closing, answered, course.replyBody))
  }

  ghost function WrittenTo(w: Wires): Outputs
    reads w.toServer, w.toClient
  {
    Outputs(w.toServer.State(), w.toClient.State())
  }

  /** Lines 478-481: HTTP/1.0. */
  method ServeOld(w: Wires, f: RequestParser.Fields, outside: Outside, ghost asked: seq<Item>,
      ghost answered: seq<Item>)
    returns (ending: Ending, ghost course: Exchange.Course)
    requires ValidWires(w) && asked == w.client.Unread() && answered == w.server.Unread()
    modifies w.client, w.client.source, w.client.buf, w.server, w.server.source, w.server.buf, w.toClient, w.toServer
    ensures Served(Version10, f, outside, asked, answered, ending, true, course, old(WrittenTo(w)), WrittenTo(w))
  {
    var clientSide := new Headers.Side();
    var serverSide := new Headers.Side();
    ghost var body, scratch, left, reply;
    ending, body, scratch, left := Exchange.SendBeside(w.toServer, w.client, clientSide, serverSide,
      f.method_, f.host, f.loc, f.version, outside.requestJunk, asked, w.server, answered);
    reply := [];
    if ending == Finished {
      reply := ReplyNonconnection(w.toClient, w.server, answered);
    }
    course := Exchange.Course(ending, body, scratch, reply, "");
  }

  /** Lines 514-524: GET and POST of HTTP/1.1. */
  method ServeExchange(w: Wires, f: RequestParser.Fields, outside: Outside, ghost asked: seq<Item>,
      ghost answered: seq<Item>)
    returns (ending: Ending, close: bool, ghost course: Exchange.Course)
    requires ValidWires(w) && asked == w.client.Unread() && answered == w.server.Unread()
    modifies w.client, w.client.source, w.client.buf, w.server, w.server.source, w.server.buf, w.toClient, w.toServer
    ensures Served(Exchange, f, outside, asked, answered, ending, close, course, old(WrittenTo(w)), WrittenTo(w))
  {
    var clientSide := new Headers.Side();
    var serverSide := new Headers.Side();
    ending, close, course := Exchange.Serve(w.client, w.toClient, w.server, w.toServer, clientSide, serverSide,
      f.method_, f.host, f.loc, f.version, outside.requestJunk, outside.replyJunk, outside.replyVersion,
      asked, answered);
  }

  method ServeData(kind: Kind, w: Wires, f: RequestParser.Fields, outside: Outside, ghost asked: seq<Item>,
      ghost answered: seq<Item>)
    returns (ending: Ending, close: bool, ghost course: Exchange.Course)
    requires ValidWires(w) && asked == w.client.Unread() && answered == w.server.Unread() && HasServer(kind)
    modifies w.client, w.client.source, w.client.buf, w.server, w.server.source, w.server.buf, w.toClient, w.toServer
    ensures Served(kind, f, outside, asked, answered, ending, close, course, old(WrittenTo(w)), WrittenTo(w))
  {
    ending, close, course := Finished, true, Exchange.Course(Finished, [], "", [], "");
    if kind == Version10 {
      ending, course := ServeOld(w, f, outside, asked, answered);
    } else if kind == Exchange {
      ending, close, course := ServeExchange(w, f, outside, asked, answered);
    } else {
      w.toClient.Put(NOT_IMPLEMENTED);
    }
  }

  /** The descriptor calls behind the data. */
  function Tail(kind: Kind, close: bool): seq<Op> {
    match kind
    case Exchange => if close then [CloseServer, Delete, CloseClient] else [CloseServer, Rearm]
    case OtherVersion => [Delete, CloseClient, CloseServer]
    case _ => [Delete, CloseServer, CloseClient]
  }

  /** Lines 483-489, 527-538, 542-547 and 553-558. */
  method CloseUp(kernel: Kernel, fd: nat, epollfd: nat, server: nat, kind: Kind, close: bool, ghost tunnelfd: nat)
    requires fd != server && {fd, server} <= kernel.open && !kernel.exited && HasServer(kind)
    modifies kernel
    ensures !kernel.exited
    ensures kernel.calls == old(kernel.calls) + Calls(Tail(kind, close), fd, epollfd, server, tunnelfd)
    ensures kernel.open == old(kernel.open) - (if kind == Exchange && !close then {server} else {fd, server})
  {
    if kind == Exchange {
      kernel.Close(server);
      if close {
        kernel.EpollDelete(epollfd, fd);
        kernel.Close(fd);
      } else {
        kernel.ResetOneshot(epollfd, fd);
      }
    } else if kind == OtherVersion {
      kernel.EpollDelete(epollfd, fd);
      kernel.Close(fd);
      kernel.Close(server);
    } else {
      kernel.EpollDelete(epollfd, fd);
      kernel.Close(server);
      kernel.Close(fd);
    }
  }

  /** Lines 498-501: the lines up to the empty one, or none, by what read_bytes happens to hold. */
  ghost function SkipLines(items: seq<Item>): seq<Item>
    requires Headers.NoErrors(items)
    decreases |items|
  {
    Headers.TakeLineNoErrors(items);
    var t := TakeLine(items, Headers.MAX);
    if t.bytes == "" || CString(t.bytes + "\0") == CRLF then t.rest else SkipLines(t.rest)
  }

  method SkipHeaders(reader: Reader, line: string, readBytes: int)
    requires reader.Valid() && Headers.NoErrors(reader.Unread())
    modifies reader, reader.source, reader.buf
    ensures reader.Valid()
    ensures reader.Unread()
         == if line != CRLF && readBytes > 0 then SkipLines(old(reader.Unread())) else old(reader.Unread())
  {
    var buf := new char[MAXLINE];
    var text, n := line, readBytes;
    ghost var items := reader.Unread();
    while text != CRLF && n > 0
      invariant reader.Valid() && Headers.NoErrors(reader.Unread())
      invariant (if text != CRLF && n > 0 then SkipLines(reader.Unread()) else reader.Unread())
             == if line != CRLF && readBytes > 0 then SkipLines(items) else items
      decreases |reader.Unread()|, n
    {
      n, text := Headers.ReadHeaderLine(reader, buf);
    }
  }

  const ESTABLISHED := "HTTP/1.1 200 Connection established\r\n"

  /** Lines 497-506. */
  method GreetClient(w: Wires, line: string, outside: Outside)
    requires ValidWires(w)
    modifies w.client, w.client.source, w.client.buf, w.toClient
    ensures ValidWrites(w.toClient.script) && w.toClient.State() == Send(old(w.toClient.State()), [ESTABLISHED])
  {
    SkipHeaders(w.client, line, outside.readBytes);
    w.toClient.Put(ESTABLISHED);
  }

  /** Lines 497-512: CONNECT of HTTP/1.1. */
  method ServeConnect(kernel: Kernel, fd: nat, epollfd: nat, server: nat, w: Wires, line: string, outside: Outside)
    returns (ghost tunnelfd: nat)
    requires ValidWires(w) && ValidReads(outside.fromClient) && ValidReads(outside.fromServer)
    requires fd != server && {fd, server} <= kernel.open && !kernel.exited
    modifies kernel, w.client, w.client.source, w.client.buf, w.toClient, w.toServer
    ensures !kernel.exited && kernel.open == old(kernel.open) - {fd, server}
    ensures kernel.calls == old(kernel.calls)
      + ([Deleted(epollfd, fd)] + TunnelCalls(outside.addServer && !outside.addClient, fd, server, tunnelfd))
    ensures Tunnelled(outside, old(WrittenTo(w)), WrittenTo(w))
  {
    ghost var before := WrittenTo(w);
    GreetClient(w, line, outside);
    kernel.EpollDelete(epollfd, fd);
    tunnelfd := CarryTunnel(kernel, fd, server, w, outside, before);
  }

  method CarryTunnel(kernel: Kernel, fd: nat, server: nat, w: Wires, outside: Outside, ghost before: Outputs)
    returns (ghost tunnelfd: nat)
    requires w.toServer.State() == before.toServer && w.toClient.State() == Send(before.toClient, [ESTABLISHED])
    requires w.toClient != w.toServer && ValidWrites(w.toClient.script) && ValidWrites(w.toServer.script)
    requires ValidReads(outside.fromClient) && ValidReads(outside.fromServer)
    requires fd != server && {fd, server} <= kernel.open && !kernel.exited
    modifies kernel, w.toClient, w.toServer
    ensures !kernel.exited && kernel.open == old(kernel.open) - {fd, server}
    ensures kernel.calls
         == old(kernel.calls) + TunnelCalls(outside.addServer && !outside.addClient, fd, server, tunnelfd)
    ensures Tunnelled(outside, before, WrittenTo(w))
  {
    hide HandlerFlow;
    var added := outside.addServer && outside.addClient;
    ghost var f := HandlerFlow(added, outside.fromClient, outside.fromServer, outside.batches);
    SendJoin(before.toClient, [ESTABLISHED], Greeting(added) + f.down);
    var left;
    left, tunnelfd := ConnectHandler(kernel, fd, server, outside.addServer, outside.addClient,
      Peers(outside.fromClient, outside.fromServer, w.toClient, w.toServer), outside.batches);
  }

  /** What a tunnel writes: the head of the reply, and then what it carries. */
  predicate Tunnelled(outside: Outside, before: Outputs, after: Outputs) {
    var added := outside.addServer && outside.addClient;
    var f := HandlerFlow(added, outside.fromClient, outside.fromServer, outside.batches);
    && after.toServer == Send(before.toServer, f.up)
    && after.toClient == Send(before.toClient, [ESTABLISHED] + (Greeting(added) + f.down))
  }

  // ---------------------------------------------------------------- doit

  /** What parse_requestline makes of the line, and the fields it leaves. */
  ghost predicate IsParse(line: string, before: RequestParser.Fields, parsed: RequestParser.Result,
      f: RequestParser.Fields) {
    var o := Run(INITIAL, line, RequestParser.LIMIT);
    match parsed
    case Zero => o.Accepted? && f == RequestParser.Written(o.scan, before)
    case MinusOne => o.Rejected? && f == RequestParser.Written(o.scan, before)
    case Undefined => o.Overrun?
  }

  /** The request, if the line is accepted. */
  function RequestOf(parsed: RequestParser.Result, f: RequestParser.Fields): Option<Request> {
    if parsed == RequestParser.Zero then Some(Request(f.method_, f.version)) else None
  }

  /** Line 463: the port is 80 if the line has none and the buffer held none. */
  ghost predicate Reached(outside: Outside, f: RequestParser.Fields) {
    outside.reachable(f.host, if f.port == "" then "80" else f.port)
  }

  /** What is written to the peers. */
  ghost predicate Wrote(kind: Kind, f: RequestParser.Fields, outside: Outside, asked: seq<Item>, answered: seq<Item>,
      ending: Ending, close: bool, course: Exchange.Course, before: Outputs, after: Outputs)
    requires Headers.NoErrors(asked) && Headers.NoErrors(answered)
  {
    match kind
    case BadLine => ending == Finished && OnlyTold(Headers.BAD_REQUEST, before, after)
    case Unreachable => ending == Finished && OnlyTold(NOT_FOUND, before, after)
    case Connect => ending == Finished && Tunnelled(outside, before, after)
    case _ => Served(kind, f, outside, asked, answered, ending, close, course, before, after)
  }

  /** What happens to the descriptors if everything returns: the calls are those of the plan, and in the
      end either the client is closed and nothing else has changed, or nothing has changed at all. */
  ghost predicate Accounted(ending: Ending, kind: Kind, close: bool, undo: bool, open: set<nat>, open': set<nat>,
      calls: seq<Tunnel.Call>, calls': seq<Tunnel.Call>, fd: nat, epollfd: nat, serverfd: nat, tunnelfd: nat)
  {
    match ending
    case Finished =>
      && calls' == calls + Calls(Plan(kind, close, undo), fd, epollfd, serverfd, tunnelfd)
      && open' == if kind == Exchange && !close then open else open - {fd}
    case _ => true
  }

  /** The methods the parser lets through. */
  predicate IsOneOfFour(method_: string) {
    method_ == "GET" || method_ == "POST" || method_ == "CONNECT" || method_ == "HEAD"
  }

  lemma ParsedMethod(line: string, before: RequestParser.Fields, f: RequestParser.Fields)
    requires IsParse(line, before, RequestParser.Zero, f)
    ensures IsOneOfFour(f.method_)
  {
    hide Run;
    var l := AcceptedIsLine(line, RequestParser.LIMIT);
    RunComplete(l, RequestParser.LIMIT);
  }

  /** These descriptors have been closed for good, and these calls made. */
  predicate Leaves(open: set<nat>, open': set<nat>, calls: seq<Tunnel.Call>, calls': seq<Tunnel.Call>,
      closing: set<nat>, done: seq<Tunnel.Call>)
  {
    open' == open - closing && calls' == calls + done
  }

  /** What an accepted request comes to, by its method and its version: a host that is not reached is
      answered 404, the port being 80 if none is known; HTTP/1.0 is passed on and all that comes back is
      copied; of HTTP/1.1, CONNECT makes a tunnel, GET and POST are passed on and answered with the reply, and
      HEAD is answered 501, like every other version. */
  ghost predicate Decided(f: RequestParser.Fields, outside: Outside, asked: seq<Item>, answered: seq<Item>,
      ending: Ending, close: bool, course: Exchange.Course, before: Outputs, after: Outputs)
    requires Headers.NoErrors(asked) && Headers.NoErrors(answered)
  {
    && IsOneOfFour(f.method_)
    && (if !outside.reachable(f.host, if f.port == "" then "80" else f.port) then
          ending == Finished && OnlyTold("HTTP/1.0 404 Not found\r\n", before, after)
        else if f.version == "HTTP/1.0" then
          && after.toServer == Send(before.toServer, Asked(f, outside, asked, course))
          && after.toClient == Send(before.toClient, course.replyBody)
          && RequestPassed(f, outside, asked, course) && ending == course.requestEnding
          && (ending == Finished ==> Concat(course.replyBody) == Chars(answered))
        else if f.version == "HTTP/1.1" && f.method_ == "CONNECT" then
          ending == Finished && Carries(outside, before, after)
        else if f.version == "HTTP/1.1" && f.method_ != "HEAD" then
          && after.toServer == Send(before.toServer, Asked(f, outside, asked, course))
          && RequestPassed(f, outside, asked, course)
          && (if course.requestEnding == Finished
              then Answered(f, outside, asked, answered, ending, close, course, before, after)
              else ending == course.requestEnding && after.toClient == before.toClient)
        else
          ending == Finished && OnlyTold("HTTP/1.0 501 Not implemented\r\n", before, after))
  }

  /** What it does to descriptors, if all this returns: only for a GET or POST that does not ask for the end
      of the connection the client stays open, and is watched again. */
  predicate Closes(f: RequestParser.Fields, outside: Outside, close: bool, open: set<nat>, open': set<nat>,
      calls: seq<Tunnel.Call>, calls': seq<Tunnel.Call>, fd: nat, epollfd: nat, server: nat, tunnel: nat)
  {
    if !outside.reachable(f.host, if f.port == "" then "80" else f.port) then
      Leaves(open, open', calls, calls', {fd}, [Closed(fd)])
    else if f.version == "HTTP/1.1" && f.method_ == "CONNECT" then
      Leaves(open, open', calls, calls', {fd},
             [Opened(server), Deleted(epollfd, fd), Opened(tunnel)]
             + (if outside.addServer && !outside.addClient then [Deleted(tunnel, server)] else [])
             + [Closed(fd), Closed(server), Closed(tunnel)])
    else if f.version == "HTTP/1.1" && f.method_ != "HEAD" then
      if close then Leaves(open, open', calls, calls', {fd},
                           [Opened(server), Closed(server), Deleted(epollfd, fd), Closed(fd)])
      else Leaves(open, open', calls, calls', {}, [Opened(server), Closed(server), Rearmed(epollfd, fd)])
    else if f.version == "HTTP/1.1" || f.version == "HTTP/1.0" then
      Leaves(open, open', calls, calls', {fd}, [Opened(server), Deleted(epollfd, fd), Closed(server), Closed(fd)])
    else
      Leaves(open, open', calls, calls', {fd}, [Opened(server), Deleted(epollfd, fd), Closed(fd), Closed(server)])
  }

  /** A tunnel: the client gets the head of the reply, and then each peer what the other sends. */
  predicate Carries(outside: Outside, before: Outputs, after: Outputs) {
    var added := outside.addServer && outside.addClient;
    var f := HandlerFlow(added, outside.fromClient, outside.fromServer, outside.batches);
    && after.toServer == Send(before.toServer, f.up)
    && after.toClient == Send(before.toClient,
         ["HTTP/1.1 200 Connection established\r\n"] + ((if added then ["\r\n"] else []) + f.down))
  }

  lemma MethodWords(method_: string)
    requires IsOneOfFour(method_)
    ensures Headers.IsWord(method_, "connect") <==> method_ == "CONNECT"
    ensures Headers.IsWord(method_, "get") <==> method_ == "GET"
    ensures Headers.IsWord(method_, "post") <==> method_ == "POST"
  {
    Messages.LowerIs(method_);
  }

  lemma RequestDecided(kind: Kind, f: RequestParser.Fields, outside: Outside, asked: seq<Item>, answered: seq<Item>,
      ending: Ending, close: bool, course: Exchange.Course, before: Outputs, after: Outputs)
    requires Headers.NoErrors(asked) && Headers.NoErrors(answered) && IsOneOfFour(f.method_)
    requires kind == KindOf(RequestOf(RequestParser.Zero, f), Reached(outside, f))
    requires Wrote(kind, f, outside, asked, answered, ending, close, course, before, after)
    ensures Decided(f, outside, asked, answered, ending, close, course, before, after)
  {
    hide Asked, RequestPassed, Answered, HandlerFlow;
    MethodWords(f.method_);
  }

  lemma RequestCloses(kind: Kind, f: RequestParser.Fields, outside: Outside, close: bool, open: set<nat>,
      open': set<nat>, calls: seq<Tunnel.Call>, calls': seq<Tunnel.Call>, fd: nat, epollfd: nat, server: nat, tunnel: nat)
    requires IsOneOfFour(f.method_)
    requires kind == KindOf(RequestOf(RequestParser.Zero, f), Reached(outside, f))
    requires Accounted(Finished, kind, close, outside.addServer && !outside.addClient, open, open', calls, calls',
                       fd, epollfd, server, tunnel)
    ensures Closes(f, outside, close, open, open', calls, calls', fd, epollfd, server, tunnel)
  {
    MethodWords(f.method_);
    KindCloses(kind, close, outside.addServer && !outside.addClient, fd, epollfd, server, tunnel);
  }

  /** The calls of every plan. */
  lemma KindCloses(kind: Kind, close: bool, undo: bool, fd: nat, epollfd: nat, server: nat, tunnel: nat)
    ensures Calls(Plan(kind, close, undo), fd, epollfd, server, tunnel) ==
      match kind
      case BadLine => [Closed(fd)]
      case Unreachable => [Closed(fd)]
      case Version10 => [Opened(server), Deleted(epollfd, fd), Closed(server), Closed(fd)]
      case Connect =>
        [Opened(server), Deleted(epollfd, fd), Opened(tunnel)] + (if undo then [Deleted(tunnel, server)] else [])
        + [Closed(fd), Closed(server), Closed(tunnel)]
      case Exchange =>
        if close then [Opened(server), Closed(server), Deleted(epollfd, fd), Closed(fd)]
        else [Opened(server), Closed(server), Rearmed(epollfd, fd)]
      case Unimplemented => [Opened(server), Deleted(epollfd, fd), Closed(server), Closed(fd)]
      case OtherVersion => [Opened(server), Deleted(epollfd, fd), Closed(fd), Closed(server)]
  {
  }

  lemma RefusalDecided(kind: Kind, f: RequestParser.Fields, outside: Outside, asked: seq<Item>, answered: seq<Item>,
      ending: Ending, close: bool, course: Exchange.Course, before: Outputs, after: Outputs, fd: nat, open: set<nat>,
      open': set<nat>, calls: seq<Tunnel.Call>, calls': seq<Tunnel.Call>, epollfd: nat, server: nat, tunnel: nat)
    requires Headers.NoErrors(asked) && Headers.NoErrors(answered)
    requires kind == KindOf(RequestOf(RequestParser.MinusOne, f), Reached(outside, f))
    requires Wrote(kind, f, outside, asked, answered, ending, close, course, before, after)
    requires Accounted(ending, kind, close, outside.addServer && !outside.addClient, open, open', calls, calls',
                       fd, epollfd, server, tunnel)
    ensures ending == Finished && OnlyTold("HTTP/1.0 400 Bad request\r\n", before, after)
    ensures Leaves(open, open', calls, calls', {fd}, [Closed(fd)])
  {
    hide Served;
    KindCloses(kind, close, outside.addServer && !outside.addClient, fd, epollfd, server, tunnel);
  }

  /** What is sent to the server first for an accepted line is a request line that the parser itself accepts,
      with the same method, loc and version, if and only if the line has a loc. The loc buffer is taken to be
      empty before. */
  lemma FirstPortionParses(line: string, before: RequestParser.Fields, f: RequestParser.Fields,
      other: RequestParser.Fields, outside: Outside, asked: seq<Item>, course: Exchange.Course)
    requires IsParse(line, before, RequestParser.Zero, f) && before.loc == "" && Headers.NoErrors(asked)
    ensures Asked(f, outside, asked, course) != []
    ensures var o := Run(INITIAL, Asked(f, outside, asked, course)[0], RequestParser.LIMIT);
      && (o.Accepted? <==> f.loc != "")
      && (f.loc != "" ==>
            RequestParser.Written(o.scan, other) == other.(method_ := f.method_, loc := f.loc, version := f.version))
  {
    hide Run;
    RequestParser.OriginFormIff(line, before);
    if f.loc != "" {
      RequestParser.OriginFormStable(line, before, other);
    }
  }

  /** doit. The line is read and parsed and decides, with whether the host is reached, how the request is
      served. No Close fails. */
  method Doit(kernel: Kernel, fd: nat, epollfd: nat, w: Wires, rq: RequestParser.RequestData, outside: Outside,
      ghost asked: seq<Item>, ghost answered: seq<Item>)
    returns (ending: Ending, line: string, parsed: RequestParser.Result, f: RequestParser.Fields, kind: Kind,
        close: bool, ghost course: Exchange.Course, ghost serverfd: nat, ghost tunnelfd: nat)
    requires fd in kernel.open && !kernel.exited && ValidWires(w) && asked == w.client.Unread()
    requires answered == w.server.Unread()
    requires ValidReads(outside.fromClient) && ValidReads(outside.fromServer)
    modifies kernel, rq, w.client, w.client.source, w.client.buf, w.server, w.server.source, w.server.buf, w.toClient
    modifies w.toServer
    ensures !kernel.exited
    ensures TakeLine(asked, Headers.MAX).bytes != "" ==> line == CString(TakeLine(asked, Headers.MAX).bytes + "\0")
    ensures IsParse(line, old(rq.Value()), parsed, f)
    ensures parsed == RequestParser.Undefined ==> ending == Undefined
    ensures parsed == RequestParser.MinusOne ==>
      && ending == Finished && OnlyTold("HTTP/1.0 400 Bad request\r\n", old(WrittenTo(w)), WrittenTo(w))
      && Leaves(old(kernel.open), kernel.open, old(kernel.calls), kernel.calls, {fd}, [Closed(fd)])
    ensures parsed == RequestParser.Zero ==>
      && Headers.NoErrors(TakeLine(asked, Headers.MAX).rest) && Headers.NoErrors(answered)
      && Decided(f, outside, TakeLine(asked, Headers.MAX).rest, answered, ending, close, course,
                 old(WrittenTo(w)), WrittenTo(w))
      && (ending == Finished ==>
            Closes(f, outside, close, old(kernel.open), kernel.open, old(kernel.calls), kernel.calls,
                   fd, epollfd, serverfd, tunnelfd))
    ensures parsed != RequestParser.Undefined ==>
      && kind == KindOf(RequestOf(parsed, f), Reached(outside, f))
      && Accounted(ending, kind, close, outside.addServer && !outside.addClient, old(kernel.open), kernel.open,
                   old(kernel.calls), kernel.calls, fd, epollfd, serverfd, tunnelfd)
      && Headers.NoErrors(TakeLine(asked, Headers.MAX).rest) && Headers.NoErrors(answered)
      && Wrote(kind, f, outside, TakeLine(asked, Headers.MAX).rest, answered, ending, close, course,
               old(WrittenTo(w)), WrittenTo(w))
  {
    hide Wrote, Accounted, IsParse, CString, TakeLine, KindOf, RequestOf, ValidReads, Decided, OnlyTold, Closes, Leaves;
    ghost var before, open, calls := WrittenTo(w), kernel.open, kernel.calls;
    line := ReadFirst(w, asked, answered);
    parsed, f := ParseBeside(w, line, rq, TakeLine(asked, Headers.MAX).rest, answered);
    ending, kind, close, course, serverfd, tunnelfd :=
      ServeParsed(kernel, fd, epollfd, w, rq, parsed, f, line, outside, TakeLine(asked, Headers.MAX).rest, answered);
    if parsed == RequestParser.MinusOne {
      RefusalDecided(kind, f, outside, TakeLine(asked, Headers.MAX).rest, answered, ending, close, course,
        before, WrittenTo(w), fd, open, kernel.open, calls, kernel.calls, epollfd, serverfd, tunnelfd);
    } else if parsed == RequestParser.Zero {
      ParsedMethod(line, old(rq.Value()), f);
      RequestDecided(kind, f, outside, TakeLine(asked, Headers.MAX).rest, answered, ending, close, course,
        before, WrittenTo(w));
      if ending == Finished {
        RequestCloses(kind, f, outside, close, open, kernel.open, calls, kernel.calls, fd, epollfd, serverfd, tunnelfd);
      }
    }
  }

  /** Lines 455-560. */
  method ServeParsed(kernel: Kernel, fd: nat, epollfd: nat, w: Wires, rq: RequestParser.RequestData,
      parsed: RequestParser.Result, f: RequestParser.Fields, line: string, outside: Outside, ghost asked: seq<Item>,
      ghost answered: seq<Item>)
    returns (ending: Ending, kind: Kind, close: bool, ghost course: Exchange.Course, ghost serverfd: nat,
        ghost tunnelfd: nat)
    requires fd in kernel.open && !kernel.exited && ValidWires(w) && asked == w.client.Unread()
    requires answered == w.server.Unread() && f == rq.Value()
    requires ValidReads(outside.fromClient) && ValidReads(outside.fromServer)
    modifies kernel, rq, w.client, w.client.source, w.client.buf, w.server, w.server.source, w.server.buf, w.toClient
    modifies w.toServer
    ensures !kernel.exited && (parsed == RequestParser.Undefined ==> ending == Undefined)
    ensures parsed != RequestParser.Undefined ==>
      && kind == KindOf(RequestOf(parsed, f), Reached(outside, f))
      && Accounted(ending, kind, close, outside.addServer && !outside.addClient, old(kernel.open), kernel.open,
                   old(kernel.calls), kernel.calls, fd, epollfd, serverfd, tunnelfd)
      && Wrote(kind, f, outside, asked, answered, ending, close, course, old(WrittenTo(w)), WrittenTo(w))
  {
    ending, kind, close, course, serverfd, tunnelfd := Undefined, BadLine, true, NO_COURSE, 0, 0;
    if parsed != RequestParser.Undefined {
      var reached := false;
      if parsed == RequestParser.Zero {
        if rq.port == "" {
          rq.port := "80";
        }
        reached := outside.reachable(rq.host, rq.port);
      }
      kind := KindOf(RequestOf(parsed, f), reached);
      ending, close, course, serverfd, tunnelfd := ServeKind(kernel, fd, epollfd, kind, w, f, line, outside, asked,
          answered);
    }
  }

  const NO_COURSE := Exchange.Course(Finished, [], "", [], "")

  method ParseLine(line: string, rq: RequestParser.RequestData)
    returns (parsed: RequestParser.Result, f: RequestParser.Fields)
    modifies rq
    ensures IsParse(line, old(rq.Value()), parsed, f) && f == rq.Value()
  {
    parsed := RequestParser.Parse(line, rq);
    f := RequestParser.Fields(rq.method_, rq.schema, rq.host, rq.port, rq.loc, rq.version);
  }

  method ParseBeside(w: Wires, line: string, rq: RequestParser.RequestData, ghost asked: seq<Item>,
      ghost answered: seq<Item>)
    returns (parsed: RequestParser.Result, f: RequestParser.Fields)
    requires ValidWires(w) && asked == w.client.Unread() && answered == w.server.Unread()
    modifies rq
    ensures ValidWires(w) && asked == w.client.Unread() && answered == w.server.Unread()
    ensures WrittenTo(w) == old(WrittenTo(w))
    ensures IsParse(line, old(rq.Value()), parsed, f) && f == rq.Value()
  {
    parsed, f := ParseLine(line, rq);
  }

  /** Lines 451-452. */
  method ReadFirst(w: Wires, ghost asked: seq<Item>, ghost answered: seq<Item>) returns (line: string)
    requires ValidWires(w) && asked == w.client.Unread() && answered == w.server.Unread()
    modifies w.client, w.client.source, w.client.buf
    ensures ValidWires(w) && w.client.Unread() == TakeLine(asked, Headers.MAX).rest && w.server.Unread() == answered
    ensures TakeLine(asked, Headers.MAX).bytes != "" ==> line == CString(TakeLine(asked, Headers.MAX).bytes + "\0")
  {
    var buf := new char[MAXLINE];
    var n;
    n, line := Headers.ReadHeaderLine(w.client, buf);
  }

  /** Lines 456-560. */
  method ServeKind(kernel: Kernel, fd: nat, epollfd: nat, kind: Kind, w: Wires, f: RequestParser.Fields, line: string,
      outside: Outside, ghost asked: seq<Item>, ghost answered: seq<Item>)
    returns (ending: Ending, close: bool, ghost course: Exchange.Course, ghost serverfd: nat, ghost tunnelfd: nat)
    requires fd in kernel.open && !kernel.exited && ValidWires(w) && asked == w.client.Unread()
    requires answered == w.server.Unread()
    requires ValidReads(outside.fromClient) && ValidReads(outside.fromServer)
    modifies kernel, w.client, w.client.source, w.client.buf, w.server, w.server.source, w.server.buf, w.toClient
    modifies w.toServer
    ensures !kernel.exited
    ensures Accounted(ending, kind, close, outside.addServer && !outside.addClient, old(kernel.open), kernel.open,
                      old(kernel.calls), kernel.calls, fd, epollfd, serverfd, tunnelfd)
    ensures Wrote(kind, f, outside, asked, answered, ending, close, course, old(WrittenTo(w)), WrittenTo(w))
  {
    hide Served, Tunnelled, KindOf, ValidReads;
    if kind == BadLine || kind == Unreachable {
      ending, close, course, serverfd, tunnelfd := Finished, true, NO_COURSE, 0, 0;
      w.toClient.Put(if kind == BadLine then Headers.BAD_REQUEST else NOT_FOUND);
      kernel.Close(fd);
    } else if kind == Connect {
      ending, close, course := Finished, true, NO_COURSE;
      serverfd, tunnelfd := ServeTunnel(kernel, fd, epollfd, w, line, outside);
    } else {
      tunnelfd := 0;
      ending, close, course, serverfd := ServeOther(kernel, fd, epollfd, kind, w, f, outside, asked, answered);
    }
  }

  method ServeTunnel(kernel: Kernel, fd: nat, epollfd: nat, w: Wires, line: string, outside: Outside)
    returns (ghost serverfd: nat, ghost tunnelfd: nat)
    requires fd in kernel.open && !kernel.exited && ValidWires(w) && ValidReads(outside.fromClient)
    requires ValidReads(outside.fromServer)
    modifies kernel, w.client, w.client.source, w.client.buf, w.toClient, w.toServer
    ensures !kernel.exited && Tunnelled(outside, old(WrittenTo(w)), WrittenTo(w))
    ensures Accounted(Finished, Connect, true, outside.addServer && !outside.addClient, old(kernel.open), kernel.open,
                      old(kernel.calls), kernel.calls, fd, epollfd, serverfd, tunnelfd)
  {
    ghost var calls := kernel.calls;
    var server := kernel.Open();
    serverfd := server;
    tunnelfd := ServeConnect(kernel, fd, epollfd, server, w, line, outside);
    ConnectCalls(calls, true, outside.addServer && !outside.addClient, fd, epollfd, server, tunnelfd);
  }

  predicate HasServer(kind: Kind) {
    kind != BadLine && kind != Unreachable && kind != Connect
  }

  method ServeOther(kernel: Kernel, fd: nat, epollfd: nat, kind: Kind, w: Wires, f: RequestParser.Fields,
      outside: Outside, ghost asked: seq<Item>, ghost answered: seq<Item>)
    returns (ending: Ending, close: bool, ghost course: Exchange.Course, ghost serverfd: nat)
    requires fd in kernel.open && !kernel.exited && ValidWires(w) && asked == w.client.Unread()
    requires answered == w.server.Unread()
    requires HasServer(kind)
    modifies kernel, w.client, w.client.source, w.client.buf, w.server, w.server.source, w.server.buf, w.toClient
    modifies w.toServer
    ensures !kernel.exited
    ensures Served(kind, f, outside, asked, answered, ending, close, course, old(WrittenTo(w)), WrittenTo(w))
    ensures Accounted(ending, kind, close, outside.addServer && !outside.addClient, old(kernel.open), kernel.open,
                      old(kernel.calls), kernel.calls, fd, epollfd, serverfd, 0)
  {
    hide Served, KindOf, ValidReads, Calls, Tail;
    ghost var calls := kernel.calls;
    var server := kernel.Open();
    serverfd := server;
    ending, close, course := ServeData(kind, w, f, outside, asked, answered);
    if ending == Finished {
      CloseUp(kernel, fd, epollfd, server, kind, close, 0);
      TailCalls(calls, kind, close, outside.addServer && !outside.addClient, fd, epollfd, server, 0);
    }
  }

  lemma TailCalls(calls: seq<Tunnel.Call>, kind: Kind, close: bool, undo: bool, fd: nat, epollfd: nat, serverfd: nat,
      tunnelfd: nat)
    requires HasServer(kind)
    ensures calls + [Opened(serverfd)] + Calls(Tail(kind, close), fd, epollfd, serverfd, tunnelfd)
         == calls + Calls(Plan(kind, close, undo), fd, epollfd, serverfd, tunnelfd)
  {
    assert Plan(kind, close, undo) == [OpenServer] + Tail(kind, close);
    CallsCons(OpenServer, Tail(kind, close), fd, epollfd, serverfd, tunnelfd);
  }

  lemma CallsCons(op: Op, rest: seq<Op>, fd: nat, epollfd: nat, serverfd: nat, tunnelfd: nat)
    ensures Calls([op] + rest, fd, epollfd, serverfd, tunnelfd)
         == [CallOf(op, fd, epollfd, serverfd, tunnelfd)] + Calls(rest, fd, epollfd, serverfd, tunnelfd)
  {
  }

  lemma ConnectCalls(calls: seq<Tunnel.Call>, close: bool, undo: bool, fd: nat, epollfd: nat, serverfd: nat,
      tunnelfd: nat)
    ensures calls + [Opened(serverfd)] + ([Deleted(epollfd, fd)] + TunnelCalls(undo, fd, serverfd, tunnelfd))
         == calls + Calls(Plan(Connect, close, undo), fd, epollfd, serverfd, tunnelfd)
  {
    assert [Opened(serverfd)] + ([Deleted(epollfd, fd)] + TunnelCalls(undo, fd, serverfd, tunnelfd))
        == Calls(Plan(Connect, close, undo), fd, epollfd, serverfd, tunnelfd);
  }

  // ---------------------------------------------------------------- a plan as a discipline

  /** Done in order, the operations never use a descriptor that is closed, close every server and
      tunnel they open, and part with the client exactly once: they close it, or re-arm it while it
      is still registered. */
  predicate Sound(todo: seq<Op>, client: bool, registered: bool, server: bool, tunnel: bool) {
    if todo == [] then !client && !server && !tunnel
    else
      match todo[0]
      case OpenServer => !server && Sound(todo[1..], client, registered, true, tunnel)
      case CloseServer => server && Sound(todo[1..], client, registered, false, tunnel)
      case OpenTunnel => !tunnel && Sound(todo[1..], client, registered, server, true)
      case DropServer => server && tunnel && Sound(todo[1..], client, registered, server, tunnel)
      case CloseTunnel => tunnel && Sound(todo[1..], client, registered, server, false)
      case Delete => client && registered && Sound(todo[1..], client, false, server, tunnel)
      case Rearm => client && registered && Sound(todo[1..], false, false, server, tunnel)
      case CloseClient => client && Sound(todo[1..], false, false, server, tunnel)
  }

  lemma EveryPlanIsSound(kind: Kind, close: bool, undo: bool)
    ensures Sound(Plan(kind, close, undo), true, true, false, false)
  {
    match kind
    case Connect => ConnectPlanIsSound(undo);
    case BadLine => assert [CloseClient][1..] == [];
    case Unreachable => assert [CloseClient][1..] == [];
    case Exchange =>
      if close {
        ShortPlan(OpenServer, CloseServer, Delete, CloseClient);
        assert Sound([Delete, CloseClient], true, true, false, false);
      } else {
        assert [OpenServer, CloseServer, Rearm][1..] == [CloseServer, Rearm];
        assert [CloseServer, Rearm][1..] == [Rearm] && [Rearm][1..] == [];
        assert Sound([CloseServer, Rearm], true, true, true, false);
      }
    case OtherVersion =>
      ShortPlan(OpenServer, Delete, CloseClient, CloseServer);
      assert Sound([CloseClient, CloseServer], true, false, true, false);
    case _ =>
      ShortPlan(OpenServer, Delete, CloseServer, CloseClient);
      assert Sound([CloseServer, CloseClient], true, false, true, false);
  }

  lemma ShortPlan(a: Op, b: Op, c: Op, d: Op)
    ensures [a, b, c, d][1..] == [b, c, d] && [b, c, d][1..] == [c, d] && [c, d][1..] == [d] && [d][1..] == []
  {
  }

  lemma ConnectPlanIsSound(undo: bool)
    ensures Sound(Plan(Connect, false, undo), true, true, false, false)
  {
    var end := [CloseClient, CloseServer, CloseTunnel];
    assert end[1..] == [CloseServer, CloseTunnel] && end[1..][1..] == [CloseTunnel] && [CloseTunnel][1..] == [];
    assert Sound(end[1..], false, false, true, true);
    assert Sound(end, true, false, true, true);
    var middle := (if undo then [DropServer] else []) + end;
    assert if undo then middle[1..] == end else middle == end;
    assert Sound(middle, true, false, true, true);
    var plan := Plan(Connect, false, undo);
    assert plan[1..][1..][1..] == middle;
    assert Sound(plan[1..][1..], true, false, true, false);
  }
}
