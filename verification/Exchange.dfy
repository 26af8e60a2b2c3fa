/** A GET or POST request of HTTP/1.1 as doit of proxy.c serves it: the request line in origin form,
    the header lines and the body go to the server, its reply goes to the client, and what was noted on
    the way decides whether the client's connection is closed. The streams have no read errors. */
module Exchange {
  import opened Rio
  import opened Chunked
  import opened Headers
  import Numerals

  /** sprintf(request, "%s %s %s\r\n", method, loc, version). */
  function RequestLine(method_: string, loc: string, version: string): string {
    method_ + " " + loc + " " + version + CRLF
  }

  /** A connection status starts zeroed. */
  ghost predicate Zeroed(side: Side)
    reads side
  {
    !side.setClose && !side.shuttingDown && side.transferEncoding == "" && side.trailer == "" && side.contentLength == 0
  }

  /** What an uninitialised pair of sscanf buffers holds. */
  datatype Junk = Junk(name: string, data: string)

  function Fresh(junk: Junk, hostSet: bool, setClose: bool): Headers {
    Headers(junk.name, junk.data, hostSet, false, 0, "", "", setClose, [])
  }

  // ---------------------------------------------------------------- the request

  ghost function RequestBlock(junk: Junk, items: seq<Item>): Block
    requires NoErrors(items)
  {
    ReadBlock(Fresh(junk, false, false), items)
  }

  ghost function DueOfRequest(junk: Junk, method_: string, items: seq<Item>): Due
    requires NoErrors(items)
  {
    DueOf(RequestBlock(junk, items), method_ == "POST")
  }

  /** Whether the request part asks for the end of the connection: the client says close, stops
      before the empty line, announces a body without framing, or announces one and sends nothing. */
  ghost predicate RequestCloses(junk: Junk, method_: string, items: seq<Item>)
    requires NoErrors(items)
  {
    var b := RequestBlock(junk, items);
    match DueOfRequest(junk, method_, items)
    case Unknown => true
    case Counted(n) => b.headers.setClose || TakeN(b.rest, n).bytes == ""
    case _ => b.headers.setClose || b.end.EndOfStream?
  }

  /** Whether the client is to be closed when the reply starts. */
  ghost predicate LastReply(junk: Junk, method_: string, items: seq<Item>)
    requires NoErrors(items)
  {
    match DueOfRequest(junk, method_, items)
    case Unknown => true
    case _ => RequestBlock(junk, items).headers.setClose
  }

  /** What is written to the server: the line, the close lines, the header lines and the body. */
  ghost function RequestPortions(junk: Junk, host: string, line: string, items: seq<Item>,
      body: seq<string>): seq<string>
    requires NoErrors(items)
  {
    [line] + (CLOSE_LINES + (HeaderOutput(RequestBlock(junk, items), host) + body))
  }

  /** The body, and how the request part ends; scratch is what the buffer of forward_chunked holds at
      first. */
  ghost predicate RequestBody(junk: Junk, method_: string, items: seq<Item>, scratch: string,
      ending: Chunked.Ending, body: seq<string>, left: seq<Item>)
    requires NoErrors(items)
  {
    var b := RequestBlock(junk, items);
    var due := DueOfRequest(junk, method_, items);
    BodyForwarded(due, b.rest, b.headers.trailer != "", BAD_REQUEST, scratch, ending, body, left)
  }

  // ---------------------------------------------------------------- the reply

  /** The server's side has closed, or is about to, when the header lines of its reply are read. */
  ghost predicate Closing(setClose: bool, version: string, items: seq<Item>) {
    setClose || VersionOf(StatusLine(items), version) == "HTTP/1.0"
  }

  ghost function BlockOfReply(junk: Junk, closing: bool, items: seq<Item>): Block
    requires NoErrors(items)
  {
    TakeLineNoErrors(items);
    ReadBlock(Fresh(junk, true, closing), TakeLine(items, MAX).rest)
  }

  ghost function DueOfReply(junk: Junk, closing: bool, items: seq<Item>): Due
    requires NoErrors(items)
  {
    DueOf(BlockOfReply(junk, closing, items), true)
  }

  /** Whether the reply asks for the end of the client's connection: its header lines break off, or its
      body has no framing. A server that sends nothing at all does not count, nor one that says close. */
  ghost predicate ReplyCloses(junk: Junk, closing: bool, items: seq<Item>)
    requires NoErrors(items)
  {
    match DueOfReply(junk, closing, items)
    case Unknown => TakeLine(items, MAX).bytes != ""
    case _ => TakeLine(items, MAX).bytes != "" && BlockOfReply(junk, closing, items).end.EndOfStream?
  }

  /** What is written to the client: nothing from a silent server, and otherwise the status line, the
      close lines if the client is about to be closed, the header lines and the body. */
  ghost function ReplyPortions(junk: Junk, last: bool, closing: bool, items: seq<Item>, body: seq<string>): seq<string>
    requires NoErrors(items)
  {
    if TakeLine(items, MAX).bytes == "" then []
    else ReplyStart(StatusLine(items), last) + (HeaderOutput(BlockOfReply(junk, closing, items), "") + body)
  }

  ghost predicate ReplyBody(junk: Junk, closing: bool, items: seq<Item>, scratch: string,
      ending: Chunked.Ending, body: seq<string>, left: seq<Item>)
    requires NoErrors(items)
  {
    if TakeLine(items, MAX).bytes == "" then ending == Finished
    else
      var b := BlockOfReply(junk, closing, items);
      var due := DueOfReply(junk, closing, items);
      BodyForwarded(due, b.rest, b.headers.trailer != "", BAD_REPLY, scratch, ending, body, left)
  }

  // ---------------------------------------------------------------- both

  predicate Apart(a: Reader, b: Reader) {
    a != b && a.source != b.source && a.buf != b.buf
  }

  /** Lines 518-523. */
  method SendRequest(toServer: Sink, client: Reader, clientSide: Side, serverSide: Side,
      method_: string, host: string, loc: string, version: string, junk: Junk, ghost asked: seq<Item>)
    returns (ending: Chunked.Ending, ghost out: seq<string>, ghost scratch: string)
    requires client.Valid() && ValidWrites(toServer.script) && asked == client.Unread() && NoErrors(asked)
    requires clientSide != serverSide && Zeroed(clientSide) && Zeroed(serverSide)
    modifies client, client.source, client.buf, toServer, clientSide, serverSide`setClose, serverSide`shuttingDown
    ensures client.Valid() && ValidWrites(toServer.script)
    ensures RequestBody(junk, method_, asked, scratch, ending, out, client.Unread())
    ensures var line := RequestLine(method_, loc, version);
      toServer.State() == Send(old(toServer.State()), RequestPortions(junk, host, line, asked, out))
    ensures ending == Finished ==>
      && clientSide.setClose == LastReply(junk, method_, asked)
      && (clientSide.setClose || clientSide.shuttingDown <==> RequestCloses(junk, method_, asked))
      && serverSide.setClose == DueOfRequest(junk, method_, asked).Unknown?
  {
    hide ReadBlock, BodyForwarded, HeaderOutput, Send, NoErrors, RequestLine;
    ghost var before, line := toServer.State(), RequestLine(method_, loc, version);
    toServer.Put(RequestLine(method_, loc, version));
    var r;
    ending, r, out, scratch := ForwardRequestHeader(toServer, client, host, method_, clientSide, serverSide,
        junk.name, junk.data, asked);
    SendJoin(before, [line], CLOSE_LINES + (HeaderOutput(RequestBlock(junk, asked), host) + out));
  }

  /** Line 524 and the flags that line 529 looks at. */
  method ReceiveReply(toClient: Sink, server: Reader, clientSide: Side, serverSide: Side,
      junk: Junk, version: string, ghost answered: seq<Item>, ghost closing: bool)
    returns (ending: Chunked.Ending, close: bool, ghost out: seq<string>, ghost scratch: string)
    requires server.Valid() && ValidWrites(toClient.script) && answered == server.Unread() && NoErrors(answered)
    requires clientSide != serverSide
    requires serverSide.transferEncoding == "" && serverSide.trailer == "" && serverSide.contentLength == 0
    requires closing == Closing(serverSide.setClose, version, answered)
    modifies server, server.source, server.buf, toClient, clientSide, serverSide
    ensures server.Valid() && ValidWrites(toClient.script)
    ensures ReplyBody(junk, closing, answered, scratch, ending, out, server.Unread())
    ensures var last := old(clientSide.setClose);
      toClient.State() == Send(old(toClient.State()), ReplyPortions(junk, last, closing, answered, out))
    ensures ending == Finished ==>
      (close <==> old(clientSide.setClose) || old(clientSide.shuttingDown) || ReplyCloses(junk, closing, answered))
  {
    hide ReadBlock, BodyForwarded, HeaderOutput, NoErrors, VersionOf;
    assert ReplyBlock(serverSide, junk.name, junk.data, version, answered) == BlockOfReply(junk, closing, answered);
    var r;
    ending, r, out, scratch := ForwardReply(toClient, server, clientSide, serverSide, junk.name, junk.data, version,
        answered);
    close := clientSide.setClose || clientSide.shuttingDown;
  }

  /** SendRequest, beside the reader of the other peer. */
  method SendBeside(toServer: Sink, client: Reader, clientSide: Side, serverSide: Side,
      method_: string, host: string, loc: string, version: string, junk: Junk, ghost asked: seq<Item>,
      ghost other: Reader, ghost items: seq<Item>)
    returns (ending: Chunked.Ending, ghost out: seq<string>, ghost scratch: string, ghost left: seq<Item>)
    requires client.Valid() && ValidWrites(toServer.script) && asked == client.Unread() && NoErrors(asked)
    requires clientSide != serverSide && Zeroed(clientSide) && Zeroed(serverSide)
    requires Apart(client, other) && other.Valid() && other.Unread() == items
    modifies client, client.source, client.buf, toServer, clientSide, serverSide`setClose, serverSide`shuttingDown
    ensures client.Valid() && ValidWrites(toServer.script) && client.Unread() == left
    ensures other.Valid() && other.Unread() == items
    ensures RequestBody(junk, method_, asked, scratch, ending, out, left)
    ensures var line := RequestLine(method_, loc, version);
      toServer.State() == Send(old(toServer.State()), RequestPortions(junk, host, line, asked, out))
    ensures ending == Finished ==>
      && clientSide.setClose == LastReply(junk, method_, asked)
      && (clientSide.setClose || clientSide.shuttingDown <==> RequestCloses(junk, method_, asked))
      && serverSide.setClose == DueOfRequest(junk, method_, asked).Unknown?
  {
    hide RequestBody, RequestPortions, RequestCloses, DueOfRequest, LastReply, RequestLine, NoErrors;
    ending, out, scratch := SendRequest(toServer, client, clientSide, serverSide, method_, host, loc, version, junk,
        asked);
    left := client.Unread();
  }

  method ReceiveBeside(toClient: Sink, server: Reader, clientSide: Side, serverSide: Side, junk: Junk,
      version: string, ghost answered: seq<Item>, ghost closing: bool, ghost other: Reader, ghost items: seq<Item>)
    returns (ending: Chunked.Ending, close: bool, ghost out: seq<string>, ghost scratch: string, ghost left: seq<Item>)
    requires server.Valid() && ValidWrites(toClient.script) && answered == server.Unread() && NoErrors(answered)
    requires clientSide != serverSide
    requires serverSide.transferEncoding == "" && serverSide.trailer == "" && serverSide.contentLength == 0
    requires closing == Closing(serverSide.setClose, version, answered)
    requires Apart(server, other) && other.Valid() && other.Unread() == items
    modifies server, server.source, server.buf, toClient, clientSide, serverSide
    ensures server.Valid() && server.Unread() == left && ValidWrites(toClient.script)
    ensures other.Valid() && other.Unread() == items
    ensures ReplyBody(junk, closing, answered, scratch, ending, out, left)
    ensures var last := old(clientSide.setClose);
      toClient.State() == Send(old(toClient.State()), ReplyPortions(junk, last, closing, answered, out))
    ensures ending == Finished ==>
      (close <==> old(clientSide.setClose) || old(clientSide.shuttingDown) || ReplyCloses(junk, closing, answered))
  {
    hide Closing, ReplyBody, ReplyPortions, ReplyCloses, NoErrors;
    ending, close, out, scratch := ReceiveReply(toClient, server, clientSide, serverSide, junk, version, answered,
        closing);
    left := server.Unread();
  }

  /** Lines 518-537: GET and POST. The server gets the request, the client gets the reply, and the
      client's connection is to be closed if and only if the request or the reply says so. requestJunk
      and replyJunk are what the buffers of the two functions hold at first. If the request part does
      not return, there is no reply. */
  method Serve(client: Reader, toClient: Sink, server: Reader, toServer: Sink, clientSide: Side, serverSide: Side,
      method_: string, host: string, loc: string, version: string, requestJunk: Junk, replyJunk: Junk,
      replyVersion: string, ghost asked: seq<Item>, ghost answered: seq<Item>)
    returns (ending: Chunked.Ending, close: bool, ghost course: Course)
    requires client.Valid() && server.Valid() && Apart(client, server)
    requires toClient != toServer && ValidWrites(toClient.script) && ValidWrites(toServer.script)
    requires asked == client.Unread() && answered == server.Unread() && NoErrors(asked) && NoErrors(answered)
    requires clientSide != serverSide && Zeroed(clientSide) && Zeroed(serverSide)
    modifies client, client.source, client.buf, server, server.source, server.buf, toClient, toServer, clientSide
    modifies serverSide
    ensures client.Valid() && server.Valid() && ValidWrites(toClient.script) && ValidWrites(toServer.script)
    ensures RequestBody(requestJunk, method_, asked, course.requestScratch, course.requestEnding,
                        course.requestBody, client.Unread())
    ensures var line := RequestLine(method_, loc, version);
      toServer.State()
      == Send(old(toServer.State()), RequestPortions(requestJunk, host, line, asked, course.requestBody))
    ensures course.requestEnding != Finished ==>
      ending == course.requestEnding && toClient.State() == old(toClient.State()) && server.Unread() == answered
    ensures course.requestEnding == Finished ==>
      var closing := Closing(DueOfRequest(requestJunk, method_, asked).Unknown?, replyVersion, answered);
      var last := LastReply(requestJunk, method_, asked);
      && ReplyBody(replyJunk, closing, answered, course.replyScratch, ending, course.replyBody, server.Unread())
      && toClient.State()
         == Send(old(toClient.State()), ReplyPortions(replyJunk, last, closing, answered, course.replyBody))
      && (ending == Finished ==>
            (close <==> RequestCloses(requestJunk, method_, asked) || ReplyCloses(replyJunk, closing, answered)))
  {
    hide RequestBody, RequestPortions, RequestCloses, DueOfRequest, LastReply, RequestLine, NoErrors;
    hide Closing, ReplyBody, ReplyPortions, ReplyCloses;
    ghost var body, scratch, left;
    ending, body, scratch, left := SendBeside(toServer, client, clientSide, serverSide, method_, host, loc, version,
        requestJunk, asked, server, answered);
    course := Course(ending, body, scratch, [], "");
    close := true;
    if ending == Finished {
      ghost var closing := Closing(serverSide.setClose, replyVersion, answered);
      ghost var replyBody, replyScratch, replyLeft;
      ending, close, replyBody, replyScratch, replyLeft :=
        ReceiveBeside(toClient, server, clientSide, serverSide, replyJunk, replyVersion, answered, closing, client,
            left);
      course := Course(Finished, body, scratch, replyBody, replyScratch);
    }
  }

  /** How the request part ends, the portions of the two bodies, and what forward_chunked found in its
      buffer. */
  datatype Course = Course(requestEnding: Chunked.Ending, requestBody: seq<string>, requestScratch: string,
                           replyBody: seq<string>, replyScratch: string)

  // ---------------------------------------------------------------- what a client can rely on

  /** The length of a counted body must be such that one byte more still is an int. */
  predicate GoodLength(n: int) {
    0 <= n && Numerals.IsInt(n + 1)
  }

  /** It is a POST whose body is not chunked. */
  predicate IsPlainPost(method_: string, lines: seq<string>) {
    method_ == "POST" && !IsWord(LastEncoding(lines, ""), "chunked")
  }

  /** For complete header lines: the request runs into undefined behaviour in the header lines or at
      the length of the body if and only if some line cannot be noted, or a plain POST has a bad
      length. */
  lemma RequestBreaksIff(junk: Junk, method_: string, lines: seq<string>, rest: seq<Item>)
    requires AreHeaderLines(lines) && NoErrors(rest)
    ensures NoErrors(Bytes(Concat(lines) + CRLF) + rest)
    ensures DueOfRequest(junk, method_, Bytes(Concat(lines) + CRLF) + rest).Broken? <==>
      || !AllFit(lines)
      || (IsPlainPost(method_, lines) && Names(lines, "Content-length") && !GoodLength(LastLength(lines, 0)))
  {
    hide AreHeaderLines, AllFit, Steps, Concat, ReadBlock, LastEncoding, LastLength, Names, IsWord;
    var h := Fresh(junk, false, false);
    ReadBlockOfLines(h, lines, rest);
    FilterLines(h, lines);
    DueFromLines(h, lines, Steps(h, lines), rest);
  }

  /** Otherwise it closes the client's connection if and only if a line about the connection says close,
      or it is a plain POST that has no recognised length or sends not one byte. */
  lemma RequestClosesIff(junk: Junk, method_: string, lines: seq<string>, rest: seq<Item>)
    requires AreHeaderLines(lines) && AllFit(lines) && NoErrors(rest)
    requires IsPlainPost(method_, lines) && Names(lines, "Content-length") ==> GoodLength(LastLength(lines, 0))
    ensures NoErrors(Bytes(Concat(lines) + CRLF) + rest)
    ensures RequestCloses(junk, method_, Bytes(Concat(lines) + CRLF) + rest) <==>
      || AnyClose(lines)
      || (IsPlainPost(method_, lines)
          && (Names(lines, "Content-length") ==> TakeN(rest, LastLength(lines, 0)).bytes == ""))
  {
    hide AreHeaderLines, AllFit, Steps, Concat, ReadBlock, LastEncoding, LastLength, Names, IsWord;
    var h := Fresh(junk, false, false);
    ReadBlockOfLines(h, lines, rest);
    FilterLines(h, lines);
    DueFromLines(h, lines, Steps(h, lines), rest);
  }

  /** And the client's connection is about to be closed, and the client told so, when the reply starts if
      and only if a line says close or it is a plain POST that has no recognised length. */
  lemma LastReplyIff(junk: Junk, method_: string, lines: seq<string>, rest: seq<Item>)
    requires AreHeaderLines(lines) && AllFit(lines) && NoErrors(rest)
    requires IsPlainPost(method_, lines) && Names(lines, "Content-length") ==> GoodLength(LastLength(lines, 0))
    ensures NoErrors(Bytes(Concat(lines) + CRLF) + rest)
    ensures LastReply(junk, method_, Bytes(Concat(lines) + CRLF) + rest) <==>
      AnyClose(lines) || (IsPlainPost(method_, lines) && !Names(lines, "Content-length"))
  {
    hide AreHeaderLines, AllFit, Steps, Concat, ReadBlock, LastEncoding, LastLength, Names, IsWord;
    var h := Fresh(junk, false, false);
    ReadBlockOfLines(h, lines, rest);
    FilterLines(h, lines);
    DueFromLines(h, lines, Steps(h, lines), rest);
  }

  /** The body due after the lines, as they name its length and its encoding. */
  lemma DueFromLines(h: Headers, lines: seq<string>, h': Headers, rest: seq<Item>)
    requires Filtered(h, lines, h') && !h.lengthSet && h.length == 0 && h.encoding == ""
    ensures IsWord(LastEncoding(lines, ""), "chunked") ==> DueBody(h').ChunkedBody?
    ensures !IsWord(LastEncoding(lines, ""), "chunked") && !Names(lines, "Content-length") ==> DueBody(h').Unknown?
    ensures !IsWord(LastEncoding(lines, ""), "chunked") && Names(lines, "Content-length") ==>
      DueBody(h') == if GoodLength(LastLength(lines, 0)) then Counted(LastLength(lines, 0)) else Broken
    ensures h'.setClose <==> h.setClose || AnyClose(lines)
  {
  }

  /** The header lines and the rest of a reply with a complete status line. */
  lemma AfterStatus(status: string, lines: seq<string>, rest: seq<Item>)
    requires FitsLine(status) && AreHeaderLines(lines) && NoErrors(rest)
    ensures var items := Bytes(status) + (Bytes(Concat(lines) + CRLF) + rest);
      NoErrors(items) && TakeLine(items, MAX) == Taken(status, Filled, Bytes(Concat(lines) + CRLF) + rest)
  {
    hide AreHeaderLines, Concat;
    ReadBlockOfLines(Fresh(Junk("", ""), true, false), lines, rest);
    TakeLineOfLine(status, Bytes(Concat(lines) + CRLF) + rest, MAX);
    NoErrorsAfterBytes(status, Bytes(Concat(lines) + CRLF) + rest);
  }

  /** Of a reply with a complete status line and complete header lines: it runs into undefined behaviour
      at them if and only if some line cannot be noted, or the length of a body that is not chunked is bad;
      and it closes the client's connection if and only if every line can be noted, none is named
      Content-length, and the last transfer encoding is not chunked. What a line about the connection says
      does not matter. */
  lemma ReplyClosesIff(junk: Junk, closing: bool, status: string, lines: seq<string>, rest: seq<Item>)
    requires FitsLine(status) && AreHeaderLines(lines) && NoErrors(rest)
    ensures var items := Bytes(status) + (Bytes(Concat(lines) + CRLF) + rest);
      var chunked := IsWord(LastEncoding(lines, ""), "chunked");
      && NoErrors(items)
      && (DueOfReply(junk, closing, items).Broken? <==>
            !AllFit(lines) || (!chunked && Names(lines, "Content-length") && !GoodLength(LastLength(lines, 0))))
      && (ReplyCloses(junk, closing, items) <==> AllFit(lines) && !chunked && !Names(lines, "Content-length"))
  {
    hide AreHeaderLines, AllFit, Steps, Concat, ReadBlock, LastEncoding, LastLength, Names, IsWord, TakeLine;
    var h := Fresh(junk, true, closing);
    AfterStatus(status, lines, rest);
    ReadBlockOfLines(h, lines, rest);
    FilterLines(h, lines);
    DueFromLines(h, lines, Steps(h, lines), rest);
  }

  /** For example, a GET with a transfer encoding of 400 characters, in which no line says close. */
  lemma LongEncodingBreaks(junk: Junk, word: string, rest: seq<Item>)
    requires NoErrors(rest) && |word| == 400 && forall i :: 0 <= i < |word| ==> word[i] == 'a'
    ensures NoErrors(Bytes(Concat([PlainLine("Transfer-Encoding", word)]) + CRLF) + rest)
    ensures DueOfRequest(junk, "GET", Bytes(Concat([PlainLine("Transfer-Encoding", word)]) + CRLF) + rest).Broken?
  {
    LongEncodingSpills(Fresh(junk, false, false), word, rest);
  }
}
