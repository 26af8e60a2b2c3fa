/** forward_requestheader and forward_reply of proxy.c: what they send on for the header lines and
    the body of a message, and what they note in the connection status. */
module Headers {
  import opened Rio
  import opened Chunked
  import Numerals
  import RequestGrammar

  // ---------------------------------------------------------------- libc

  function Lower(s: string): string {
    if s == "" then ""
    else [if 'A' <= s[0] <= 'Z' then s[0] - 'A' + 'a' else s[0]] + Lower(s[1..])
  }

  /** strcasecmp(s, word) == 0, for a word in lower case. */
  predicate IsWord(s: string, word: string) {
    Lower(s) == word
  }

  function Digits(s: string, sofar: nat): nat {
    if s != "" && '0' <= s[0] <= '9' then Digits(s[1..], sofar * 10 + (s[0] - '0') as nat) else sofar
  }

  /** atoi of a string that does not begin with white space. */
  function Atoi(s: string): int {
    if s != "" && s[0] == '-' then -(Digits(s[1..], 0) as int)
    else if s != "" && s[0] == '+' then Digits(s[1..], 0)
    else Digits(s, 0)
  }

  function UpTo(s: string, stop: char -> bool): (r: string)
    ensures |r| <= |s| && s[..|r|] == r
    ensures forall i :: 0 <= i < |r| ==> !stop(r[i])
    ensures |r| < |s| ==> stop(s[|r|])
  {
    if s == "" || stop(s[0]) then "" else [s[0]] + UpTo(s[1..], stop)
  }

  lemma UpToIs(s: string, stop: char -> bool, n: nat)
    requires n <= |s| && forall i :: 0 <= i < n ==> !stop(s[i])
    requires n < |s| ==> stop(s[n])
    ensures UpTo(s, stop) == s[..n]
  {
    var r := UpTo(s, stop);
    assert forall i :: 0 <= i < |r| ==> r[i] == s[i];
  }

  function Name(line: string): string {
    UpTo(line, c => c == ':')
  }

  /** The first word after the colon. */
  function Word(line: string): string {
    if |Name(line)| < |line| then
      var after := line[|Name(line)| + 1..];
      var blank := UpTo(after, c => !RequestGrammar.IsSpace(c));
      UpTo(after[|blank|..], c => RequestGrammar.IsSpace(c))
    else ""
  }

  // ---------------------------------------------------------------- header lines

  /** What the loop over the header lines keeps: the two sscanf buffers, two flags, the fields of
      the connection status it sets, and the portions it has passed to rio_writen. */
  datatype Headers = Headers(
    name: string, data: string,
    hostSet: bool, lengthSet: bool,
    length: int, encoding: string, trailer: string, setClose: bool,
    out: seq<string>)

  /** sscanf(line, "%[^:]: %s", headername, headerdata): a part that does not match leaves its
      buffer, and those after it, as they were. */
  function Scan(h: Headers, line: string): Headers {
    if Name(line) == "" then h
    else if Word(line) == "" then h.(name := Name(line))
    else h.(name := Name(line), data := Word(line))
  }

  predicate IsConnection(name: string) {
    name == "Connection" || name == "Proxy-Connection"
  }

  /** Lines 754-765 for any other line than those about the connection. */
  function Note(h: Headers): Headers {
    h.(
      trailer := if IsWord(h.name, "trailer") then h.data else h.trailer,
      lengthSet := h.lengthSet || h.name == "Content-length",
      length := if h.name == "Content-length" then Atoi(h.data) else h.length,
      encoding := if h.name == "Transfer-Encoding" then h.data else h.encoding)
  }

  function ScanAndHost(h: Headers, line: string): Headers {
    Scan(h, line).(hostSet := h.hostSet || Scan(h, line).name == "Host")
  }

  predicate StepCanNote(h: Headers, line: string) {
    CanNote(Scan(h, line).name, Scan(h, line).data)
  }

  /** Lines 734-767. */
  function Step(h0: Headers, line: string): Headers {
    var h := ScanAndHost(h0, line);
    if IsConnection(h.name) then h.(setClose := h.setClose || IsWord(h.data, "close"))
    else Note(h).(out := h.out + [line])
  }

  const TYPESTRLEN: nat := 96

  /** strcpy stays inside its field of 96 bytes, and atoi has an int to return. */
  predicate CanNote(name: string, data: string) {
    IsConnection(name) ||
    (&& (IsWord(name, "trailer") || name == "Transfer-Encoding" ==> |data| < TYPESTRLEN)
     && (name == "Content-length" ==> Numerals.IsInt(Atoi(data))))
  }

  predicate NoErrors(items: seq<Item>) {
    forall i :: 0 <= i < |items| ==> items[i].Byte?
  }

  const MAX: nat := MAXLINE - 1

  lemma NoErrorsTail(used: seq<Item>, rest: seq<Item>)
    requires NoErrors(used + rest)
    ensures NoErrors(used) && NoErrors(rest)
  {
    assert forall i :: 0 <= i < |used| ==> (used + rest)[i] == used[i];
    assert forall i :: 0 <= i < |rest| ==> (used + rest)[|used| + i] == rest[i];
  }

  lemma TakeLineNoErrors(items: seq<Item>)
    requires NoErrors(items)
    ensures var t := TakeLine(items, MAX);
      t.status != Failed && NoErrors(t.rest) && |t.bytes| <= MAX && |t.rest| + |t.bytes| == |items|
  {
    TakeLineConserves(items, MAX);
    TakeLineShape(items, MAX);
    var t := TakeLine(items, MAX);
    NoErrorsTail(Bytes(t.bytes) + Mark(t.status), t.rest);
    NoErrorsTail(Bytes(t.bytes), Mark(t.status));
    FailureIsError();
  }

  lemma FailureIsError()
    ensures !NoErrors(Mark(Failed))
  {
    assert Mark(Failed)[0] == Error;
  }

  /** Why the loop over the header lines stops: for a value that cannot be noted, which is undefined
      behaviour, if not at the empty line or at the end of the stream. */
  datatype End = GoOn | EmptyLine | EndOfStream | Spilled

  /** The header lines up to the end. */
  datatype Block = Block(headers: Headers, end: End, rest: seq<Item>)

  ghost function ReadBlock(h: Headers, items: seq<Item>): Block
    requires NoErrors(items)
    decreases |items|
  {
    TakeLineNoErrors(items);
    var t := TakeLine(items, MAX);
    if t.bytes == "" then Block(h, EndOfStream, t.rest)
    else
      var line := CString(t.bytes + "\0");
      if line == CRLF then Block(h, EmptyLine, t.rest)
      else if !StepCanNote(h, line) then Block(h, Spilled, t.rest)
      else ReadBlock(Step(h, line), t.rest)
  }

  // ---------------------------------------------------------------- the filter

  /** The names whose values are looked at. */
  predicate NeedsValue(name: string) {
    IsConnection(name) || name == "Content-length" || name == "Transfer-Encoding" || IsWord(name, "trailer")
  }

  /** A complete header line: a name and a colon, and a value if it is looked at. */
  predicate IsHeaderLine(line: string) {
    && FitsLine(line) && '\0' !in line
    && 0 < |Name(line)| < |line|
    && (NeedsValue(Name(line)) ==> Word(line) != "")
  }

  /** The lines that are passed on, in their order. */
  function Kept(lines: seq<string>): seq<string> {
    if lines == [] then []
    else Portion(lines[0], Name(lines[0])) + Kept(lines[1..])
  }

  predicate SaysClose(line: string) {
    IsConnection(Name(line)) && IsWord(Word(line), "close")
  }

  predicate Names(lines: seq<string>, name: string) {
    exists i :: 0 <= i < |lines| && Name(lines[i]) == name
  }

  lemma NamesCons(lines: seq<string>, name: string)
    requires lines != []
    ensures Names(lines, name) <==> Name(lines[0]) == name || Names(lines[1..], name)
  {
    assert forall i :: 0 <= i < |lines[1..]| ==> lines[1..][i] == lines[i + 1];
  }

  function LastLength(lines: seq<string>, before: int): int {
    if lines == [] then before
    else LastLength(lines[1..], if Name(lines[0]) == "Content-length" then Atoi(Word(lines[0])) else before)
  }

  function LastEncoding(lines: seq<string>, before: string): string {
    if lines == [] then before
    else LastEncoding(lines[1..], if Name(lines[0]) == "Transfer-Encoding" then Word(lines[0]) else before)
  }

  function LastTrailer(lines: seq<string>, before: string): string {
    if lines == [] then before
    else LastTrailer(lines[1..], if IsWord(Name(lines[0]), "trailer") then Word(lines[0]) else before)
  }

  /** h' is what the lines make of h, as a filter that keeps the order of the lines. */
  ghost predicate Filtered(h: Headers, lines: seq<string>, h': Headers) {
    && h'.out == h.out + Kept(lines)
    && (h'.setClose <==> h.setClose || AnyClose(lines))
    && (h'.hostSet <==> h.hostSet || Names(lines, "Host"))
    && (h'.lengthSet <==> h.lengthSet || Names(lines, "Content-length"))
    && h'.length == LastLength(lines, h.length)
    && h'.encoding == LastEncoding(lines, h.encoding)
    && h'.trailer == LastTrailer(lines, h.trailer)
  }

  lemma {:induction false} CStringOfText(s: string)
    requires '\0' !in s
    ensures CString(s + "\0") == s
  {
    if s == "" {
      assert s + "\0" == "\0";
    } else {
      assert s[0] in s;
      assert (s + "\0")[1..] == s[1..] + "\0";
      assert forall i :: 0 <= i < |s[1..]| ==> s[1..][i] == s[i + 1];
      CStringOfText(s[1..]);
    }
  }

  /** What one header line makes of the state. */
  predicate Advances(h: Headers, line: string, h1: Headers) {
    && h1.out == h.out + Portion(line, Name(line))
    && (h1.setClose <==> h.setClose || SaysClose(line))
    && (h1.hostSet <==> h.hostSet || Name(line) == "Host")
    && (h1.lengthSet <==> h.lengthSet || Name(line) == "Content-length")
    && h1.length == (if Name(line) == "Content-length" then Atoi(Word(line)) else h.length)
    && h1.encoding == (if Name(line) == "Transfer-Encoding" then Word(line) else h.encoding)
    && h1.trailer == (if IsWord(Name(line), "trailer") then Word(line) else h.trailer)
  }

  lemma StepAdvances(h: Headers, line: string)
    requires IsHeaderLine(line)
    ensures Advances(h, line, Step(h, line))
  {
    hide UpTo, Atoi, IsWord;
    if IsConnection(Name(line)) {
      ConnectionIsNoTrailer(Name(line));
    }
  }

  lemma ConnectionIsNoTrailer(name: string)
    requires IsConnection(name)
    ensures !IsWord(name, "trailer")
  {
    assert Lower(name)[0] == if name == "Connection" then 'c' else 'p';
  }

  function Steps(h: Headers, lines: seq<string>): Headers
    decreases |lines|
  {
    if lines == [] then h else Steps(Step(h, lines[0]), lines[1..])
  }

  predicate AreHeaderLines(lines: seq<string>) {
    forall i :: 0 <= i < |lines| ==> IsHeaderLine(lines[i])
  }

  lemma Joined(a: seq<string>, b: seq<string>, c: seq<string>)
    ensures (a + b) + c == a + (b + c)
  {
  }

  /** What is passed on of a header line. */
  function Portion(line: string, name: string): seq<string> {
    if IsConnection(name) then [] else [line]
  }

  lemma StepOut(h: Headers, line: string)
    ensures Step(h, line).out == h.out + Portion(line, Step(h, line).name)
  {
    hide UpTo, Atoi, IsWord;
  }

  predicate AnyClose(lines: seq<string>) {
    exists i :: 0 <= i < |lines| && SaysClose(lines[i])
  }

  lemma AnyCloseCons(lines: seq<string>)
    requires lines != []
    ensures AnyClose(lines) <==> SaysClose(lines[0]) || AnyClose(lines[1..])
  {
    assert forall i :: 0 <= i < |lines[1..]| ==> lines[1..][i] == lines[i + 1];
  }

  lemma FilteredCons(h: Headers, h1: Headers, lines: seq<string>, h': Headers)
    requires lines != [] && Advances(h, lines[0], h1) && Filtered(h1, lines[1..], h')
    ensures Filtered(h, lines, h')
  {
    hide IsWord, Atoi, Name, Word;
    AnyCloseCons(lines);
    NamesCons(lines, "Host");
    NamesCons(lines, "Content-length");
    Joined(h.out, Portion(lines[0], Name(lines[0])), Kept(lines[1..]));
  }

  lemma {:induction false} FilterLines(h: Headers, lines: seq<string>)
    requires AreHeaderLines(lines)
    ensures Filtered(h, lines, Steps(h, lines))
    decreases |lines|
  {
    if lines == [] {
      assert h.out + [] == h.out;
    } else {
      StepAdvances(h, lines[0]);
      FilterLines(Step(h, lines[0]), lines[1..]);
      FilteredCons(h, Step(h, lines[0]), lines, Steps(h, lines));
    }
  }

  lemma BlankIsNoHeaderLine()
    ensures !IsHeaderLine(CRLF)
  {
    assert CRLF[1..] == "\n" && "\n"[1..] == "";
    assert Name("\n") == "\n" && Name(CRLF) == "\r" + "\n";
  }

  lemma NoErrorsAfterBytes(s: string, rest: seq<Item>)
    requires NoErrors(rest)
    ensures NoErrors(Bytes(s) + rest)
  {
  }

  /** The line can be noted: a caller can tell before the line is sent. */
  predicate Fits(line: string) {
    CanNote(Name(line), Word(line))
  }

  predicate AllFit(lines: seq<string>) {
    forall i :: 0 <= i < |lines| ==> Fits(lines[i])
  }

  lemma FitsIsCanNote(h: Headers, line: string)
    requires IsHeaderLine(line)
    ensures StepCanNote(h, line) <==> Fits(line)
  {
  }

  lemma ReadBlockOne(h: Headers, line: string, after: seq<Item>)
    requires IsHeaderLine(line) && NoErrors(after)
    ensures NoErrors(Bytes(line) + after)
    ensures Fits(line) ==> ReadBlock(h, Bytes(line) + after) == ReadBlock(Step(h, line), after)
    ensures !Fits(line) ==> ReadBlock(h, Bytes(line) + after) == Block(h, Spilled, after)
  {
    NoErrorsAfterBytes(line, after);
    TakeLineOfLine(line, after, MAX);
    CStringOfText(line);
    BlankIsNoHeaderLine();
    FitsIsCanNote(h, line);
  }

  lemma ReadBlockEnd(h: Headers, rest: seq<Item>)
    requires NoErrors(rest)
    ensures NoErrors(Bytes(CRLF) + rest)
    ensures ReadBlock(h, Bytes(CRLF) + rest) == Block(h, EmptyLine, rest)
  {
    NoErrorsAfterBytes(CRLF, rest);
    LastIsTextLine();
    TakeLineOfLine(CRLF, rest, MAX);
    CStringOfText(CRLF);
  }

  /** A header block of complete lines is read line by line up to its empty line, if and only if every
      line can be noted. */
  lemma {:induction false} ReadBlockOfLines(h: Headers, lines: seq<string>, rest: seq<Item>)
    requires AreHeaderLines(lines) && NoErrors(rest)
    ensures NoErrors(Bytes(Concat(lines) + CRLF) + rest)
    ensures var b := ReadBlock(h, Bytes(Concat(lines) + CRLF) + rest);
      if AllFit(lines) then b == Block(Steps(h, lines), EmptyLine, rest) else b.end == Spilled
    decreases |lines|
  {
    if lines == [] {
      assert Concat(lines) + CRLF == CRLF;
      ReadBlockEnd(h, rest);
    } else {
      var after := Concat(lines[1..]) + CRLF;
      ReadBlockOfLines(Step(h, lines[0]), lines[1..], rest);
      Grouping(lines[0], Concat(lines[1..]), CRLF);
      BytesConcat(lines[0], after, rest);
      ReadBlockOne(h, lines[0], Bytes(after) + rest);
      AllFitCons(lines);
    }
  }

  lemma AllFitCons(lines: seq<string>)
    requires lines != []
    ensures AllFit(lines) <==> Fits(lines[0]) && AllFit(lines[1..])
  {
    assert forall i :: 0 <= i < |lines[1..]| ==> lines[1..][i] == lines[i + 1];
  }

  // ---------------------------------------------------------------- the header loop

  /** The fields of connection_status_t for one of the two peers. */
  class Side {
    var setClose: bool
    var shuttingDown: bool
    var transferEncoding: string
    var trailer: string
    var contentLength: int

    /** A connection status is taken to start zeroed. */
    constructor ()
      ensures !setClose && !shuttingDown && transferEncoding == "" && trailer == "" && contentLength == 0
    {
      setClose, shuttingDown, transferEncoding, trailer, contentLength := false, false, "", "", 0;
    }
  }

  /** The loop's state before the first line; name and data stand for what the uninitialised
      buffers hold. */
  ghost function Start(side: Side, name: string, data: string, hostSet: bool): Headers
    reads side
  {
    Headers(name, data, hostSet, false, side.contentLength, side.transferEncoding, side.trailer, side.setClose, [])
  }

  /** The connection status holds what the loop has noted. */
  ghost predicate Noted(side: Side, h: Headers)
    reads side
  {
    && side.setClose == h.setClose && side.contentLength == h.length
    && side.transferEncoding == h.encoding && side.trailer == h.trailer
  }

  /** What is written at the empty line: without a Host line, the host twice and no line end. */
  function BlockEnd(hostSet: bool, host: string): seq<string> {
    if hostSet then [CRLF] else ["Host: " + host, "Host: " + host]
  }

  /** All that is written for the header lines. */
  function HeaderOutput(b: Block, host: string): seq<string> {
    b.headers.out + Ending(b.end, b.headers.hostSet, host)
  }

  function Ending(end: End, hostSet: bool, host: string): seq<string> {
    if end.EmptyLine? then BlockEnd(hostSet, host) else []
  }

  /** The header bytes written for complete lines that can be noted: those of the lines that are
      kept, in their order, and the empty line or the host. */
  lemma HeaderPortionsOfLines(h: Headers, lines: seq<string>, rest: seq<Item>, host: string)
    requires AreHeaderLines(lines) && AllFit(lines) && NoErrors(rest) && h.out == []
    ensures NoErrors(Bytes(Concat(lines) + CRLF) + rest)
    ensures var b := ReadBlock(h, Bytes(Concat(lines) + CRLF) + rest);
      && b.end == EmptyLine && b.rest == rest && Filtered(h, lines, b.headers)
      && HeaderOutput(b, host) == Kept(lines) + BlockEnd(h.hostSet || Names(lines, "Host"), host)
  {
    ReadBlockOfLines(h, lines, rest);
    FilterLines(h, lines);
    assert [] + Kept(lines) == Kept(lines);
  }

  predicate EndsBlock(s: string) {
    |s| >= 2 && s[|s| - 2..] == CRLF
  }

  /** What is due for the header lines ends with the empty line if and only if the host is named or
      need not be. */
  lemma BlankLineIffHost(h: Headers, lines: seq<string>, rest: seq<Item>, host: string)
    requires AreHeaderLines(lines) && AllFit(lines) && NoErrors(rest) && h.out == [] && '\n' !in host
    ensures NoErrors(Bytes(Concat(lines) + CRLF) + rest)
    ensures var b := ReadBlock(h, Bytes(Concat(lines) + CRLF) + rest);
      EndsBlock(Concat(HeaderOutput(b, host))) <==> h.hostSet || Names(lines, "Host")
  {
    HeaderPortionsOfLines(h, lines, rest, host);
    EndOfBlock(Kept(lines), h.hostSet || Names(lines, "Host"), host);
  }

  lemma EndOfBlock(out: seq<string>, hostSet: bool, host: string)
    requires '\n' !in host
    ensures EndsBlock(Concat(out + BlockEnd(hostSet, host))) <==> hostSet
  {
    if hostSet {
      ConcatOne(out, CRLF);
      var s := Concat(out) + CRLF;
      assert s[|Concat(out)|..] == CRLF;
    } else {
      var last := "Host: " + host;
      assert out + [last, last] == (out + [last]) + [last];
      ConcatOne(out + [last], last);
      var s := Concat(out + [last]) + last;
      assert s[|s| - 1] == last[|last| - 1];
      assert s[|s| - 2..][1] == s[|s| - 1];
    }
  }

  /** For example, a request without header lines gets no empty line. */
  lemma NoHeaderLines(h: Headers, rest: seq<Item>, host: string)
    requires NoErrors(rest) && h.out == [] && !h.hostSet
    ensures NoErrors(Bytes(CRLF) + rest)
    ensures Concat(HeaderOutput(ReadBlock(h, Bytes(CRLF) + rest), host)) == "Host: " + host + "Host: " + host
  {
    ReadBlockEnd(h, rest);
    var last := "Host: " + host;
    assert [] + [last, last] == [last] + [last];
    ConcatOne([], last);
    ConcatOne([last], last);
    assert [] + [last] == [last] && "" + last == last;
    assert last + last == "Host: " + host + "Host: " + host;
  }

  /** The local variables of the two functions. */
  datatype Locals = Locals(name: string, data: string, hostSet: bool, lengthSet: bool)

  function LocalsOf(h: Headers): Locals {
    Locals(h.name, h.data, h.hostSet, h.lengthSet)
  }

  /** Lines 754-765. */
  method NoteLine(side: Side, locals: Locals, ghost h: Headers) returns (lengthSet: bool)
    requires Noted(side, h) && LocalsOf(h) == locals && CanNote(h.name, h.data) && !IsConnection(h.name)
    modifies side`contentLength, side`transferEncoding, side`trailer
    ensures Noted(side, Note(h)) && LocalsOf(Note(h)) == locals.(lengthSet := lengthSet)
  {
    hide UpTo, Atoi, IsWord;
    lengthSet := locals.lengthSet;
    if IsWord(locals.name, "trailer") {
      assert |locals.data| + 1 <= TYPESTRLEN;
      side.trailer := locals.data;
    }
    if locals.name == "Content-length" {
      assert Numerals.IsInt(Atoi(locals.data));
      side.contentLength := Atoi(locals.data);
      lengthSet := true;
    }
    if locals.name == "Transfer-Encoding" {
      assert |locals.data| + 1 <= TYPESTRLEN;
      side.transferEncoding := locals.data;
    }
  }

  /** Lines 734-735. */
  method ScanLine(line: string, locals: Locals, ghost h: Headers) returns (now: Locals)
    requires LocalsOf(h) == locals
    ensures LocalsOf(ScanAndHost(h, line)) == now
  {
    now := locals;
    if Name(line) != "" {
      now := now.(name := Name(line));
      if Word(line) != "" {
        now := now.(data := Word(line));
      }
    }
    if now.name == "Host" {
      now := now.(hostSet := true);
    }
  }

  /** Lines 734-767: one header line. It spills when a value is about to be noted that cannot be. */
  method HandleLine(sink: Sink, side: Side, line: string, locals: Locals, ghost h: Headers)
    returns (spilled: bool, now: Locals)
    requires ValidWrites(sink.script) && Noted(side, h) && LocalsOf(h) == locals
    modifies sink, side`setClose, side`contentLength, side`transferEncoding, side`trailer
    ensures ValidWrites(sink.script) && (spilled <==> !StepCanNote(h, line))
    ensures spilled ==> sink.State() == old(sink.State()) && Noted(side, h)
    ensures !spilled ==> Noted(side, Step(h, line)) && LocalsOf(Step(h, line)) == now
    ensures !spilled ==> sink.State() == Send(old(sink.State()), Portion(line, now.name))
  {
    hide Atoi, Name, Word, IsWord;
    now := ScanLine(line, locals, h);
    spilled := !CanNote(now.name, now.data);
    if spilled {
      return;
    }
    if IsConnection(now.name) {
      if IsWord(now.data, "close") {
        side.setClose := true;
      }
    } else {
      var lengthSet := NoteLine(side, now, ScanAndHost(h, line));
      now := now.(lengthSet := lengthSet);
      sink.Put(line);
    }
  }

  /** Lines 725-733: the empty line. */
  method HandleBlank(sink: Sink, host: string, hostSet: bool)
    requires ValidWrites(sink.script)
    modifies sink
    ensures ValidWrites(sink.script) && sink.State() == Send(old(sink.State()), BlockEnd(hostSet, host))
  {
    var buf := CRLF;
    if !hostSet {
      buf := "Host: " + host;
      SendJoin(sink.State(), [buf], [buf]);
      assert [buf] + [buf] == [buf, buf];
      sink.Put(buf);
    }
    sink.Put(buf);
  }

  lemma {:induction false} CStringStops(s: string, more: string)
    requires s != "" && s[|s| - 1] == '\0'
    ensures CString(s + more) == CString(s)
  {
    assert (s + more)[1..] == s[1..] + more;
    if s[0] != '\0' {
      CStringStops(s[1..], more);
    }
  }

  /** rio_readlineb, and the buffer as the C string that strcmp, sscanf and strlen see. */
  method ReadHeaderLine(reader: Reader, buf: array<char>) returns (readBytes: int, line: string)
    requires reader.Valid() && NoErrors(reader.Unread()) && buf != reader.buf && buf.Length == MAXLINE
    modifies reader, reader.source, reader.buf, buf
    ensures reader.Valid() && NoErrors(reader.Unread())
    ensures var t := TakeLine(old(reader.Unread()), MAX);
      && reader.Unread() == t.rest && |t.rest| + |t.bytes| == |old(reader.Unread())|
      && readBytes == |t.bytes| && (readBytes > 0 ==> line == CString(t.bytes + "\0"))
  {
    TakeLineNoErrors(reader.Unread());
    ghost var t := TakeLine(reader.Unread(), MAX);
    ghost var before := buf[..];
    readBytes, line := ReadBufferLine(reader, buf);
    if readBytes > 0 {
      CStringStops(t.bytes + "\0", before[|t.bytes| + 1..]);
    }
  }

  /** What is left to do after some turns of the loop. */
  ghost function Remaining(end: End, h: Headers, items: seq<Item>): Block
    requires NoErrors(items)
  {
    if end == GoOn then ReadBlock(h, items) else Block(h, end, items)
  }

  /** One turn of the loop. */
  method HeaderTurn(sink: Sink, reader: Reader, buf: array<char>, host: string, side: Side,
      locals: Locals, ghost h: Headers)
    returns (end: End, now: Locals, ghost h': Headers, ghost delta: seq<string>)
    requires reader.Valid() && ValidWrites(sink.script) && NoErrors(reader.Unread())
    requires buf != reader.buf && buf.Length == MAXLINE && LocalsOf(h) == locals && Noted(side, h)
    modifies reader, reader.source, reader.buf, buf, sink, side`setClose, side`contentLength, side`transferEncoding
    modifies side`trailer
    ensures reader.Valid() && ValidWrites(sink.script) && NoErrors(reader.Unread())
    ensures LocalsOf(h') == now && Noted(side, h')
    ensures ReadBlock(h, old(reader.Unread())) == Remaining(end, h', reader.Unread())
    ensures end.GoOn? ==> |reader.Unread()| < |old(reader.Unread())|
    ensures h'.out + Ending(end, h'.hostSet, host) == h.out + delta
    ensures sink.State() == Send(old(sink.State()), delta)
  {
    now, h', delta := locals, h, [];
    var readBytes, line := ReadHeaderLine(reader, buf);
    if readBytes <= 0 {
      return EndOfStream, now, h, [];
    }
    end, now, h', delta := HandleText(sink, host, side, line, locals, h);
  }

  /** Lines 725-767: the line read is the empty one or a header line. */
  method HandleText(sink: Sink, host: string, side: Side, line: string, locals: Locals, ghost h: Headers)
    returns (end: End, now: Locals, ghost h': Headers, ghost delta: seq<string>)
    requires ValidWrites(sink.script) && LocalsOf(h) == locals && Noted(side, h)
    modifies sink, side`setClose, side`contentLength, side`transferEncoding, side`trailer
    ensures ValidWrites(sink.script) && LocalsOf(h') == now && Noted(side, h')
    ensures if line == CRLF then end == EmptyLine && h' == h
            else if !StepCanNote(h, line) then end == Spilled && h' == h
            else end == GoOn && h' == Step(h, line)
    ensures h'.out + Ending(end, h'.hostSet, host) == h.out + delta
    ensures sink.State() == Send(old(sink.State()), delta)
  {
    if line == CRLF {
      HandleBlank(sink, host, locals.hostSet);
      return EmptyLine, locals, h, BlockEnd(h.hostSet, host);
    }
    var spilled;
    spilled, now := HandleLine(sink, side, line, locals, h);
    if spilled {
      return Spilled, locals, h, [];
    }
    StepOut(h, line);
    return GoOn, now, Step(h, line), Portion(line, now.name);
  }

  /** Lines 712-768, and 621-669 with hostSet from the start: the header lines up to the empty one. */
  method ForwardHeaderLines(sink: Sink, reader: Reader, host: string, hostSet: bool, side: Side, name: string,
      data: string)
    returns (end: End, lengthSet: bool)
    requires reader.Valid() && ValidWrites(sink.script) && NoErrors(reader.Unread())
    modifies reader, reader.source, reader.buf, sink, side`setClose, side`contentLength, side`transferEncoding
    modifies side`trailer
    ensures reader.Valid() && ValidWrites(sink.script) && NoErrors(reader.Unread()) && end != GoOn
    ensures var b := ReadBlock(old(Start(side, name, data, hostSet)), old(reader.Unread()));
      && reader.Unread() == b.rest && end == b.end
      && (end != Spilled ==> lengthSet == b.headers.lengthSet && Noted(side, b.headers))
      && sink.State() == Send(old(sink.State()), HeaderOutput(b, host))
  {
    var buf := new char[MAXLINE];
    ghost var h, before := Start(side, name, data, hostSet), sink.State();
    ghost var b := ReadBlock(h, reader.Unread());
    var locals := Locals(name, data, hostSet, false);
    end := GoOn;
    while end.GoOn?
      invariant reader.Valid() && ValidWrites(sink.script) && NoErrors(reader.Unread())
      invariant LocalsOf(h) == locals && Noted(side, h)
      invariant b == Remaining(end, h, reader.Unread())
      invariant sink.State() == Send(before, h.out + Ending(end, h.hostSet, host))
      decreases end.GoOn?, |reader.Unread()|
    {
      ghost var out, delta := h.out, [];
      end, locals, h, delta := HeaderTurn(sink, reader, buf, host, side, locals, h);
      assert out + [] == out;
      SendJoin(before, out, delta);
    }
    lengthSet := locals.lengthSet;
  }

  const CLOSE_LINES := ["Connection: close\r\n", "Proxy-Connection: close\r\n"]

  method WriteCloseLines(sink: Sink)
    requires ValidWrites(sink.script)
    modifies sink
    ensures ValidWrites(sink.script) && sink.State() == Send(old(sink.State()), CLOSE_LINES)
  {
    var first, second := "Connection: close\r\n", "Proxy-Connection: close\r\n";
    SendJoin(sink.State(), [first], [second]);
    assert [first] + [second] == CLOSE_LINES;
    sink.Put(first);
    sink.Put(second);
  }

  // ---------------------------------------------------------------- the body

  /** What is due after the headers of a message: the source checks the transfer encoding first and
      the content length second. A length that is negative, or overflows with one byte more, or a value
      that cannot be noted, breaks the function. */
  datatype Due = Nothing | ChunkedBody | Counted(n: nat) | Unknown | Broken

  function DueBody(h: Headers): Due {
    if IsWord(h.encoding, "chunked") then ChunkedBody
    else if !h.lengthSet then Unknown
    else if 0 <= h.length && Numerals.IsInt(h.length + 1) then Counted(h.length)
    else Broken
  }

  function DueOf(b: Block, wanted: bool): Due {
    match b.end
    case Spilled => Broken
    case EmptyLine => if wanted then DueBody(b.headers) else Nothing
    case _ => Nothing
  }

  /** The bytes written for a counted body: those that came, and, if too few came, whatever the
      rest of the buffer held. */
  predicate IsCounted(out: string, n: nat, items: seq<Item>) {
    var t := TakeN(items, n);
    |out| == n && |t.bytes| <= n && out[..|t.bytes|] == t.bytes
  }

  /** So the body sent is the body received if and only if all of it came. */
  lemma CountedIff(out: string, n: nat, items: seq<Item>)
    requires IsCounted(out, n, items)
    ensures out == TakeN(items, n).bytes <==> TakeN(items, n).status == Filled
  {
    TakeNLength(items, n);
  }

  /** For example, of three bytes announced the third is not the sender's if only two come. */
  lemma TwoOfThree(out: string)
    requires IsCounted(out, 3, Bytes("ab"))
    ensures TakeN(Bytes("ab"), 3).bytes == "ab" && out[..2] == "ab" && out != "ab"
  {
    TakeNOfBytes("ab", []);
    TakeNSplits(Bytes("ab") + [], 2, 1);
    assert Bytes("ab") + [] == Bytes("ab") && "ab" + "" == "ab";
  }

  /** What is written for the body, what is left of the stream, and how it ends; junk is what the
      buffer of forward_chunked holds at first. */
  ghost predicate BodyForwarded(due: Due, items: seq<Item>, announced: bool, refusal: string, junk: string,
      ending: Chunked.Ending, out: seq<string>, left: seq<Item>)
  {
    match due
    case Nothing => ending == Finished && out == [] && left == items
    case ChunkedBody =>
      && |junk| == MAXLINE
      && var p := PassBody(announced, junk, items);
         ending == p.ending && out == p.out && left == p.rest
    case Counted(n) => ending == Finished && |out| == 1 && IsCounted(out[0], n, items) && left == TakeN(items, n).rest
    case Unknown => ending == Finished && out == [refusal] && left == items
    case Broken => ending == Undefined && out == [] && left == items
  }

  /** The sender has nothing more to send: of a counted body not one byte came. */
  predicate CameEmpty(due: Due, items: seq<Item>) {
    due.Counted? && TakeN(items, due.n).bytes == ""
  }

  lemma TakeNNoErrors(items: seq<Item>, n: nat)
    requires NoErrors(items)
    ensures TakeN(items, n).status != Failed
  {
    var t := TakeN(items, n);
    TakeNConserves(items, n);
    NoErrorsTail(Bytes(t.bytes) + Mark(t.status), t.rest);
    NoErrorsTail(Bytes(t.bytes), Mark(t.status));
    FailureIsError();
  }

  /** Lines 775-779 and 676-680. */
  method ForwardCounted(sink: Sink, reader: Reader, side: Side, n: nat) returns (ghost out: string)
    requires reader.Valid() && ValidWrites(sink.script) && NoErrors(reader.Unread())
    modifies reader, reader.source, reader.buf, sink, side`shuttingDown
    ensures reader.Valid() && ValidWrites(sink.script)
    ensures reader.Unread() == TakeN(old(reader.Unread()), n).rest
    ensures side.shuttingDown == (old(side.shuttingDown) || CameEmpty(Counted(n), old(reader.Unread())))
    ensures IsCounted(out, n, old(reader.Unread())) && sink.State() == Send(old(sink.State()), [out])
  {
    var r, content := ReadCounted(reader, n);
    if r == 0 {
      side.shuttingDown := true;
    }
    out := content;
    sink.Put(content);
  }

  method ReadCounted(reader: Reader, n: nat) returns (r: int, content: string)
    requires reader.Valid() && NoErrors(reader.Unread())
    modifies reader, reader.source, reader.buf
    ensures reader.Valid()
    ensures reader.Unread() == TakeN(old(reader.Unread()), n).rest
    ensures r == |TakeN(old(reader.Unread()), n).bytes|
    ensures IsCounted(content, n, old(reader.Unread()))
  {
    ghost var bytes := TakeN(reader.Unread(), n).bytes;
    TakeNNoErrors(reader.Unread(), n);
    var contentBuf := new char[n + 1];
    r := reader.ReadNb(contentBuf, n);
    content := contentBuf[..n];
    assert contentBuf[..][..|bytes|] == bytes;
  }

  /** Lines 772-784 and 673-685; refusal is what clienterror writes. */
  method ForwardBody(sink: Sink, reader: Reader, from: Side, to: Side, lengthSet: bool, refusal: string,
      ghost h: Headers)
    returns (ending: Chunked.Ending, ghost out: seq<string>, ghost junk: string)
    requires reader.Valid() && ValidWrites(sink.script) && NoErrors(reader.Unread())
    requires Noted(from, h) && lengthSet == h.lengthSet && from != to
    modifies reader, reader.source, reader.buf, sink, from, to`setClose
    ensures reader.Valid() && ValidWrites(sink.script)
    ensures BodyForwarded(DueBody(h), old(reader.Unread()), h.trailer != "", refusal, junk,
                          ending, out, reader.Unread())
    ensures ending == Finished ==>
      && from.shuttingDown == (old(from.shuttingDown) || CameEmpty(DueBody(h), old(reader.Unread())))
      && from.setClose == (old(from.setClose) || DueBody(h).Unknown?)
      && to.setClose == (old(to.setClose) || DueBody(h).Unknown?)
    ensures sink.State() == Send(old(sink.State()), out)
  {
    ending, junk := Finished, "";
    if IsWord(from.transferEncoding, "chunked") {
      var contentLength;
      ending, contentLength, junk, out := ForwardChunked(sink, reader, from.trailer);
    } else if lengthSet {
      if from.contentLength < 0 || !Numerals.IsInt(from.contentLength + 1) {
        return Undefined, [], "";
      }
      ghost var content := ForwardCounted(sink, reader, from, from.contentLength);
      out := [content];
    } else {
      sink.Put(refusal);
      from.setClose := true;
      to.setClose := true;
      out := [refusal];
    }
  }

  // ---------------------------------------------------------------- forward_requestheader

  const BAD_REQUEST := "HTTP/1.0 400 Bad request\r\n"

  /** Lines 719-723 and 771-785, or 628-632 and 672-685: from is the sender of the message; at the end of
      the stream before the empty line it is always the client that is noted as shutting down. */
  method FinishMessage(sink: Sink, reader: Reader, client: Side, from: Side, to: Side, end: End, lengthSet: bool,
      wanted: bool, refusal: string, ghost b: Block)
    returns (ending: Chunked.Ending, r: int, ghost out: seq<string>, ghost junk: string)
    requires reader.Valid() && ValidWrites(sink.script) && NoErrors(b.rest) && reader.Unread() == b.rest
    requires end == b.end && end != GoOn
    requires end != Spilled ==> lengthSet == b.headers.lengthSet && Noted(from, b.headers)
    requires from != to && (client == from || client == to)
    modifies reader, reader.source, reader.buf, sink, from, to`setClose, to`shuttingDown
    ensures reader.Valid() && ValidWrites(sink.script) && sink.State() == Send(old(sink.State()), out)
    ensures BodyForwarded(DueOf(b, wanted), b.rest, b.headers.trailer != "", refusal, junk,
                          ending, out, reader.Unread())
    ensures ending == Finished ==>
      && !b.end.Spilled?
      && r == (if b.end.EmptyLine? then 0 else -1)
      && from.setClose == (old(from.setClose) || DueOf(b, wanted).Unknown?)
      && to.setClose == (old(to.setClose) || DueOf(b, wanted).Unknown?)
      && from.shuttingDown
         == (old(from.shuttingDown) || CameEmpty(DueOf(b, wanted), b.rest) || (b.end.EndOfStream? && client == from))
      && to.shuttingDown == (old(to.shuttingDown) || (b.end.EndOfStream? && client == to))
  {
    ending, r, out, junk := Finished, 0, [], "";
    if end.Spilled? {
      ending := Undefined;
    } else if end.EndOfStream? {
      client.shuttingDown := true;
      r := -1;
    } else if wanted {
      ending, out, junk := ForwardBody(sink, reader, from, to, lengthSet, refusal, b.headers);
    }
  }

  /** forward_requestheader on a stream without read errors, for every block of lines and whatever
      the uninitialised buffers name and data hold. */
  method ForwardRequestHeader(sink: Sink, reader: Reader, host: string, method_: string, client: Side, server: Side,
      name: string, data: string, ghost items: seq<Item>)
    returns (ending: Chunked.Ending, r: int, ghost out: seq<string>, ghost junk: string)
    requires reader.Valid() && ValidWrites(sink.script) && reader.Unread() == items && NoErrors(items)
    requires client != server
    modifies reader, reader.source, reader.buf, sink, client, server`setClose, server`shuttingDown
    ensures reader.Valid() && ValidWrites(sink.script)
    ensures var b := ReadBlock(old(Start(client, name, data, false)), items);
      var due := DueOf(b, method_ == "POST");
      && BodyForwarded(due, b.rest, b.headers.trailer != "", BAD_REQUEST, junk, ending, out, reader.Unread())
      && (ending == Finished ==>
            && r == (if b.end.EmptyLine? then 0 else -1)
            && client.shuttingDown == (old(client.shuttingDown) || CameEmpty(due, b.rest) || b.end.EndOfStream?)
            && client.setClose == (b.headers.setClose || due.Unknown?)
            && server.shuttingDown == old(server.shuttingDown)
            && server.setClose == (old(server.setClose) || due.Unknown?))
      && sink.State() == Send(old(sink.State()), CLOSE_LINES + (HeaderOutput(b, host) + out))
  {
    hide ReadBlock, DueOf, BodyForwarded, HeaderOutput, Send, NoErrors, CameEmpty;
    ghost var b := ReadBlock(Start(client, name, data, false), items);
    ghost var before := sink.State();
    WriteCloseLines(sink);
    var end, lengthSet := ForwardHeaderLines(sink, reader, host, false, client, name, data);
    ending, r, out, junk := FinishMessage(sink, reader, client, client, server, end, lengthSet, method_ == "POST",
        BAD_REQUEST, b);
    SendThree(before, CLOSE_LINES, HeaderOutput(b, host), out);
  }

  lemma SendThree(o: Output, a: seq<string>, b: seq<string>, c: seq<string>)
    ensures Send(Send(Send(o, a), b), c) == Send(o, a + (b + c))
  {
    SendJoin(o, a, b + c);
    SendJoin(Send(o, a), b, c);
  }

  // ---------------------------------------------------------------- forward_reply

  const BAD_REPLY := "HTTP/1.0 400 Bad reply\r\n"

  /** The first word that sscanf(line, "%s %s %s") finds. */
  function FirstWord(line: string): string {
    var blank := UpTo(line, c => !RequestGrammar.IsSpace(c));
    UpTo(line[|blank|..], c => RequestGrammar.IsSpace(c))
  }

  /** The version of a reply: old stands for what the uninitialised buffer holds. */
  function VersionOf(status: string, old_: string): string {
    if FirstWord(status) != "" then FirstWord(status) else old_
  }

  /** What is written before the header lines of a reply. */
  function ReplyStart(status: string, setClose: bool): seq<string> {
    [status] + if setClose then CLOSE_LINES else []
  }

  /** The status line of a reply. */
  ghost function StatusLine(items: seq<Item>): string {
    CString(TakeLine(items, MAX).bytes + "\0")
  }

  /** Lines 608-619: the status line is passed on, and the close lines if the client is to close. */
  method ReplyStatus(sink: Sink, status: string, version: string, client: Side, server: Side)
    requires ValidWrites(sink.script) && client != server
    modifies sink, server`setClose
    ensures ValidWrites(sink.script)
    ensures server.setClose == (old(server.setClose) || VersionOf(status, version) == "HTTP/1.0")
    ensures sink.State() == Send(old(sink.State()), ReplyStart(status, client.setClose))
  {
    ghost var before := sink.State();
    if VersionOf(status, version) == "HTTP/1.0" {
      server.setClose := true;
    }
    sink.Put(status);
    if client.setClose {
      WriteCloseLines(sink);
    }
    SendJoin(before, [status], if client.setClose then CLOSE_LINES else []);
  }

  /** The header block of a reply, whose host need not be named. */
  ghost function ReplyBlock(server: Side, name: string, data: string, version: string, items: seq<Item>): Block
    reads server
    requires NoErrors(items)
  {
    TakeLineNoErrors(items);
    var h := Start(server, name, data, true);
    var old10 := VersionOf(StatusLine(items), version) == "HTTP/1.0";
    ReadBlock(h.(setClose := h.setClose || old10), TakeLine(items, MAX).rest)
  }

  /** forward_reply on a stream without read errors; name, data and version are what the
      uninitialised buffers hold. */
  method ForwardReply(sink: Sink, reader: Reader, client: Side, server: Side, name: string, data: string,
      version: string, ghost items: seq<Item>)
    returns (ending: Chunked.Ending, r: int, ghost out: seq<string>, ghost junk: string)
    requires reader.Valid() && ValidWrites(sink.script) && reader.Unread() == items && NoErrors(items)
    requires client != server
    modifies reader, reader.source, reader.buf, sink, client`setClose, client`shuttingDown, server
    ensures reader.Valid() && ValidWrites(sink.script)
    ensures TakeLine(items, MAX).bytes == "" ==>
      && ending == Finished && r == 0 && server.shuttingDown && sink.State() == old(sink.State())
      && client.setClose == old(client.setClose) && client.shuttingDown == old(client.shuttingDown)
    ensures TakeLine(items, MAX).bytes != "" ==>
      var b := old(ReplyBlock(server, name, data, version, items));
      var due := DueOf(b, true);
      && BodyForwarded(due, b.rest, b.headers.trailer != "", BAD_REPLY, junk, ending, out, reader.Unread())
      && (ending == Finished ==>
            && r == (if b.end.EmptyLine? then 0 else -1)
            && server.shuttingDown == (old(server.shuttingDown) || CameEmpty(due, b.rest))
            && server.setClose == (b.headers.setClose || due.Unknown?)
            && client.shuttingDown == (old(client.shuttingDown) || b.end.EndOfStream?)
            && client.setClose == (old(client.setClose) || due.Unknown?))
      && sink.State() == Send(old(sink.State()),
                              ReplyStart(StatusLine(items), old(client.setClose)) + (HeaderOutput(b, "") + out))
  {
    hide ReadBlock, DueOf, BodyForwarded, HeaderOutput, Send, NoErrors, CameEmpty, ReplyStart;
    hide VersionOf, StatusLine, TakeLine, CString;
    ghost var b := ReplyBlock(server, name, data, version, items);
    ghost var before, start := sink.State(), ReplyStart(StatusLine(items), client.setClose);
    var more := ReplyFirst(sink, reader, client, server, version, items);
    if !more {
      server.shuttingDown := true;
      return Finished, 0, [], "";
    }
    ending, r, out, junk := ReplyMessage(sink, reader, client, server, name, data, b);
    SendJoin(before, start, HeaderOutput(b, "") + out);
  }

  /** Lines 602-619. */
  method ReplyFirst(sink: Sink, reader: Reader, client: Side, server: Side, version: string, ghost items: seq<Item>)
    returns (more: bool)
    requires reader.Valid() && ValidWrites(sink.script) && reader.Unread() == items && NoErrors(items)
    requires client != server
    modifies reader, reader.source, reader.buf, sink, server`setClose
    ensures reader.Valid() && ValidWrites(sink.script) && NoErrors(TakeLine(items, MAX).rest)
    ensures reader.Unread() == TakeLine(items, MAX).rest
    ensures more == (TakeLine(items, MAX).bytes != "")
    ensures !more ==> sink.State() == old(sink.State()) && server.setClose == old(server.setClose)
    ensures more ==> server.setClose == (old(server.setClose) || VersionOf(StatusLine(items), version) == "HTTP/1.0")
    ensures more ==> sink.State() == Send(old(sink.State()), ReplyStart(StatusLine(items), client.setClose))
  {
    var buf := new char[MAXLINE];
    var readBytes, status := ReadHeaderLine(reader, buf);
    more := readBytes != 0;
    if more {
      ReplyStatus(sink, status, version, client, server);
    }
  }

  /** Lines 621-685: the header lines and the body of a reply. */
  method ReplyMessage(sink: Sink, reader: Reader, client: Side, server: Side, name: string, data: string,
      ghost b: Block)
    returns (ending: Chunked.Ending, r: int, ghost out: seq<string>, ghost junk: string)
    requires reader.Valid() && ValidWrites(sink.script) && NoErrors(reader.Unread()) && client != server
    requires b == ReadBlock(Start(server, name, data, true), reader.Unread())
    modifies reader, reader.source, reader.buf, sink, client`setClose, client`shuttingDown, server
    ensures reader.Valid() && ValidWrites(sink.script)
    ensures BodyForwarded(DueOf(b, true), b.rest, b.headers.trailer != "", BAD_REPLY, junk,
                          ending, out, reader.Unread())
    ensures ending == Finished ==>
      && r == (if b.end.EmptyLine? then 0 else -1)
      && server.shuttingDown == (old(server.shuttingDown) || CameEmpty(DueOf(b, true), b.rest))
      && server.setClose == (b.headers.setClose || DueOf(b, true).Unknown?)
      && client.shuttingDown == (old(client.shuttingDown) || b.end.EndOfStream?)
      && client.setClose == (old(client.setClose) || DueOf(b, true).Unknown?)
    ensures sink.State() == Send(old(sink.State()), HeaderOutput(b, "") + out)
  {
    hide ReadBlock, DueOf, BodyForwarded, HeaderOutput, Send, NoErrors, CameEmpty;
    ghost var before := sink.State();
    var end, lengthSet := ForwardHeaderLines(sink, reader, "", true, server, name, data);
    ending, r, out, junk := FinishMessage(sink, reader, client, server, client, end, lengthSet, true, BAD_REPLY, b);
    SendJoin(before, HeaderOutput(b, ""), out);
  }

  // ---------------------------------------------------------------- lines the source does not take

  /** The length of a body must be announced under the exact name Content-length, and chunked by the
      last Transfer-Encoding: for lines that can be noted, read into a fresh status, the body is refused
      if and only if neither is the case. */
  lemma RefusedIff(h: Headers, lines: seq<string>, rest: seq<Item>)
    requires AreHeaderLines(lines) && AllFit(lines) && NoErrors(rest) && h.encoding == "" && !h.lengthSet
    ensures NoErrors(Bytes(Concat(lines) + CRLF) + rest)
    ensures var b := ReadBlock(h, Bytes(Concat(lines) + CRLF) + rest);
      DueBody(b.headers).Unknown? <==> !IsWord(LastEncoding(lines, ""), "chunked") && !Names(lines, "Content-length")
  {
    hide ReadBlock, Steps, AreHeaderLines, AllFit, Names, LastEncoding, Concat, IsWord, TakeLine;
    ReadBlockOfLines(h, lines, rest);
    FilterLines(h, lines);
  }

  /** So a body with a content length in the usual spelling is refused. */
  lemma UsualSpellingRefused(h: Headers, rest: seq<Item>)
    requires NoErrors(rest) && h.encoding == "" && !h.lengthSet
    ensures AreHeaderLines([USUAL]) && AllFit([USUAL])
    ensures NoErrors(Bytes(Concat([USUAL]) + CRLF) + rest)
    ensures DueBody(ReadBlock(h, Bytes(Concat([USUAL]) + CRLF) + rest).headers).Unknown?
  {
    hide ReadBlock, IsHeaderLine;
    UsualIsHeaderLine();
    RefusedIff(h, [USUAL], rest);
  }

  lemma UsualIsHeaderLine()
    ensures IsHeaderLine(USUAL) && Name(USUAL) == "Content-Length"
  {
    UsualName();
    UsualFits();
    assert Lower(Name(USUAL))[0] == 'c';
  }

  lemma UsualName()
    ensures Name(USUAL) == "Content-Length"
  {
    UpToIs(USUAL, c => c == ':', 14);
  }

  lemma UsualFits()
    ensures FitsLine(USUAL) && '\0' !in USUAL
  {
    assert USUAL[18] == '\n';
  }

  const USUAL := "Content-Length" + ": 5\r\n"

  /** The loop stops in undefined behaviour if and only if some line holds a value that cannot be
      noted. */
  lemma SpillsIff(h: Headers, lines: seq<string>, rest: seq<Item>)
    requires AreHeaderLines(lines) && NoErrors(rest)
    ensures NoErrors(Bytes(Concat(lines) + CRLF) + rest)
    ensures ReadBlock(h, Bytes(Concat(lines) + CRLF) + rest).end == Spilled <==> !AllFit(lines)
  {
    ReadBlockOfLines(h, lines, rest);
  }

  /** name ": " word CRLF. */
  function PlainLine(name: string, word: string): string {
    name + ": " + word + CRLF
  }

  predicate IsPlainText(s: string) {
    s != "" && forall i :: 0 <= i < |s| ==> s[i] != ':' && s[i] != '\0' && !RequestGrammar.IsSpace(s[i])
  }

  lemma PlainParts(name: string, word: string)
    requires IsPlainText(name) && IsPlainText(word)
    ensures Name(PlainLine(name, word)) == name && Word(PlainLine(name, word)) == word
  {
    PlainName(name, word);
    assert PlainLine(name, word)[|name| + 1..] == " " + word + CRLF;
    WordAfterBlank(PlainLine(name, word)[|name| + 1..], word);
  }

  lemma PlainName(name: string, word: string)
    requires IsPlainText(name)
    ensures Name(PlainLine(name, word)) == name
  {
    var line := PlainLine(name, word);
    assert line[..|name|] == name && line[|name|] == ':';
    UpToIs(line, c => c == ':', |name|);
  }

  lemma WordAfterBlank(after: string, word: string)
    requires after == " " + word + CRLF && IsPlainText(word)
    ensures UpTo(after, c => !RequestGrammar.IsSpace(c)) == " "
    ensures UpTo(after[1..], c => RequestGrammar.IsSpace(c)) == word
  {
    UpToIs(after, c => !RequestGrammar.IsSpace(c), 1);
    assert after[1..] == word + CRLF;
    UpToIs(after[1..], c => RequestGrammar.IsSpace(c), |word|);
  }

  lemma PlainFits(name: string, word: string)
    requires IsPlainText(name) && IsPlainText(word) && |name| + |word| + 4 <= MAX
    ensures FitsLine(PlainLine(name, word)) && '\0' !in PlainLine(name, word)
  {
    var line := PlainLine(name, word);
    assert forall i :: 0 <= i < |line| ==>
      line[i] == if i < |name| then name[i] else if i < |name| + 2 then ": "[i - |name|]
                 else if i < |line| - 2 then word[i - |name| - 2] else CRLF[i - (|line| - 2)];
  }

  lemma PlainSpills(h: Headers, name: string, word: string, rest: seq<Item>)
    requires IsPlainText(name) && IsPlainText(word) && |name| + |word| + 4 <= MAX && !CanNote(name, word)
    requires NoErrors(rest)
    ensures IsHeaderLine(PlainLine(name, word)) && NoErrors(Bytes(Concat([PlainLine(name, word)]) + CRLF) + rest)
    ensures ReadBlock(h, Bytes(Concat([PlainLine(name, word)]) + CRLF) + rest).end == Spilled
  {
    var line := PlainLine(name, word);
    PlainParts(name, word);
    PlainFits(name, word);
    assert |Name(line)| < |line|;
    SpillsIff(h, [line], rest);
  }

  /** For example, a transfer encoding of 400 characters spills, */
  lemma LongEncodingSpills(h: Headers, word: string, rest: seq<Item>)
    requires NoErrors(rest) && |word| == 400 && forall i :: 0 <= i < |word| ==> word[i] == 'a'
    ensures IsHeaderLine(PlainLine("Transfer-Encoding", word))
    ensures NoErrors(Bytes(Concat([PlainLine("Transfer-Encoding", word)]) + CRLF) + rest)
    ensures ReadBlock(h, Bytes(Concat([PlainLine("Transfer-Encoding", word)]) + CRLF) + rest).end == Spilled
  {
    PlainSpills(h, "Transfer-Encoding", word, rest);
  }

  /** and so does a content length of ten digits that begins with a 3 or more. */
  lemma BigLengthSpills(h: Headers, word: string, rest: seq<Item>)
    requires NoErrors(rest) && |word| == 10 && '3' <= word[0] <= '9'
    requires forall i :: 0 <= i < |word| ==> '0' <= word[i] <= '9'
    ensures IsHeaderLine(PlainLine("Content-length", word))
    ensures NoErrors(Bytes(Concat([PlainLine("Content-length", word)]) + CRLF) + rest)
    ensures ReadBlock(h, Bytes(Concat([PlainLine("Content-length", word)]) + CRLF) + rest).end == Spilled
  {
    TenDigits(word);
    PlainSpills(h, "Content-length", word, rest);
  }

  lemma TenDigits(word: string)
    requires |word| == 10 && '3' <= word[0] <= '9' && forall i :: 0 <= i < |word| ==> '0' <= word[i] <= '9'
    ensures !Numerals.IsInt(Atoi(word))
  {
    var d := (word[0] - '0') as nat;
    assert Pow10(3) == 1000;
    assert Pow10(6) == 100_0000;
    assert Pow10(9) == 10_0000_0000;
    DigitsGrow(word[1..], d);
    assert Digits(word, 0) == Digits(word[1..], d);
    assert d * Pow10(9) >= 30_0000_0000;
  }

  function Pow10(n: nat): nat {
    if n == 0 then 1 else 10 * Pow10(n - 1)
  }

  lemma {:induction false} DigitsGrow(s: string, sofar: nat)
    requires forall i :: 0 <= i < |s| ==> '0' <= s[i] <= '9'
    ensures Digits(s, sofar) >= sofar * Pow10(|s|)
  {
    if s != "" {
      var next := sofar * 10 + (s[0] - '0') as nat;
      DigitsGrow(s[1..], next);
      TimesTen(sofar, next, Pow10(|s| - 1));
    }
  }

  lemma TimesTen(sofar: nat, next: nat, p: nat)
    requires next >= sofar * 10
    ensures next * p >= sofar * (10 * p)
  {
    var d := next - sofar * 10;
    assert next * p == sofar * (10 * p) + d * p;
    assert d * p >= 0;
  }
}
