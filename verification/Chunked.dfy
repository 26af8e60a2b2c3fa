/** forward_chunked of proxy.c over the Rio reader and writer, specified on the byte stream.
    The format is that of section 4.1 of RFC 7230. */
module Chunked {
  import opened Rio
  import opened Numerals

  const MAXLINE: nat := 8192
  const CRLF := "\r\n"
  const LAST := "0\r\n"

  /** A chunk as the source reads it: a line that begins with the size, the data, and two more
      bytes, which are not looked at. */
  datatype Chunk = Chunk(sizeLine: string, data: string, end: string)

  /** Chunks, then the last-chunk line, then an optional trailer line, then an empty line. */
  datatype Body = Body(chunks: seq<Chunk>, trailer: string)

  predicate FitsLine(s: string) {
    IsTextLine(s) && |s| <= MAXLINE - 1
  }

  predicate IsChunk(c: Chunk) {
    && FitsLine(c.sizeLine) && c.sizeLine != LAST
    && HexValue(HexPrefix(c.sizeLine)) == |c.data|
    && |c.data| + 2 <= MAXLINE
    && |c.end| == 2
  }

  /** The bodies forward_chunked can take; a trailer line is expected iff one was announced. */
  predicate IsBody(b: Body, announced: bool) {
    && (forall i :: 0 <= i < |b.chunks| ==> IsChunk(b.chunks[i]))
    && (if announced then FitsLine(b.trailer) else b.trailer == "")
  }

  function EncodeChunks(chunks: seq<Chunk>): string {
    if chunks == [] then ""
    else chunks[0].sizeLine + (chunks[0].data + chunks[0].end) + EncodeChunks(chunks[1..])
  }

  function Encode(b: Body): string {
    EncodeChunks(b.chunks) + (LAST + (b.trailer + CRLF))
  }

  /** The chunks without their size lines. */
  function Payloads(chunks: seq<Chunk>): string {
    if chunks == [] then "" else (chunks[0].data + chunks[0].end) + Payloads(chunks[1..])
  }

  /** What forward_chunked writes for a body. */
  function Forwarded(b: Body): string {
    Payloads(b.chunks) + LAST + b.trailer + CRLF
  }

  function TotalSize(chunks: seq<Chunk>): nat {
    if chunks == [] then 0 else |chunks[0].data| + TotalSize(chunks[1..])
  }

  // ---------------------------------------------------------------- what the output is

  lemma {:induction false} PayloadsLength(chunks: seq<Chunk>)
    requires forall i :: 0 <= i < |chunks| ==> IsChunk(chunks[i])
    ensures |Payloads(chunks)| + |chunks| <= |EncodeChunks(chunks)|
  {
    if chunks != [] {
      PayloadsLength(chunks[1..]);
      assert IsChunk(chunks[0]);
    }
  }

  /** The size lines of all chunks but the last are lost, so what is forwarded is what was
      received exactly when there is no chunk but the last. */
  lemma ForwardedVerbatimIffNoChunks(b: Body, announced: bool)
    requires IsBody(b, announced)
    ensures Forwarded(b) == Encode(b) <==> b.chunks == []
  {
    PayloadsLength(b.chunks);
    if b.chunks != [] {
      assert |Forwarded(b)| < |Encode(b)|;
    }
  }

  /** For example. */
  lemma ChunkSizeIsLost(b: Body)
    requires b == Body([Chunk("3\r\n", "abc", CRLF)], "")
    ensures IsBody(b, false)
    ensures Encode(b) == "3\r\nabc\r\n0\r\n\r\n" && Forwarded(b) == "abc\r\n0\r\n\r\n"
  {
    ThreeBytes(b.chunks[0]);
    OneChunk(b.chunks[0]);
  }

  lemma ThreeBytes(c: Chunk)
    requires c == Chunk("3\r\n", "abc", CRLF)
    ensures IsChunk(c)
  {
    ChunkSizeRoundTrip(3, CRLF);
    assert Text(3, 16) == "3" && Text(3, 16) + CRLF == "3\r\n";
  }

  lemma OneChunk(c: Chunk)
    ensures EncodeChunks([c]) == c.sizeLine + (c.data + c.end) && Payloads([c]) == c.data + c.end
  {
    assert [c][1..] == [] && EncodeChunks([]) == "" && Payloads([]) == "";
    assert c.sizeLine + (c.data + c.end) + "" == c.sizeLine + (c.data + c.end);
    assert c.data + c.end + "" == c.data + c.end;
  }

  // ---------------------------------------------------------------- a body ends where it ends

  lemma LineNotLonger(a: string, x: string, b: string, y: string)
    requires IsTextLine(a) && IsTextLine(b) && a + x == b + y
    ensures |a| <= |b|
  {
    assert forall i :: 0 <= i < |a| && i < |b| ==> (a + x)[i] == a[i] && (b + y)[i] == b[i];
  }

  /** Lines cut off the front of a stream are the same if the streams are. */
  lemma LinesAgree(a: string, x: string, b: string, y: string)
    requires IsTextLine(a) && IsTextLine(b) && a + x == b + y
    ensures a == b && x == y
  {
    LineNotLonger(a, x, b, y);
    LineNotLonger(b, y, a, x);
    CutFront(a, x, b, y);
  }

  lemma LastIsTextLine()
    ensures IsTextLine(LAST) && IsTextLine(CRLF)
  {
  }

  function AfterFirstLine(b: Body, r: string): string
    requires b.chunks != []
  {
    (b.chunks[0].data + b.chunks[0].end) + (Encode(Rest(b)) + r)
  }

  function Rest(b: Body): Body
    requires b.chunks != []
  {
    Body(b.chunks[1..], b.trailer)
  }

  lemma Regroup(a: string, b: string, c: string, d: string, e: string)
    ensures a + b + c + d + e == a + (b + (c + d + e))
  {
  }

  lemma FirstLine(b: Body, r: string, announced: bool)
    requires IsBody(b, announced) && b.chunks != []
    ensures Encode(b) + r == b.chunks[0].sizeLine + AfterFirstLine(b, r)
    ensures IsChunk(b.chunks[0]) && IsBody(Rest(b), announced)
  {
    var c := b.chunks[0];
    Regroup(c.sizeLine, c.data + c.end, EncodeChunks(b.chunks[1..]), LAST + (b.trailer + CRLF), r);
  }

  lemma LastUnique(b1: Body, r1: string, b2: Body, r2: string, announced: bool)
    requires IsBody(b1, announced) && IsBody(b2, announced) && b1.chunks == [] && b2.chunks == []
    requires Encode(b1) + r1 == Encode(b2) + r2
    ensures b1 == b2 && r1 == r2
  {
    hide Encode, EncodeChunks;
    LastIsTextLine();
    var t1, t2 := b1.trailer + (CRLF + r1), b2.trailer + (CRLF + r2);
    NoChunks(b1, r1);
    NoChunks(b2, r2);
    LinesAgree(LAST, t1, LAST, t2);
    if announced {
      LinesAgree(b1.trailer, CRLF + r1, b2.trailer, CRLF + r2);
    } else {
      assert t1 == CRLF + r1 && t2 == CRLF + r2;
    }
    LinesAgree(CRLF, r1, CRLF, r2);
  }

  lemma NoChunks(b: Body, r: string)
    requires b.chunks == []
    ensures Encode(b) + r == LAST + (b.trailer + (CRLF + r))
  {
    assert Encode(b) == LAST + (b.trailer + CRLF);
  }

  lemma LastIsNoChunk(b1: Body, r1: string, b2: Body, r2: string, announced: bool)
    requires IsBody(b1, announced) && IsBody(b2, announced) && b1.chunks == [] && b2.chunks != []
    ensures Encode(b1) + r1 != Encode(b2) + r2
  {
    hide Encode, EncodeChunks, HexPrefix, HexValue;
    LastIsTextLine();
    FirstLine(b2, r2, announced);
    var t1 := b1.trailer + (CRLF + r1);
    NoChunks(b1, r1);
    if Encode(b1) + r1 == Encode(b2) + r2 {
      LinesAgree(LAST, t1, b2.chunks[0].sizeLine, AfterFirstLine(b2, r2));
    }
  }

  lemma FirstChunkUnique(b1: Body, r1: string, b2: Body, r2: string, announced: bool)
    requires IsBody(b1, announced) && IsBody(b2, announced) && b1.chunks != [] && b2.chunks != []
    requires Encode(b1) + r1 == Encode(b2) + r2
    ensures b1.chunks[0] == b2.chunks[0]
    ensures Encode(Rest(b1)) + r1 == Encode(Rest(b2)) + r2
  {
    hide Encode, EncodeChunks, HexPrefix;
    FirstLine(b1, r1, announced);
    FirstLine(b2, r2, announced);
    var c1, c2 := b1.chunks[0], b2.chunks[0];
    LinesAgree(c1.sizeLine, AfterFirstLine(b1, r1), c2.sizeLine, AfterFirstLine(b2, r2));
    CutFront(c1.data + c1.end, Encode(Rest(b1)) + r1, c2.data + c2.end, Encode(Rest(b2)) + r2);
    CutFront(c1.data, c1.end, c2.data, c2.end);
  }

  lemma SameParts(b1: Body, b2: Body)
    requires b1.chunks != [] && b2.chunks != [] && b1.chunks[0] == b2.chunks[0] && Rest(b1) == Rest(b2)
    ensures b1 == b2
  {
    assert b1.chunks == [b1.chunks[0]] + Rest(b1).chunks && b2.chunks == [b2.chunks[0]] + Rest(b2).chunks;
  }

  /** The encoding is unambiguous: a stream begins with at most one body, so "exactly one body"
      has one meaning. */
  lemma {:induction false} BodyUnique(b1: Body, r1: string, b2: Body, r2: string, announced: bool)
    requires IsBody(b1, announced) && IsBody(b2, announced)
    requires Encode(b1) + r1 == Encode(b2) + r2
    ensures b1 == b2 && r1 == r2
    decreases |b1.chunks|
  {
    if b1.chunks == [] && b2.chunks == [] {
      LastUnique(b1, r1, b2, r2, announced);
    } else if b1.chunks == [] {
      LastIsNoChunk(b1, r1, b2, r2, announced);
    } else if b2.chunks == [] {
      LastIsNoChunk(b2, r2, b1, r1, announced);
    } else {
      FirstChunkUnique(b1, r1, b2, r2, announced);
      BodyUnique(Rest(b1), r1, Rest(b2), r2, announced);
      SameParts(b1, b2);
    }
  }

  lemma CutFront(a: string, x: string, b: string, y: string)
    requires |a| == |b| && a + x == b + y
    ensures a == b && x == y
  {
    var s := a + x;
    assert a == s[..|a|] && b == s[..|b|] && x == s[|a|..] && y == s[|b|..];
  }

  // ---------------------------------------------------------------- forward_chunked

  /** The C string at the beginning of a buffer. */
  function CString(buf: string): string {
    if buf == "" || buf[0] == '\0' then "" else [buf[0]] + CString(buf[1..])
  }

  /** strcmp against a line without NUL sees what rio_readlineb has put in front of its NUL. */
  lemma {:induction false} CStringIs(buf: string, line: string, word: string)
    requires |line| < |buf| && buf[..|line|] == line && buf[|line|] == '\0'
    requires '\0' !in word && (forall i :: 0 <= i < |line| - 1 ==> line[i] != '\n')
    requires EndsLine(word) && EndsLine(line)
    ensures CString(buf) == word <==> line == word
  {
    if line[0] == '\0' {
      assert word[0] != '\0';
    } else if |line| == 1 {
      assert buf[1..][0] == '\0';
      assert line == "\n" && CString(buf) == [buf[0]] + CString(buf[1..]) && CString(buf[1..]) == "";
      assert CString(buf) == "\n";
    } else if |word| == 1 {
      assert word == "\n" && line[0] != '\n' && buf[0] == line[0];
      assert CString(buf)[0] == buf[0];
    } else {
      assert buf[0] == line[0];
      assert buf[1..][..|line[1..]|] == line[1..];
      if line[0] == word[0] {
        CStringIs(buf[1..], line[1..], word[1..]);
        assert line == [line[0]] + line[1..] && word == [word[0]] + word[1..];
        assert CString(buf)[1..] == CString(buf[1..]);
      } else {
        assert CString(buf)[0] == line[0];
      }
    }
  }

  lemma {:induction false} HexPrefixOfLine(buf: string, line: string)
    requires |line| < |buf| && buf[..|line|] == line && buf[|line|] == '\0'
    ensures HexPrefix(buf) == HexPrefix(line)
  {
    assert line + buf[|line|..] == buf;
    var rest := line[|HexPrefix(line)|..] + buf[|line|..];
    assert HexPrefix(line) + rest == buf;
    assert rest[0] == if |HexPrefix(line)| < |line| then line[|HexPrefix(line)|] else '\0';
    HexPrefixOf(HexPrefix(line), rest);
  }

  /** The parts of a stream that begins with a body. */
  lemma FirstParts(b: Body, announced: bool, rest: seq<Item>)
    requires IsBody(b, announced) && b.chunks != []
    ensures IsChunk(b.chunks[0]) && IsBody(Rest(b), announced)
    ensures var c := b.chunks[0];
      Bytes(Encode(b)) + rest == Bytes(c.sizeLine) + (Bytes(c.data + c.end) + (Bytes(Encode(Rest(b))) + rest))
  {
    var c := b.chunks[0];
    FirstLine(b, "", announced);
    assert Encode(b) + "" == Encode(b) && Encode(Rest(b)) + "" == Encode(Rest(b));
    BytesConcat(c.sizeLine, (c.data + c.end) + Encode(Rest(b)), rest);
    BytesConcat(c.data + c.end, Encode(Rest(b)), rest);
  }

  lemma LastParts(b: Body, announced: bool, rest: seq<Item>)
    requires IsBody(b, announced) && b.chunks == []
    ensures Bytes(Encode(b)) + rest == Bytes(LAST) + (Bytes(b.trailer + CRLF) + rest)
  {
    assert Encode(b) == LAST + (b.trailer + CRLF);
    BytesConcat(LAST, b.trailer + CRLF, rest);
  }

  // ---------------------------------------------------------------- forward_chunked on any stream

  /** How a function can end: it returns; it runs into undefined behaviour; it never leaves its loop;
      or an assertion fails. */
  datatype Ending = Finished | Undefined | Stuck | Aborted

  /** What a part of forward_chunked comes to: the portions it passes to rio_writen, the sum of the
      chunk sizes, the buffer, and the stream left. */
  datatype Pass = Pass(ending: Ending, out: seq<string>, sum: nat, buf: string, rest: seq<Item>)

  /** The buffer after rio_readlineb. */
  function AfterLine(buf: string, t: Taken): (r: string)
    requires |t.bytes| < |buf|
    ensures |r| == |buf|
  {
    if t.status == Failed then Overwrite(buf, t.bytes)
    else if t.status == Ended && t.bytes == "" then buf
    else Overwrite(buf, t.bytes + "\0")
  }

  lemma TakeLineShrinks(items: seq<Item>)
    ensures var t := TakeLine(items, MAXLINE - 1);
      |t.bytes| < MAXLINE && |t.rest| <= |items| && (items != [] ==> |t.rest| < |items|)
  {
    TakeLineConserves(items, MAXLINE - 1);
    TakeLineShape(items, MAXLINE - 1);
  }

  lemma TakeNShrinks(items: seq<Item>, n: nat)
    ensures |TakeN(items, n).rest| <= |items| && |TakeN(items, n).bytes| <= n
  {
    TakeNConserves(items, n);
    TakeNLength(items, n);
  }

  /** What the loop does in one turn: it goes on, or it ends. */
  datatype Turn =
    | Go(size: nat, out: seq<string>)
    | Stop(ending: Ending, out: seq<string>)

  /** And what it leaves. */
  datatype After = After(turn: Turn, buf: string, rest: seq<Item>)

  /** Lines 808-816, with the line in the buffer. An int overflows if the size, the sum or size + 2
      does; bytes beyond the buffer are written if that many come; and after a failed read -1 is passed
      on as a length. */
  function DataTurn(line: string, sum: nat, items: seq<Item>): (a: After)
    requires |line| == MAXLINE
    ensures |a.buf| == MAXLINE && |a.rest| <= |items|
    ensures a.turn.Go? ==> sum + a.turn.size <= INT_MAX && (items == [] ==> a.turn.out == [""])
  {
    var size := HexValue(HexPrefix(line));
    if sum + size > INT_MAX || size + 2 > INT_MAX then After(Stop(Undefined, []), line, items)
    else SizedTurn(line, size, items)
  }

  function SizedTurn(line: string, size: nat, items: seq<Item>): (a: After)
    requires |line| == MAXLINE
    ensures |a.buf| == MAXLINE && |a.rest| <= |items|
    ensures a.turn.Go? ==> a.turn.size == size && (items == [] ==> a.turn.out == [""])
  {
    TakeNShrinks(items, size + 2);
    var u := TakeN(items, size + 2);
    if u.status == Failed || |u.bytes| > MAXLINE then After(Stop(Undefined, []), line, u.rest)
    else After(Go(size, [u.bytes]), Overwrite(line, u.bytes), u.rest)
  }

  /** Lines 801-816. At the end of the stream rio_readlineb leaves the buffer as it is, and its old
      contents are taken for a line. */
  function PlainTurn(buf: string, sum: nat, items: seq<Item>): (a: After)
    requires |buf| == MAXLINE
    ensures |a.buf| == MAXLINE && |a.rest| <= |items|
    ensures a.turn.Go? ==> sum + a.turn.size <= INT_MAX && (|a.rest| < |items| || items == a.rest == [])
  {
    TakeLineShrinks(items);
    var t := TakeLine(items, MAXLINE - 1);
    var line := AfterLine(buf, t);
    if CString(line) != LAST then DataTurn(line, sum, t.rest)
    else if t.status == Failed then After(Stop(Undefined, []), line, t.rest)
    else After(Stop(Finished, [t.bytes]), line, t.rest)
  }

  /** The same turn again and again, which changes neither the sum nor the stream, goes on for ever. */
  function TurnOf(buf: string, sum: nat, items: seq<Item>): (a: After)
    requires |buf| == MAXLINE
    ensures |a.buf| == MAXLINE
    ensures a.turn.Go? ==> sum + a.turn.size <= INT_MAX
    ensures a.turn.Go? ==> |a.rest| < |items| || (a.rest == items && 0 < a.turn.size)
  {
    var a := PlainTurn(buf, sum, items);
    if a.turn.Go? && a.turn.size == 0 && a.rest == items then After(Stop(Stuck, []), a.buf, a.rest) else a
  }

  /** Such a turn leaves the buffer as well, so that the next one is the same. */
  lemma StuckIsStuck(buf: string, sum: nat, items: seq<Item>)
    requires |buf| == MAXLINE && TurnOf(buf, sum, items).turn == Stop(Stuck, [])
    ensures items == []
    ensures PlainTurn(buf, sum, items) == After(Go(0, [""]), buf, items)
  {
    OverwriteNothing(buf);
  }

  /** Lines 800-817. */
  function PassChunks(buf: string, sum: nat, items: seq<Item>): (p: Pass)
    requires |buf| == MAXLINE && sum <= INT_MAX
    ensures |p.buf| == MAXLINE
    decreases |items|, INT_MAX - sum
  {
    var a := TurnOf(buf, sum, items);
    if a.turn.Go? then
      var p := PassChunks(a.buf, sum + a.turn.size, a.rest);
      p.(out := a.turn.out + p.out)
    else Pass(a.turn.ending, a.turn.out, sum, a.buf, a.rest)
  }

  /** Lines 819-821: a line is passed on, whatever it is. */
  function PassLine(buf: string, items: seq<Item>): (p: Pass)
    requires |buf| == MAXLINE
    ensures |p.buf| == MAXLINE
  {
    TakeLineShrinks(items);
    var t := TakeLine(items, MAXLINE - 1);
    if t.status == Failed then Pass(Undefined, [], 0, AfterLine(buf, t), t.rest)
    else Pass(Finished, [t.bytes], 0, AfterLine(buf, t), t.rest)
  }

  /** Lines 823-826: the buffer is asserted to hold an empty line. */
  function PassEmptyLine(buf: string, items: seq<Item>): (p: Pass)
    requires |buf| == MAXLINE
    ensures |p.buf| == MAXLINE
  {
    var p := PassLine(buf, items);
    if CString(p.buf) == CRLF then p else p.(ending := Aborted, out := [])
  }

  /** One part after another, if the first one returns. */
  function Then(p: Pass, q: Pass): Pass {
    q.(out := p.out + q.out, sum := p.sum)
  }

  function PassEnd(announced: bool, buf: string, items: seq<Item>): (p: Pass)
    requires |buf| == MAXLINE
    ensures |p.buf| == MAXLINE
  {
    if !announced then PassEmptyLine(buf, items)
    else
      var p := PassLine(buf, items);
      if p.ending == Finished then Then(p, PassEmptyLine(p.buf, p.rest)) else p
  }

  /** The whole of forward_chunked; buf is what its buffer holds at first. */
  function PassBody(announced: bool, buf: string, items: seq<Item>): (p: Pass)
    requires |buf| == MAXLINE
    ensures |p.buf| == MAXLINE
  {
    var p := PassChunks(buf, 0, items);
    if p.ending == Finished then Then(p, PassEnd(announced, p.buf, p.rest)) else p
  }

  // ---------------------------------------------------------------- the method

  /** Line 802, and the buffer as strcmp sees it. */
  method ReadBufferLine(reader: Reader, buf: array<char>) returns (r: int, line: string)
    requires reader.Valid() && buf != reader.buf && buf.Length == MAXLINE
    modifies reader, reader.source, reader.buf, buf
    ensures reader.Valid()
    ensures var t := TakeLine(old(reader.Unread()), MAXLINE - 1);
      && |t.bytes| < MAXLINE && reader.Unread() == t.rest
      && r == (if t.status == Failed then -1 else |t.bytes|)
      && buf[..] == AfterLine(old(buf[..]), t) && line == CString(buf[..])
      && (r >= 0 ==> buf[..r] == t.bytes)
  {
    ghost var t := TakeLine(reader.Unread(), MAXLINE - 1);
    TakeLineShrinks(reader.Unread());
    r := reader.ReadLineB(buf, MAXLINE);
    line := CString(buf[..]);
    assert r > 0 ==> buf[..][..|t.bytes + "\0"|] == t.bytes + "\0";
  }

  /** rio_readnb into the buffer. The bytes that would land behind it are told, but kept apart. */
  method ReadChunk(reader: Reader, buf: array<char>, n: nat) returns (r: int, beyond: bool)
    requires reader.Valid() && buf != reader.buf && buf.Length == MAXLINE
    modifies reader, reader.source, reader.buf, buf
    ensures reader.Valid()
    ensures var u := TakeN(old(reader.Unread()), n);
      && reader.Unread() == u.rest
      && (beyond || r < 0 <==> u.status == Failed || |u.bytes| > MAXLINE)
      && (!beyond && r >= 0 ==> r == |u.bytes| && |u.bytes| <= MAXLINE && buf[..] == Overwrite(old(buf[..]), u.bytes))
  {
    TakeNShrinks(reader.Unread(), n);
    beyond := false;
    if n <= MAXLINE {
      r := reader.ReadNb(buf, n);
    } else {
      r := ReadWide(reader, buf, n);
      beyond := r > MAXLINE;
    }
  }

  /** A read of more bytes than the buffer has. */
  method ReadWide(reader: Reader, buf: array<char>, n: nat) returns (r: int)
    requires reader.Valid() && buf != reader.buf && buf.Length == MAXLINE < n
    modifies reader, reader.source, reader.buf, buf
    ensures reader.Valid()
    ensures var u := TakeN(old(reader.Unread()), n);
      && reader.Unread() == u.rest && r == (if u.status == Failed then -1 else |u.bytes|)
      && (0 <= r <= MAXLINE ==> buf[..] == Overwrite(old(buf[..]), u.bytes))
  {
    hide TakeN, Overwrite;
    ghost var u := TakeN(reader.Unread(), n);
    ghost var before := buf[..];
    var wide := new char[n];
    r := reader.ReadNb(wide, n);
    if 0 <= r <= MAXLINE {
      CopyFront(buf, wide, r, u.bytes, before);
    }
  }

  method CopyFront(buf: array<char>, wide: array<char>, r: nat, ghost bytes: string, ghost before: string)
    requires r == |bytes| <= wide.Length && r <= buf.Length && wide[..][..r] == bytes && before == buf[..]
    requires buf != wide
    modifies buf
    ensures buf[..] == Overwrite(before, bytes)
  {
    assert wide[..r] == bytes;
    Copy(buf, 0, wide[..r]);
  }

  /** A turn that leaves this buffer and this stream is the turn a; of undefined behaviour nothing is said
      but that the stream is read. */
  predicate Leaves(turn: Turn, buf: string, rest: seq<Item>, a: After) {
    turn == a.turn && rest == a.rest && (turn != Stop(Undefined, []) ==> buf == a.buf)
  }

  /** Lines 808-816. */
  method PassData(sink: Sink, reader: Reader, buf: array<char>, sum: nat) returns (turn: Turn)
    requires reader.Valid() && ValidWrites(sink.script) && buf != reader.buf && buf.Length == MAXLINE && sum <= INT_MAX
    modifies reader, reader.source, reader.buf, sink, buf
    ensures reader.Valid() && ValidWrites(sink.script)
    ensures sink.State() == Send(old(sink.State()), turn.out)
    ensures Leaves(turn, buf[..], reader.Unread(), DataTurn(old(buf[..]), sum, old(reader.Unread())))
  {
    hide SizedTurn;
    turn := Stop(Undefined, []);
    if HexValue(HexPrefix(buf[..])) > INT_MAX {
      return;
    }
    var chunksize := GetChunkSize(buf);
    if sum + chunksize > INT_MAX || chunksize + 2 > INT_MAX {
      return;
    }
    turn := PassSized(sink, reader, buf, chunksize);
  }

  /** Lines 815-816. */
  method PassSized(sink: Sink, reader: Reader, buf: array<char>, chunksize: nat) returns (turn: Turn)
    requires reader.Valid() && ValidWrites(sink.script) && buf != reader.buf && buf.Length == MAXLINE
    modifies reader, reader.source, reader.buf, sink, buf
    ensures reader.Valid() && ValidWrites(sink.script)
    ensures sink.State() == Send(old(sink.State()), turn.out)
    ensures Leaves(turn, buf[..], reader.Unread(), SizedTurn(old(buf[..]), chunksize, old(reader.Unread())))
  {
    ghost var u := TakeN(reader.Unread(), chunksize + 2);
    var readBytes, beyond := ReadChunk(reader, buf, chunksize + 2);
    if beyond || readBytes < 0 {
      return Stop(Undefined, []);
    }
    assert buf[..][..readBytes] == u.bytes;
    sink.Put(buf[..readBytes]);
    return Go(chunksize, [buf[..readBytes]]);
  }

  /** Lines 801-816. */
  method PassOne(sink: Sink, reader: Reader, buf: array<char>, sum: nat) returns (turn: Turn)
    requires reader.Valid() && ValidWrites(sink.script)
    requires buf != reader.buf && buf.Length == MAXLINE && sum <= INT_MAX
    modifies reader, reader.source, reader.buf, sink, buf
    ensures reader.Valid() && ValidWrites(sink.script)
    ensures sink.State() == Send(old(sink.State()), turn.out)
    ensures Leaves(turn, buf[..], reader.Unread(), TurnOf(old(buf[..]), sum, old(reader.Unread())))
  {
    hide PlainTurn;
    var atEnd;
    SendNothing(sink.State());
    turn, atEnd := PassPlain(sink, reader, buf, sum);
    if atEnd && turn == Go(0, [""]) {
      turn := Stop(Stuck, []);
    }
  }

  lemma SendNothing(o: Output)
    ensures Send(o, [""]) == o && Send(o, []) == o
  {
    SendSingle(o, "");
    assert o.written + "" == o.written;
  }

  method PassPlain(sink: Sink, reader: Reader, buf: array<char>, sum: nat) returns (turn: Turn, atEnd: bool)
    requires reader.Valid() && ValidWrites(sink.script)
    requires buf != reader.buf && buf.Length == MAXLINE && sum <= INT_MAX
    modifies reader, reader.source, reader.buf, sink, buf
    ensures reader.Valid() && ValidWrites(sink.script)
    ensures sink.State() == Send(old(sink.State()), turn.out)
    ensures Leaves(turn, buf[..], reader.Unread(), PlainTurn(old(buf[..]), sum, old(reader.Unread())))
    ensures atEnd <==> old(reader.Unread()) == []
    ensures atEnd && turn.Go? ==> turn.out == [""]
  {
    hide DataTurn;
    TakeLineShrinks(reader.Unread());
    var readBytes, line := ReadBufferLine(reader, buf);
    atEnd := readBytes == 0;
    if line != LAST {
      turn := PassData(sink, reader, buf, sum);
    } else if readBytes < 0 {
      turn := Stop(Undefined, []);
    } else {
      sink.Put(buf[..readBytes]);
      turn := Stop(Finished, [buf[..readBytes]]);
    }
  }

  /** What the function has done so far, and then does, is what was due. */
  ghost predicate Due(p: Pass, done: seq<string>, turn: Turn, sum: nat, buf: string, items: seq<Item>) {
    match turn
    case Go(_, _) =>
      |buf| == MAXLINE && sum <= INT_MAX && p == Before(done, PassChunks(buf, sum, items))
    case Stop(ending, _) =>
      p.ending == ending && p.out == done && p.sum == sum && p.rest == items && (ending != Undefined ==> p.buf == buf)
  }

  /** The sum of the chunk sizes after a turn. */
  function SumAfter(sum: nat, turn: Turn): nat {
    if turn.Go? then sum + turn.size else sum
  }

  function Before(done: seq<string>, p: Pass): Pass {
    p.(out := done + p.out)
  }

  const START := Go(0, [])

  lemma DueStart(buf: string, items: seq<Item>)
    requires |buf| == MAXLINE
    ensures Due(PassChunks(buf, 0, items), [], START, 0, buf, items)
  {
    hide PassChunks;
    var p := PassChunks(buf, 0, items);
    assert [] + p.out == p.out;
  }

  lemma PassStep(buf: string, sum: nat, items: seq<Item>)
    requires |buf| == MAXLINE && sum <= INT_MAX
    ensures var a := TurnOf(buf, sum, items);
      PassChunks(buf, sum, items) ==
        if a.turn.Go? then Before(a.turn.out, PassChunks(a.buf, sum + a.turn.size, a.rest))
        else Pass(a.turn.ending, a.turn.out, sum, a.buf, a.rest)
  {
  }

  lemma BeforeTwice(done: seq<string>, more: seq<string>, q: Pass)
    ensures Before(done, Before(more, q)) == Before(done + more, q)
  {
    assert done + (more + q.out) == (done + more) + q.out;
  }

  lemma DueStep(p: Pass, done: seq<string>, before: Turn, sum: nat, buf: string, items: seq<Item>)
    requires before.Go? && Due(p, done, before, sum, buf, items)
    ensures |buf| == MAXLINE && sum <= INT_MAX
    ensures var a := TurnOf(buf, sum, items);
      Due(p, done + a.turn.out, a.turn, SumAfter(sum, a.turn), a.buf, a.rest)
  {
    hide TurnOf, PassChunks;
    var a := TurnOf(buf, sum, items);
    PassStep(buf, sum, items);
    if a.turn.Go? {
      BeforeTwice(done, a.turn.out, PassChunks(a.buf, sum + a.turn.size, a.rest));
    }
  }

  lemma DueNext(p: Pass, done: seq<string>, before: Turn, sum: nat, buf: string, items: seq<Item>,
      turn: Turn, now: string, rest: seq<Item>)
    requires before.Go? && Due(p, done, before, sum, buf, items) && |buf| == MAXLINE
    requires Leaves(turn, now, rest, TurnOf(buf, sum, items))
    ensures Due(p, done + turn.out, turn, SumAfter(sum, turn), now, rest)
    ensures turn.Go? ==> sum + turn.size <= INT_MAX
    ensures turn.Go? ==> |rest| < |items| || (rest == items && 0 < turn.size)
  {
    hide TurnOf, PassChunks;
    DueStep(p, done, before, sum, buf, items);
  }

  lemma DueDone(p: Pass, done: seq<string>, turn: Turn, sum: nat, buf: string, items: seq<Item>)
    requires Due(p, done, turn, sum, buf, items) && turn.Stop?
    ensures p.ending == turn.ending && p.out == done && p.sum == sum && p.rest == items
    ensures p.ending != Undefined ==> p.buf == buf
  {
  }

  /** Lines 800-817. */
  method PassAll(sink: Sink, reader: Reader, buf: array<char>)
    returns (ending: Ending, sum: nat, ghost out: seq<string>)
    requires reader.Valid() && ValidWrites(sink.script) && buf != reader.buf && buf.Length == MAXLINE
    modifies reader, reader.source, reader.buf, sink, buf
    ensures reader.Valid() && ValidWrites(sink.script)
    ensures sink.State() == Send(old(sink.State()), out)
    ensures var p := PassChunks(old(buf[..]), 0, old(reader.Unread()));
      && ending == p.ending && sum == p.sum && out == p.out && reader.Unread() == p.rest
      && (ending != Undefined ==> buf[..] == p.buf)
  {
    DueStart(buf[..], reader.Unread());
    ending, sum, out := PassDue(sink, reader, buf, PassChunks(buf[..], 0, reader.Unread()));
  }

  method PassDue(sink: Sink, reader: Reader, buf: array<char>, ghost p: Pass)
    returns (ending: Ending, sum: nat, ghost out: seq<string>)
    requires reader.Valid() && ValidWrites(sink.script) && buf != reader.buf && buf.Length == MAXLINE
    requires Due(p, [], START, 0, buf[..], reader.Unread())
    modifies reader, reader.source, reader.buf, sink, buf
    ensures reader.Valid() && ValidWrites(sink.script)
    ensures sink.State() == Send(old(sink.State()), out)
    ensures ending == p.ending && sum == p.sum && out == p.out && reader.Unread() == p.rest
    ensures ending != Undefined ==> buf[..] == p.buf
  {
    ghost var before := sink.State();
    var turn := START;
    sum, out := 0, [];
    while turn.Go?
      invariant reader.Valid() && ValidWrites(sink.script) && sum <= INT_MAX
      invariant sink.State() == Send(before, out)
      invariant Due(p, out, turn, sum, buf[..], reader.Unread())
      decreases turn.Go?, |reader.Unread()|, INT_MAX - sum
    {
      turn, sum, out := TakeTurn(sink, reader, buf, turn, sum, p, out, before);
    }
    DueDone(p, out, turn, sum, buf[..], reader.Unread());
    ending := turn.ending;
  }

  method TakeTurn(sink: Sink, reader: Reader, buf: array<char>, before: Turn, sum: nat,
      ghost p: Pass, ghost done: seq<string>, ghost start: Output)
    returns (turn: Turn, total: nat, ghost out: seq<string>)
    requires reader.Valid() && ValidWrites(sink.script)
    requires buf != reader.buf && buf.Length == MAXLINE && sum <= INT_MAX
    requires before.Go? && Due(p, done, before, sum, buf[..], reader.Unread()) && sink.State() == Send(start, done)
    modifies reader, reader.source, reader.buf, sink, buf
    ensures reader.Valid() && ValidWrites(sink.script) && sink.State() == Send(start, out) && total <= INT_MAX
    ensures turn.Go? ==>
      || |reader.Unread()| < |old(reader.Unread())|
      || (|reader.Unread()| == |old(reader.Unread())| && sum < total)
    ensures Due(p, out, turn, total, buf[..], reader.Unread())
  {
    hide TurnOf, PassChunks;
    ghost var was, items := buf[..], reader.Unread();
    turn := PassOne(sink, reader, buf, sum);
    DueNext(p, done, before, sum, was, items, turn, buf[..], reader.Unread());
    SendJoin(start, done, turn.out);
    out := done + turn.out;
    total := if turn.Go? then sum + turn.size else sum;
  }

  /** Lines 819-821. */
  method ForwardLine(sink: Sink, reader: Reader, buf: array<char>) returns (ending: Ending, ghost out: seq<string>)
    requires reader.Valid() && ValidWrites(sink.script) && buf != reader.buf && buf.Length == MAXLINE
    modifies reader, reader.source, reader.buf, sink, buf
    ensures reader.Valid() && ValidWrites(sink.script) && sink.State() == Send(old(sink.State()), out)
    ensures PassLine(old(buf[..]), old(reader.Unread())) == Pass(ending, out, 0, buf[..], reader.Unread())
  {
    var readBytes, _ := ReadBufferLine(reader, buf);
    if readBytes < 0 {
      return Undefined, [];
    }
    sink.Put(buf[..readBytes]);
    return Finished, [buf[..readBytes]];
  }

  /** Lines 823-826. */
  method ForwardEmptyLine(sink: Sink, reader: Reader, buf: array<char>) returns (ending: Ending, ghost out: seq<string>)
    requires reader.Valid() && ValidWrites(sink.script) && buf != reader.buf && buf.Length == MAXLINE
    modifies reader, reader.source, reader.buf, sink, buf
    ensures reader.Valid() && ValidWrites(sink.script) && sink.State() == Send(old(sink.State()), out)
    ensures PassEmptyLine(old(buf[..]), old(reader.Unread())) == Pass(ending, out, 0, buf[..], reader.Unread())
  {
    var readBytes, line := ReadBufferLine(reader, buf);
    if line != CRLF {
      return Aborted, [];
    }
    if readBytes < 0 {
      return Undefined, [];
    }
    sink.Put(buf[..readBytes]);
    return Finished, [buf[..readBytes]];
  }

  /** Lines 818-826. */
  method ForwardEnd(sink: Sink, reader: Reader, buf: array<char>, announced: bool)
    returns (ending: Ending, ghost out: seq<string>)
    requires reader.Valid() && ValidWrites(sink.script) && buf != reader.buf && buf.Length == MAXLINE
    modifies reader, reader.source, reader.buf, sink, buf
    ensures reader.Valid() && ValidWrites(sink.script) && sink.State() == Send(old(sink.State()), out)
    ensures PassEnd(announced, old(buf[..]), old(reader.Unread())) == Pass(ending, out, 0, buf[..], reader.Unread())
  {
    ghost var before, first := sink.State(), [];
    if announced {
      ending, out := ForwardLine(sink, reader, buf);
      if ending != Finished {
        return;
      }
      first := out;
    }
    ghost var last;
    ending, last := ForwardEmptyLine(sink, reader, buf);
    SendJoin(before, first, last);
    assert [] + last == last;
    out := first + last;
  }

  /** forward_chunked, with content_length starting at zero, on any stream; junk is what its buffer
      holds at first. */
  method ForwardChunked(sink: Sink, reader: Reader, trailer: string)
    returns (ending: Ending, contentLength: int, ghost junk: string, ghost out: seq<string>)
    requires reader.Valid() && ValidWrites(sink.script)
    modifies reader, reader.source, reader.buf, sink
    ensures reader.Valid() && ValidWrites(sink.script) && sink.State() == Send(old(sink.State()), out)
    ensures |junk| == MAXLINE
    ensures var p := PassBody(trailer != "", junk, old(reader.Unread()));
      ending == p.ending && contentLength == p.sum && out == p.out && reader.Unread() == p.rest
  {
    var buf := new char[MAXLINE];
    junk := buf[..];
    ghost var before := sink.State();
    ending, contentLength, out := PassAll(sink, reader, buf);
    if ending == Finished {
      ghost var first, last := out, [];
      ending, last := ForwardEnd(sink, reader, buf, |trailer| != 0);
      SendJoin(before, first, last);
      out := first + last;
    }
  }

  // ---------------------------------------------------------------- well-formed bodies

  /** The portions in which a body is passed on. */
  function Portions(b: Body, announced: bool): seq<string> {
    ChunkPortions(b.chunks) + [LAST] + (if announced then [b.trailer] else []) + [CRLF]
  }

  function ChunkPortions(chunks: seq<Chunk>): seq<string> {
    if chunks == [] then [] else [chunks[0].data + chunks[0].end] + ChunkPortions(chunks[1..])
  }

  lemma {:induction false} ChunkPortionsAre(chunks: seq<Chunk>)
    ensures Concat(ChunkPortions(chunks)) == Payloads(chunks)
  {
    if chunks != [] {
      ChunkPortionsAre(chunks[1..]);
      ConcatJoin([chunks[0].data + chunks[0].end], ChunkPortions(chunks[1..]));
      ConcatOne([], chunks[0].data + chunks[0].end);
      assert [] + [chunks[0].data + chunks[0].end] == [chunks[0].data + chunks[0].end];
    }
  }

  lemma PortionsAre(b: Body, announced: bool)
    requires IsBody(b, announced)
    ensures Concat(Portions(b, announced)) == Forwarded(b)
  {
    ChunkPortionsAre(b.chunks);
    var p := ChunkPortions(b.chunks) + [LAST];
    ConcatOne(ChunkPortions(b.chunks), LAST);
    if announced {
      ConcatOne(p, b.trailer);
      ConcatOne(p + [b.trailer], CRLF);
    } else {
      assert p + [] == p && Concat(p) + "" == Concat(p);
      ConcatOne(p, CRLF);
    }
  }

  /** A complete line in the stream is what the buffer holds in front of its NUL. */
  lemma LineInBuffer(buf: string, line: string, rest: seq<Item>)
    requires |buf| == MAXLINE && FitsLine(line)
    ensures TakeLine(Bytes(line) + rest, MAXLINE - 1) == Taken(line, Filled, rest)
    ensures var now := AfterLine(buf, Taken(line, Filled, rest));
      && (CString(now) == LAST <==> line == LAST) && (CString(now) == CRLF <==> line == CRLF)
      && HexPrefix(now) == HexPrefix(line)
  {
    TakeLineOfLine(line, rest, MAXLINE - 1);
    var now := AfterLine(buf, Taken(line, Filled, rest));
    assert now[..|line + "\0"|] == line + "\0";
    assert now[..|line|] == line && now[|line|] == '\0';
    CStringIs(now, line, LAST);
    CStringIs(now, line, CRLF);
    HexPrefixOfLine(now, line);
  }

  /** The stream starts with the chunk. */
  predicate StartsWith(items: seq<Item>, c: Chunk, rest: seq<Item>) {
    IsChunk(c) && items == Bytes(c.sizeLine) + (Bytes(c.data + c.end) + rest)
  }

  /** The loop takes one chunk if the sum does not overflow. */
  lemma ChunkTurn(buf: string, sum: nat, c: Chunk, items: seq<Item>, rest: seq<Item>) returns (a: After)
    requires |buf| == MAXLINE && StartsWith(items, c, rest)
    ensures IsTurn(a, buf, sum, items) && |a.buf| == MAXLINE
    ensures if sum + |c.data| > INT_MAX then a.turn == Stop(Undefined, [])
            else a.turn == Go(|c.data|, [c.data + c.end]) && a.rest == rest && c.data + c.end <= a.buf
  {
    LineInBuffer(buf, c.sizeLine, Bytes(c.data + c.end) + rest);
    assert c.sizeLine != "";
    ChunkDataTurn(AfterLine(buf, Taken(c.sizeLine, Filled, Bytes(c.data + c.end) + rest)), sum, c, rest);
    a := TurnOf(buf, sum, items);
  }

  lemma ChunkDataTurn(line: string, sum: nat, c: Chunk, rest: seq<Item>)
    requires |line| == MAXLINE && IsChunk(c) && HexPrefix(line) == HexPrefix(c.sizeLine)
    ensures var a := DataTurn(line, sum, Bytes(c.data + c.end) + rest);
      if sum + |c.data| > INT_MAX then a.turn == Stop(Undefined, [])
      else a == After(Go(|c.data|, [c.data + c.end]), Overwrite(line, c.data + c.end), rest)
  {
    TakeNOfBytes(c.data + c.end, rest);
  }

  lemma LastTurn(buf: string, sum: nat, items: seq<Item>, rest: seq<Item>) returns (a: After)
    requires |buf| == MAXLINE && items == Bytes(LAST) + rest
    ensures IsTurn(a, buf, sum, items)
    ensures a.turn == Stop(Finished, [LAST]) && a.rest == rest
  {
    LastIsTextLine();
    LineInBuffer(buf, LAST, rest);
    a := TurnOf(buf, sum, items);
  }

  /** a is what one turn comes to. */
  predicate IsTurn(a: After, buf: string, sum: nat, items: seq<Item>) {
    |buf| == MAXLINE && a == TurnOf(buf, sum, items)
  }

  lemma DueTurn(p: Pass, done: seq<string>, sum: nat, buf: string, items: seq<Item>, a: After)
    requires |buf| == MAXLINE && IsTurn(a, buf, sum, items) && Due(p, done, START, sum, buf, items)
    ensures Due(p, done + a.turn.out, a.turn, SumAfter(sum, a.turn), a.buf, a.rest)
  {
    hide TurnOf, PassChunks;
    DueStep(p, done, START, sum, buf, items);
  }

  /** What the loop makes of the chunks of a body after the portions done: it ends behind the line of the
      last chunk, unless the sum of the sizes overflows. */
  ghost predicate ChunksDone(p: Pass, done: seq<string>, sum: nat, b: Body, rest: seq<Item>) {
    match p.ending
    case Finished =>
      && (sum + TotalSize(b.chunks) <= INT_MAX || b.chunks == [])
      && p.out == done + (ChunkPortions(b.chunks) + [LAST])
      && p.sum == sum + TotalSize(b.chunks) && p.rest == Bytes(b.trailer + CRLF) + rest
    case Undefined => sum + TotalSize(b.chunks) > INT_MAX && b.chunks != []
    case _ => false
  }

  lemma ChunksDoneNext(p: Pass, done: seq<string>, sum: nat, b: Body, more: seq<string>, total: nat, rest: seq<Item>)
    requires b.chunks != [] && more == done + [b.chunks[0].data + b.chunks[0].end]
    requires total == sum + |b.chunks[0].data| <= INT_MAX
    requires ChunksDone(p, more, total, Rest(b), rest)
    ensures ChunksDone(p, done, sum, b, rest)
  {
    Regrouped(done, b.chunks[0].data + b.chunks[0].end, ChunkPortions(b.chunks[1..]));
  }

  lemma ChunksDoneLast(p: Pass, done: seq<string>, sum: nat, b: Body, rest: seq<Item>)
    requires b.chunks == [] && p.ending == Finished && p.out == done + [LAST] && p.sum == sum
    requires p.rest == Bytes(b.trailer + CRLF) + rest
    ensures ChunksDone(p, done, sum, b, rest)
  {
    assert [] + [LAST] == [LAST];
  }

  /** The stream is the body and then the rest. */
  predicate Streams(items: seq<Item>, b: Body, announced: bool, rest: seq<Item>) {
    IsBody(b, announced) && items == Bytes(Encode(b)) + rest
  }

  lemma {:induction false} ChunksPass(p: Pass, done: seq<string>, sum: nat, buf: string, b: Body, announced: bool,
      items: seq<Item>, rest: seq<Item>)
    requires |buf| == MAXLINE && Streams(items, b, announced, rest)
    requires Due(p, done, START, sum, buf, items)
    ensures ChunksDone(p, done, sum, b, rest)
    decreases |b.chunks|
  {
    if b.chunks == [] {
      NoChunksPass(p, done, sum, buf, b, announced, items, rest);
    } else if sum + |b.chunks[0].data| > INT_MAX {
      OverflowPass(p, done, sum, buf, b, announced, items, rest);
    } else {
      var left := FirstOfStream(items, b, announced, rest);
      var now, more, total := ChunkPasses(p, done, sum, buf, b.chunks[0], items, left);
      ChunksPass(p, more, total, now, Rest(b), announced, left, rest);
      ChunksDoneNext(p, done, sum, b, more, total, rest);
    }
  }

  lemma FirstOfStream(items: seq<Item>, b: Body, announced: bool, rest: seq<Item>) returns (left: seq<Item>)
    requires Streams(items, b, announced, rest) && b.chunks != []
    ensures StartsWith(items, b.chunks[0], left) && Streams(left, Rest(b), announced, rest)
  {
    FirstParts(b, announced, rest);
    left := Bytes(Encode(Rest(b))) + rest;
  }

  lemma OverflowPass(p: Pass, done: seq<string>, sum: nat, buf: string, b: Body, announced: bool, items: seq<Item>,
      rest: seq<Item>)
    requires |buf| == MAXLINE && b.chunks != [] && Streams(items, b, announced, rest)
    requires sum + |b.chunks[0].data| > INT_MAX && Due(p, done, START, sum, buf, items)
    ensures ChunksDone(p, done, sum, b, rest)
  {
    var left := FirstOfStream(items, b, announced, rest);
    ChunkOverflows(p, done, sum, buf, b.chunks[0], items, left);
  }

  lemma NoChunksPass(p: Pass, done: seq<string>, sum: nat, buf: string, b: Body, announced: bool, items: seq<Item>,
      rest: seq<Item>)
    requires |buf| == MAXLINE && Streams(items, b, announced, rest) && b.chunks == []
    requires Due(p, done, START, sum, buf, items)
    ensures ChunksDone(p, done, sum, b, rest)
  {
    LastParts(b, announced, rest);
    LastPasses(p, done, sum, buf, items, Bytes(b.trailer + CRLF) + rest);
    ChunksDoneLast(p, done, sum, b, rest);
  }

  lemma LastPasses(p: Pass, done: seq<string>, sum: nat, buf: string, items: seq<Item>, rest: seq<Item>)
    requires |buf| == MAXLINE && items == Bytes(LAST) + rest && Due(p, done, START, sum, buf, items)
    ensures p.ending == Finished && p.out == done + [LAST] && p.sum == sum && p.rest == rest
  {
    hide TurnOf, PassChunks;
    var a := LastTurn(buf, sum, items, rest);
    DueTurn(p, done, sum, buf, items, a);
    DueDone(p, done + [LAST], a.turn, sum, a.buf, rest);
  }

  lemma ChunkPasses(p: Pass, done: seq<string>, sum: nat, buf: string, c: Chunk, items: seq<Item>, rest: seq<Item>)
    returns (now: string, more: seq<string>, total: nat)
    requires |buf| == MAXLINE && StartsWith(items, c, rest)
    requires sum + |c.data| <= INT_MAX && Due(p, done, START, sum, buf, items)
    ensures |now| == MAXLINE && Due(p, more, START, total, now, rest)
    ensures more == done + [c.data + c.end] && total == sum + |c.data|
  {
    hide TurnOf, PassChunks, StartsWith;
    var a := ChunkTurn(buf, sum, c, items, rest);
    DueTurn(p, done, sum, buf, items, a);
    now, more, total := a.buf, done + a.turn.out, sum + a.turn.size;
  }

  lemma ChunkOverflows(p: Pass, done: seq<string>, sum: nat, buf: string, c: Chunk, items: seq<Item>, rest: seq<Item>)
    requires |buf| == MAXLINE && StartsWith(items, c, rest)
    requires sum + |c.data| > INT_MAX && Due(p, done, START, sum, buf, items)
    ensures p.ending == Undefined
  {
    hide TurnOf, PassChunks, StartsWith;
    var a := ChunkTurn(buf, sum, c, items, rest);
    DueTurn(p, done, sum, buf, items, a);
    DueDone(p, done + [], a.turn, sum, a.buf, a.rest);
  }

  lemma Regrouped(done: seq<string>, portion: string, portions: seq<string>)
    ensures (done + [portion]) + (portions + [LAST]) == done + (([portion] + portions) + [LAST])
  {
  }

  /** The lines behind the last chunk. */
  lemma EndPasses(announced: bool, buf: string, trailer: string, rest: seq<Item>)
    requires |buf| == MAXLINE && if announced then FitsLine(trailer) else trailer == ""
    ensures var p := PassEnd(announced, buf, Bytes(trailer + CRLF) + rest);
      p == Pass(Finished, (if announced then [trailer] else []) + [CRLF], 0, p.buf, rest)
  {
    LastIsTextLine();
    BytesConcat(trailer, CRLF, rest);
    if announced {
      LineInBuffer(buf, trailer, Bytes(CRLF) + rest);
      LineInBuffer(PassLine(buf, Bytes(trailer + CRLF) + rest).buf, CRLF, rest);
    } else {
      assert trailer + CRLF == CRLF && [] + [CRLF] == [CRLF];
      LineInBuffer(buf, CRLF, rest);
    }
  }

  /** Of a body forward_chunked consumes exactly the bytes, and it passes on all but the size lines of the
      chunks before the last, returning the sum of the sizes, if and only if that sum is an int. */
  lemma BodyPasses(b: Body, announced: bool, junk: string, rest: seq<Item>)
    requires IsBody(b, announced) && |junk| == MAXLINE
    ensures var p := PassBody(announced, junk, Bytes(Encode(b)) + rest);
      if TotalSize(b.chunks) <= INT_MAX
      then
        && p == Pass(Finished, p.out, TotalSize(b.chunks), p.buf, rest)
        && p.out == Portions(b, announced) && Concat(p.out) == Forwarded(b)
      else p.ending == Undefined
  {
    var items := Bytes(Encode(b)) + rest;
    var p := PassChunks(junk, 0, items);
    DueStart(junk, items);
    ChunksPass(p, [], 0, junk, b, announced, items, rest);
    PortionsAre(b, announced);
    EndPasses(announced, p.buf, b.trailer, rest);
    Unprefixed(b, announced);
  }

  lemma Unprefixed(b: Body, announced: bool)
    ensures Portions(b, announced)
         == [] + (ChunkPortions(b.chunks) + [LAST]) + ((if announced then [b.trailer] else []) + [CRLF])
  {
  }

  // ---------------------------------------------------------------- at the end of the stream

  /** Where the loop stands. */
  datatype Point = Point(sum: nat, buf: string, rest: seq<Item>)

  /** n turns of lines 801-816 lead from a to b. */
  predicate Goes(a: Point, n: nat, b: Point)
    requires |a.buf| == MAXLINE
    decreases n
  {
    if n == 0 then a == b
    else
      var t := PlainTurn(a.buf, a.sum, a.rest);
      t.turn.Go? && Goes(Point(a.sum + t.turn.size, t.buf, t.rest), n - 1, b)
  }

  /** Stuck is what it says: any number of turns leads back to where the loop stands. */
  lemma {:induction false} StuckForEver(buf: string, sum: nat, items: seq<Item>, n: nat)
    requires |buf| == MAXLINE && TurnOf(buf, sum, items).turn == Stop(Stuck, [])
    ensures Goes(Point(sum, buf, items), n, Point(sum, buf, items))
  {
    if n > 0 {
      StuckIsStuck(buf, sum, items);
      StuckForEver(buf, sum, items, n - 1);
    }
  }

  /** At the end of the stream a turn leaves the buffer as it is and adds the same size again. */
  lemma {:induction false} TurnsAtEnd(buf: string, sum: nat, n: nat)
    requires |buf| == MAXLINE && CString(buf) != LAST
    requires var size := HexValue(HexPrefix(buf)); size + 2 <= INT_MAX && sum + n * size <= INT_MAX
    ensures Goes(Point(sum, buf, []), n, Point(sum + n * HexValue(HexPrefix(buf)), buf, []))
    decreases n
  {
    hide PlainTurn, CString, HexPrefix, HexValue;
    if n > 0 {
      var size := HexValue(HexPrefix(buf));
      OneOfTimes(n, size);
      PlainEndTurn(buf, sum);
      TurnsAtEnd(buf, sum + size, n - 1);
    }
  }

  lemma OneOfTimes(n: nat, size: nat)
    requires n > 0
    ensures n * size == size + (n - 1) * size && size <= n * size
  {
  }

  lemma PlainEndTurn(buf: string, sum: nat)
    requires |buf| == MAXLINE
    ensures var size := HexValue(HexPrefix(buf));
      PlainTurn(buf, sum, []) ==
        if CString(buf) == LAST then After(Stop(Finished, [""]), buf, [])
        else if sum + size > INT_MAX || size + 2 > INT_MAX then After(Stop(Undefined, []), buf, [])
        else After(Go(size, [""]), buf, [])
  {
    hide CString, HexPrefix, HexValue, Overwrite;
    OverwriteNothing(buf);
  }

  lemma OverwriteNothing(buf: string)
    ensures Overwrite(buf, "") == buf
  {
  }

  lemma EndTurn(buf: string, sum: nat)
    requires |buf| == MAXLINE
    ensures var size := HexValue(HexPrefix(buf));
      TurnOf(buf, sum, []) ==
        if CString(buf) == LAST then After(Stop(Finished, [""]), buf, [])
        else if sum + size > INT_MAX || size + 2 > INT_MAX then After(Stop(Undefined, []), buf, [])
        else if size == 0 then After(Stop(Stuck, []), buf, [])
        else After(Go(size, [""]), buf, [])
  {
    hide PlainTurn;
    PlainEndTurn(buf, sum);
  }

  /** At the end of the stream, where a size line is due, the loop depends on what the buffer holds: it
      takes that for the line of the last chunk, or turns for ever if it reads a size of zero there, or
      adds the size it reads until the sum is no int. Nothing more is sent. */
  lemma {:induction false} AtEndOfStream(p: Pass, done: seq<string>, sum: nat, buf: string)
    requires |buf| == MAXLINE && Due(p, done, START, sum, buf, [])
    ensures p.ending ==
      if CString(buf) == LAST then Finished else if HexValue(HexPrefix(buf)) == 0 then Stuck else Undefined
    ensures Concat(p.out) == Concat(done)
    decreases INT_MAX - sum
  {
    hide TurnOf, PassChunks, HexPrefix, HexValue, CString;
    var a := TurnOf(buf, sum, []);
    EndTurn(buf, sum);
    DueTurn(p, done, sum, buf, [], a);
    NothingAdded(done);
    if a.turn.Go? {
      AtEndOfStream(p, done + [""], sum + a.turn.size, buf);
    } else {
      DueDone(p, done + a.turn.out, a.turn, sum, a.buf, a.rest);
    }
  }

  lemma NothingAdded(done: seq<string>)
    ensures Concat(done + [""]) == Concat(done) && done + [] == done
  {
    ConcatOne(done, "");
    assert Concat(done) + "" == Concat(done);
  }

  /** A size line and data with which the stream ends: all that was announced or a part of it. */
  predicate IsPart(line: string, part: string) {
    && FitsLine(line) && line != LAST
    && 0 < |part| <= HexValue(HexPrefix(line)) + 2 <= MAXLINE
  }

  lemma TakeNOfAll(s: string, n: nat)
    requires |s| <= n
    ensures TakeN(Bytes(s), n) == Taken(s, if |s| == n then Filled else Ended, [])
  {
    assert Bytes(s) + [] == Bytes(s);
    TakeNOfBytes(s, []);
    TakeNSplits(Bytes(s), |s|, n - |s|);
    assert s + "" == s;
  }

  lemma PartTurn(buf: string, sum: nat, line: string, part: string) returns (a: After)
    requires |buf| == MAXLINE && IsPart(line, part) && sum + HexValue(HexPrefix(line)) <= INT_MAX
    ensures a == TurnOf(buf, sum, Bytes(line) + Bytes(part))
    ensures a.turn == Go(HexValue(HexPrefix(line)), [part]) && a.rest == []
    ensures |a.buf| == MAXLINE && a.buf[0] == part[0]
  {
    hide DataTurn;
    LineInBuffer(buf, line, Bytes(part));
    PartDataTurn(AfterLine(buf, Taken(line, Filled, Bytes(part))), sum, line, part);
    a := TurnOf(buf, sum, Bytes(line) + Bytes(part));
  }

  lemma PartDataTurn(now: string, sum: nat, line: string, part: string)
    requires |now| == MAXLINE && IsPart(line, part) && HexPrefix(now) == HexPrefix(line)
    requires sum + HexValue(HexPrefix(line)) <= INT_MAX
    ensures DataTurn(now, sum, Bytes(part)) == After(Go(HexValue(HexPrefix(line)), [part]), Overwrite(now, part), [])
  {
    hide HexPrefix, HexValue, Overwrite;
    TakeNOfAll(part, HexValue(HexPrefix(line)) + 2);
  }

  /** What the first character of the buffer decides. */
  lemma FirstDecides(buf: string)
    requires |buf| == MAXLINE && buf[0] != '0'
    ensures CString(buf) != LAST
    ensures HexValue(HexPrefix(buf)) == 0 <==> !IsHexDigit(buf[0])
  {
    assert CString(buf) != "" ==> CString(buf)[0] == buf[0];
    var digits := HexPrefix(buf);
    if digits != "" {
      assert digits[0] == buf[0];
      HexStep(digits, 0);
    }
  }

  lemma {:induction false} BrokenOffPass(p: Pass, done: seq<string>, sum: nat, buf: string,
      chunks: seq<Chunk>, line: string, part: string)
    requires |buf| == MAXLINE && IsPart(line, part) && part[0] != '0'
    requires forall i :: 0 <= i < |chunks| ==> IsChunk(chunks[i])
    requires sum + TotalSize(chunks) + HexValue(HexPrefix(line)) <= INT_MAX
    requires Due(p, done, START, sum, buf, Bytes(EncodeChunks(chunks)) + (Bytes(line) + Bytes(part)))
    ensures p.ending == if IsHexDigit(part[0]) then Undefined else Stuck
    ensures Concat(p.out) == Concat(done) + (Payloads(chunks) + part)
    decreases |chunks|
  {
    if chunks == [] {
      PartPasses(p, done, sum, buf, line, part);
    } else {
      var now, more, total := FirstPasses(p, done, sum, buf, chunks, Bytes(line) + Bytes(part));
      BrokenOffPass(p, more, total, now, chunks[1..], line, part);
      ConcatOne(done, chunks[0].data + chunks[0].end);
      Regroup4(Concat(done), chunks[0].data + chunks[0].end, Payloads(chunks[1..]), part);
    }
  }

  lemma Regroup4(a: string, b: string, c: string, d: string)
    ensures (a + b) + (c + d) == a + ((b + c) + d)
  {
  }

  lemma FirstPasses(p: Pass, done: seq<string>, sum: nat, buf: string, chunks: seq<Chunk>, rest: seq<Item>)
    returns (now: string, more: seq<string>, total: nat)
    requires |buf| == MAXLINE && chunks != [] && IsChunk(chunks[0]) && sum + |chunks[0].data| <= INT_MAX
    requires Due(p, done, START, sum, buf, Bytes(EncodeChunks(chunks)) + rest)
    ensures |now| == MAXLINE && Due(p, more, START, total, now, Bytes(EncodeChunks(chunks[1..])) + rest)
    ensures more == done + [chunks[0].data + chunks[0].end] && total == sum + |chunks[0].data|
  {
    hide TurnOf, PassChunks;
    var c := chunks[0];
    var left := Bytes(EncodeChunks(chunks[1..])) + rest;
    Regroup3(c.sizeLine, c.data + c.end, EncodeChunks(chunks[1..]));
    BytesConcat(c.sizeLine, (c.data + c.end) + EncodeChunks(chunks[1..]), rest);
    BytesConcat(c.data + c.end, EncodeChunks(chunks[1..]), rest);
    now, more, total := ChunkPasses(p, done, sum, buf, c, Bytes(EncodeChunks(chunks)) + rest, left);
  }

  lemma Regroup3(a: string, b: string, c: string)
    ensures a + b + c == a + (b + c)
  {
  }

  lemma PartPasses(p: Pass, done: seq<string>, sum: nat, buf: string, line: string, part: string)
    requires |buf| == MAXLINE && IsPart(line, part) && part[0] != '0' && sum + HexValue(HexPrefix(line)) <= INT_MAX
    requires Due(p, done, START, sum, buf, Bytes(EncodeChunks([])) + (Bytes(line) + Bytes(part)))
    ensures p.ending == if IsHexDigit(part[0]) then Undefined else Stuck
    ensures Concat(p.out) == Concat(done) + (Payloads([]) + part)
  {
    hide TurnOf, PassChunks, CString, HexPrefix, HexValue;
    var items := Bytes(line) + Bytes(part);
    assert Bytes(EncodeChunks([])) + items == items;
    var a := PartTurn(buf, sum, line, part);
    DueTurn(p, done, sum, buf, items, a);
    FirstDecides(a.buf);
    AtEndOfStream(p, done + [part], sum + a.turn.size, a.buf);
    ConcatOne(done, part);
    assert Payloads([]) + part == part;
  }

  /** A body that breaks off behind whole chunks, in the data of a chunk or right behind it, where the
      data do not begin with a zero: what is left of them in the buffer is taken for a size line again and
      again. It turns for ever if and only if the data do not begin with a hexadecimal digit; otherwise
      the sum overflows. */
  lemma BrokenOff(chunks: seq<Chunk>, line: string, part: string, announced: bool, junk: string)
    requires |junk| == MAXLINE && IsPart(line, part) && part[0] != '0'
    requires forall i :: 0 <= i < |chunks| ==> IsChunk(chunks[i])
    requires TotalSize(chunks) + HexValue(HexPrefix(line)) <= INT_MAX
    ensures var p := PassBody(announced, junk, Bytes(EncodeChunks(chunks)) + (Bytes(line) + Bytes(part)));
      && p.ending == (if IsHexDigit(part[0]) then Undefined else Stuck)
      && Concat(p.out) == Payloads(chunks) + part
  {
    hide TurnOf, PassChunks;
    var items := Bytes(EncodeChunks(chunks)) + (Bytes(line) + Bytes(part));
    DueStart(junk, items);
    BrokenOffPass(PassChunks(junk, 0, items), [], 0, junk, chunks, line, part);
    assert "" + (Payloads(chunks) + part) == Payloads(chunks) + part;
  }

  /** For example: after the chunk xyz the loop never ends, after the chunk abc the sum overflows. */
  lemma TwoBrokenOff(junk: string)
    requires |junk| == MAXLINE
    ensures PassBody(false, junk, Bytes("3\r\n") + Bytes("xyz\r\n")).ending == Stuck
    ensures PassBody(false, junk, Bytes("3\r\n") + Bytes("abc\r\n")).ending == Undefined
  {
    ThreeBytes(Chunk("3\r\n", "abc", CRLF));
    OnlyPart("3\r\n", "xyz\r\n", junk);
    OnlyPart("3\r\n", "abc\r\n", junk);
  }

  lemma OnlyPart(line: string, part: string, junk: string)
    requires |junk| == MAXLINE && IsPart(line, part) && part[0] != '0'
    ensures PassBody(false, junk, Bytes(line) + Bytes(part)).ending == if IsHexDigit(part[0]) then Undefined else Stuck
  {
    hide PassBody;
    BrokenOff([], line, part, false, junk);
    assert Bytes(EncodeChunks([])) + (Bytes(line) + Bytes(part)) == Bytes(line) + Bytes(part);
  }

  // ---------------------------------------------------------------- a body of one chunk

  lemma SizeLineFits(n: nat, line: string)
    requires 0 < n <= LONG_MAX && line == Text(n, 16) + CRLF
    ensures FitsLine(line) && line != LAST && HexValue(HexPrefix(line)) == n
  {
    hide Numeral, HexValue, HexPrefix;
    ChunkSizeRoundTrip(n, CRLF);
    LongLength(n, 16);
    SizeTextIsPlain(n);
    LastIsZero(LAST);
  }

  lemma SizeTextIsPlain(n: nat)
    ensures '\n' !in Text(n, 16)
  {
    NumeralValue(n, 16);
    forall i | 0 <= i < |Numeral(n, 16)| ensures Numeral(n, 16)[i] != '\n' {
      assert IsDigitOf(Numeral(n, 16)[i], 16);
    }
  }

  lemma LastIsZero(line: string)
    requires line == LAST
    ensures HexValue(HexPrefix(line)) == 0
  {
    assert line == "0" + CRLF && Text(0, 16) == "0";
    ChunkSizeRoundTrip(0, CRLF);
  }

  /** The data and the two bytes behind them must fit in the buffer. */
  lemma TooWide(junk: string, line: string, after: seq<Item>)
    requires |junk| == MAXLINE && FitsLine(line) && line != LAST
    requires TakeN(after, HexValue(HexPrefix(line)) + 2).status == Filled && HexValue(HexPrefix(line)) + 2 > MAXLINE
    ensures PassChunks(junk, 0, Bytes(line) + after).ending == Undefined
  {
    hide HexPrefix, HexValue, CString, Overwrite, TakeN, DataTurn, PassChunks, IsTextLine;
    LineInBuffer(junk, line, after);
    WideData(AfterLine(junk, Taken(line, Filled, after)), after);
    PassStep(junk, 0, Bytes(line) + after);
  }

  lemma WideData(now: string, after: seq<Item>)
    requires |now| == MAXLINE
    requires TakeN(after, HexValue(HexPrefix(now)) + 2).status == Filled && HexValue(HexPrefix(now)) + 2 > MAXLINE
    ensures DataTurn(now, 0, after).turn == Stop(Undefined, [])
  {
    hide HexPrefix, HexValue, TakeN, Overwrite;
    TakeNLength(after, HexValue(HexPrefix(now)) + 2);
  }

  /** A body of one chunk, written out: it is passed on without its size if it has at most 8190 bytes, and
      otherwise more bytes are written into the buffer than it has. */
  lemma OneChunkIff(data: string, junk: string, rest: seq<Item>)
    requires |junk| == 8192 && 0 < |data| <= LONG_MAX
    ensures var p := PassBody(false, junk, Bytes(Text(|data|, 16) + "\r\n" + data + "\r\n" + "0\r\n\r\n") + rest);
      if |data| <= 8190
      then p.ending == Finished && p.rest == rest && p.sum == |data| && Concat(p.out) == data + "\r\n" + "0\r\n\r\n"
      else p.ending == Undefined
  {
    hide PassBody, Forwarded, Encode, EncodeChunks, Payloads, HexValue, HexPrefix, Numeral;
    var line := Text(|data|, 16) + "\r\n";
    SizeLineFits(|data|, line);
    var c := Chunk(line, data, "\r\n");
    OneChunkBody(c);
    if |data| <= 8190 {
      BodyPasses(Body([c], ""), false, junk, rest);
      OneSize(c);
    } else {
      WideBody(c, junk, rest);
    }
  }

  lemma OneChunkBody(c: Chunk)
    requires c.end == "\r\n"
    ensures Encode(Body([c], "")) == c.sizeLine + c.data + "\r\n" + "0\r\n\r\n"
    ensures Forwarded(Body([c], "")) == c.data + "\r\n" + "0\r\n\r\n"
  {
    OneChunk(c);
    assert LAST + ("" + CRLF) == "0\r\n\r\n" && LAST + "" + CRLF == "0\r\n\r\n";
    Grouping(c.sizeLine, c.data, c.end);
    LastTogether(c.data + c.end, LAST, CRLF);
  }

  lemma LastTogether(a: string, b: string, c: string)
    ensures a + b + "" + c == a + (b + c)
  {
  }

  lemma OneSize(c: Chunk)
    ensures TotalSize([c]) == |c.data|
  {
    assert [c][1..] == [];
  }

  lemma WideBody(c: Chunk, junk: string, rest: seq<Item>)
    requires |junk| == 8192 && FitsLine(c.sizeLine) && c.sizeLine != LAST && c.end == "\r\n"
    requires HexValue(HexPrefix(c.sizeLine)) == |c.data| > 8190
    ensures PassBody(false, junk, Bytes(c.sizeLine + c.data + "\r\n" + "0\r\n\r\n") + rest).ending == Undefined
  {
    hide HexPrefix, HexValue, PassChunks;
    var tail := "0\r\n\r\n";
    Grouping(c.sizeLine, c.data, c.end);
    Grouping(c.sizeLine, c.data + c.end, tail);
    BytesConcat(c.sizeLine, (c.data + c.end) + tail, rest);
    BytesConcat(c.data + c.end, tail, rest);
    TakeNOfBytes(c.data + c.end, Bytes(tail) + rest);
    TooWide(junk, c.sizeLine, Bytes((c.data + c.end) + tail) + rest);
  }
}
