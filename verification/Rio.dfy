/** The Rio package of csapp.c: reading through a buffer that read() fills in portions of any
    size, and writing through write() calls that take any portion. What the kernel will do is
    a script held by the descriptor; the contracts hold for every script, interruptions and
    errors included. Characters stand for bytes. */
module Rio {

  const RIO_BUFSIZE: nat := 8192

  // ---------------------------------------------------------------- streams

  /** One thing read() can do next. A used-up script is end of file. */
  datatype ReadEvent = Data(bytes: string) | Interrupt | Failure

  /** A byte stream with the places where reading fails. */
  datatype Item = Byte(c: char) | Error

  function Bytes(s: string): (r: seq<Item>)
    ensures |r| == |s| && forall i :: 0 <= i < |r| ==> r[i] == Byte(s[i])
  {
    seq(|s|, i requires 0 <= i < |s| => Byte(s[i]))
  }

  /** The stream a script amounts to, whatever its portions and interruptions. */
  function Items(script: seq<ReadEvent>): seq<Item> {
    if script == [] then []
    else
      (match script[0]
       case Data(bytes) => Bytes(bytes)
       case Interrupt => []
       case Failure => [Error])
      + Items(script[1..])
  }

  predicate ValidScript(script: seq<ReadEvent>) {
    forall i :: 0 <= i < |script| && script[i].Data? ==> script[i].bytes != ""
  }

  // ---------------------------------------------------------------- what reading means

  datatype Status = Filled | Ended | Failed

  /** Bytes delivered, why delivery stopped, and the stream left. */
  datatype Taken = Taken(bytes: string, status: Status, rest: seq<Item>)

  /** Reading n bytes of a plain stream. */
  function TakeN(items: seq<Item>, n: nat): Taken {
    if n == 0 then Taken("", Filled, items)
    else if items == [] then Taken("", Ended, [])
    else if items[0].Error? then Taken("", Failed, items[1..])
    else
      var t := TakeN(items[1..], n - 1);
      t.(bytes := [items[0].c] + t.bytes)
  }

  /** Reading a line of at most max bytes of a plain stream. */
  function TakeLine(items: seq<Item>, max: nat): Taken {
    if max == 0 then Taken("", Filled, items)
    else if items == [] then Taken("", Ended, [])
    else if items[0].Error? then Taken("", Failed, items[1..])
    else if items[0].c == '\n' then Taken("\n", Filled, items[1..])
    else
      var t := TakeLine(items[1..], max - 1);
      t.(bytes := [items[0].c] + t.bytes)
  }

  function Mark(status: Status): seq<Item> {
    if status == Failed then [Error] else []
  }

  lemma BytesCons(c: char, s: string, mark: seq<Item>, rest: seq<Item>)
    ensures Bytes([c] + s) + mark + rest == [Byte(c)] + (Bytes(s) + mark + rest)
  {
    assert Bytes([c] + s) == [Byte(c)] + Bytes(s);
  }

  /** Nothing is lost, repeated or reordered by a read. */
  lemma {:induction false} TakeNConserves(items: seq<Item>, n: nat)
    ensures var t := TakeN(items, n);
      && Bytes(t.bytes) + Mark(t.status) + t.rest == items
      && (t.status == Ended ==> t.rest == [])
  {
    if n > 0 && items != [] && items[0].Byte? {
      TakeNConserves(items[1..], n - 1);
      var t := TakeN(items[1..], n - 1);
      BytesCons(items[0].c, t.bytes, Mark(t.status), t.rest);
    }
  }

  lemma {:induction false} TakeNLength(items: seq<Item>, n: nat)
    ensures var t := TakeN(items, n); |t.bytes| <= n && (t.status == Filled <==> |t.bytes| == n)
  {
    if n > 0 && items != [] && items[0].Byte? {
      TakeNLength(items[1..], n - 1);
    }
  }

  /** A newline stands at most at the end. */
  predicate NewlineOnlyLast(s: string) {
    forall i :: 0 <= i < |s| - 1 ==> s[i] != '\n'
  }

  predicate EndsLine(s: string) {
    s != "" && s[|s| - 1] == '\n'
  }

  lemma {:induction false} TakeLineConserves(items: seq<Item>, max: nat)
    ensures var t := TakeLine(items, max);
      && Bytes(t.bytes) + Mark(t.status) + t.rest == items
      && (t.status == Ended ==> t.rest == [])
  {
    if max > 0 && items != [] && items[0].Byte? {
      if items[0].c == '\n' {
        assert Bytes("\n") == [items[0]];
      } else {
        TakeLineConserves(items[1..], max - 1);
        var t := TakeLine(items[1..], max - 1);
        BytesCons(items[0].c, t.bytes, Mark(t.status), t.rest);
      }
    }
  }

  /** A line is the stream up to and including the first newline, cut off after max bytes. */
  lemma {:induction false} TakeLineShape(items: seq<Item>, max: nat)
    ensures var t := TakeLine(items, max);
      && |t.bytes| <= max
      && NewlineOnlyLast(t.bytes)
      && (t.status == Filled <==> |t.bytes| == max || EndsLine(t.bytes))
  {
    if max > 0 && items != [] && items[0].Byte? && items[0].c != '\n' {
      TakeLineShape(items[1..], max - 1);
      PrependToLine(items[0].c, TakeLine(items[1..], max - 1).bytes);
    }
  }

  lemma PrependToLine(c: char, s: string)
    requires c != '\n' && NewlineOnlyLast(s)
    ensures NewlineOnlyLast([c] + s) && (EndsLine([c] + s) <==> EndsLine(s))
    ensures Bytes([c] + s) == [Byte(c)] + Bytes(s)
  {
  }

  /** Two reads in a row are one longer read, as long as the first is filled. */
  lemma {:induction false} TakeNSplits(items: seq<Item>, m: nat, n: nat)
    ensures var t := TakeN(items, m);
      TakeN(items, m + n) ==
        (if t.status != Filled then t
         else TakeN(t.rest, n).(bytes := t.bytes + TakeN(t.rest, n).bytes))
  {
    if m == 0 {
      var t := TakeN(items, n);
      assert "" + t.bytes == t.bytes;
    } else if items != [] && items[0].Byte? {
      TakeNSplits(items[1..], m - 1, n);
      var t := TakeN(items[1..], m - 1);
      assert [items[0].c] + (t.bytes + TakeN(t.rest, n).bytes) == ([items[0].c] + t.bytes) + TakeN(t.rest, n).bytes;
    }
  }

  /** Reading through a prefix of known bytes. */
  lemma {:induction false} TakeNOfBytes(s: string, rest: seq<Item>)
    ensures TakeN(Bytes(s) + rest, |s|) == Taken(s, Filled, rest)
  {
    if s == "" {
      assert Bytes(s) + rest == rest;
    } else {
      TakeNOfBytes(s[1..], rest);
      assert (Bytes(s) + rest)[1..] == Bytes(s[1..]) + rest;
      assert [s[0]] + s[1..] == s;
    }
  }

  /** A complete line: one newline, at its end. */
  predicate IsTextLine(s: string) {
    EndsLine(s) && NewlineOnlyLast(s)
  }

  lemma {:induction false} TakeLineOfLine(s: string, rest: seq<Item>, max: nat)
    requires IsTextLine(s) && |s| <= max
    ensures TakeLine(Bytes(s) + rest, max) == Taken(s, Filled, rest)
  {
    assert (Bytes(s) + rest)[0] == Byte(s[0]);
    if |s| == 1 {
      assert (Bytes(s) + rest)[1..] == rest;
      assert s == "\n";
    } else {
      TakeLineOfLine(s[1..], rest, max - 1);
      assert (Bytes(s) + rest)[1..] == Bytes(s[1..]) + rest;
      assert [s[0]] + s[1..] == s;
    }
  }

  // ---------------------------------------------------------------- sessions

  datatype ReadCall = ReadN(n: nat) | ReadLine(max: nat)

  function TakeCall(items: seq<Item>, call: ReadCall): Taken {
    match call
    case ReadN(n) => TakeN(items, n)
    case ReadLine(max) => TakeLine(items, max)
  }

  /** The stream left after a sequence of calls. */
  function LeftOver(items: seq<Item>, calls: seq<ReadCall>): seq<Item>
    decreases |calls|
  {
    if calls == [] then items else LeftOver(TakeCall(items, calls[0]).rest, calls[1..])
  }

  /** The items a sequence of calls has used up: bytes delivered and failures reported. */
  function Delivered(items: seq<Item>, calls: seq<ReadCall>): seq<Item>
    decreases |calls|
  {
    if calls == [] then []
    else
      var t := TakeCall(items, calls[0]);
      Bytes(t.bytes) + Mark(t.status) + Delivered(t.rest, calls[1..])
  }

  /** After any mixture of reads, what was delivered and what is left make up the stream. */
  lemma {:induction false} SessionConserves(items: seq<Item>, calls: seq<ReadCall>)
    ensures Delivered(items, calls) + LeftOver(items, calls) == items
    decreases |calls|
  {
    if calls != [] {
      var t := TakeCall(items, calls[0]);
      match calls[0] {
        case ReadN(n) => TakeNConserves(items, n);
        case ReadLine(max) => TakeLineConserves(items, max);
      }
      SessionConserves(t.rest, calls[1..]);
      var used := Bytes(t.bytes) + Mark(t.status);
      assert used + Delivered(t.rest, calls[1..]) + LeftOver(t.rest, calls[1..])
        == used + (Delivered(t.rest, calls[1..]) + LeftOver(t.rest, calls[1..]));
    }
  }

  // ---------------------------------------------------------------- the kernel's side

  /** A descriptor open for reading. */
  class Source {
    var script: seq<ReadEvent>

    constructor (script: seq<ReadEvent>)
      ensures this.script == script
    {
      this.script := script;
    }

    /** read(2) into usrbuf[off..off + n]; interrupted tells errno EINTR from other errors. */
    method Read(usrbuf: array<char>, off: nat, n: nat) returns (r: int, interrupted: bool)
      requires ValidScript(script) && 0 < n && off + n <= usrbuf.Length
      modifies this, usrbuf
      ensures ValidScript(script) && -1 <= r <= n
      ensures r > 0 ==> old(Items(script)) == Bytes(usrbuf[off..off + r]) + Items(script)
      ensures r > 0 ==> usrbuf[..] == Splice(old(usrbuf[..]), off, usrbuf[off..off + r])
      ensures r == 0 ==> old(script) == [] && script == []
      ensures r < 0 ==> old(Items(script)) == (if interrupted then [] else [Error]) + Items(script)
      ensures r < 0 ==> |script| < |old(script)|
      ensures r <= 0 ==> usrbuf[..] == old(usrbuf[..])
    {
      interrupted := false;
      if script == [] {
        return 0, false;
      }
      var event := script[0];
      var later := script[1..];
      match event
      case Interrupt =>
        script := later;
        return -1, true;
      case Failure =>
        script := later;
        return -1, false;
      case Data(bytes) =>
        r := if n < |bytes| then n else |bytes|;
        Deliver(bytes, later, usrbuf, off, r);
    }

    method Deliver(bytes: string, later: seq<ReadEvent>, usrbuf: array<char>, off: nat, k: nat)
      requires 0 < k <= |bytes| && off + k <= usrbuf.Length && ValidScript(later)
      requires script == [Data(bytes)] + later
      modifies this, usrbuf
      ensures ValidScript(script)
      ensures old(Items(script)) == Bytes(usrbuf[off..off + k]) + Items(script)
      ensures usrbuf[..] == Splice(old(usrbuf[..]), off, usrbuf[off..off + k])
    {
      ItemsOfPart(bytes, later, k);
      script := if k < |bytes| then [Data(bytes[k..])] + later else later;
      Copy(usrbuf, off, bytes[..k]);
      assert usrbuf[..][off..off + k] == bytes[..k];
    }
  }

  lemma TwoSlices(s: string, i: nat, j: nat, k: nat)
    requires i <= j <= k <= |s|
    ensures s[i..k] == s[i..j] + s[j..k]
  {
  }

  lemma BytesConcat(a: string, b: string, rest: seq<Item>)
    ensures Bytes(a + b) + rest == Bytes(a) + (Bytes(b) + rest)
  {
    assert Bytes(a + b) == Bytes(a) + Bytes(b);
  }

  lemma ItemsOfPart(bytes: string, later: seq<ReadEvent>, k: nat)
    requires 0 < k <= |bytes|
    ensures Items([Data(bytes)] + later)
      == Bytes(bytes[..k]) + Items(if k < |bytes| then [Data(bytes[k..])] + later else later)
  {
    assert ([Data(bytes)] + later)[1..] == later;
    assert ([Data(bytes[k..])] + later)[1..] == later;
    assert bytes == bytes[..k] + bytes[k..];
    BytesConcat(bytes[..k], bytes[k..], Items(later));
  }

  /** A buffer with s written over it at off. */
  function Splice(buffer: string, off: nat, s: string): (r: string)
    requires off + |s| <= |buffer|
    ensures |r| == |buffer| && r[off..off + |s|] == s
  {
    buffer[..off] + s + buffer[off + |s|..]
  }

  /** A buffer with s written over its beginning. */
  function Overwrite(buffer: string, s: string): (r: string)
    requires |s| <= |buffer|
    ensures |r| == |buffer| && r[..|s|] == s
  {
    s + buffer[|s|..]
  }

  lemma SpliceAfter(buffer: string, done: string, more: string)
    requires |done| + |more| <= |buffer|
    ensures Splice(Overwrite(buffer, done), |done|, more) == Overwrite(buffer, done + more)
  {
  }

  /** memcpy. */
  method Copy(dst: array<char>, off: nat, src: string)
    requires off + |src| <= dst.Length
    modifies dst
    ensures dst[..] == Splice(old(dst[..]), off, src)
  {
    for i := 0 to |src|
      invariant forall j :: 0 <= j < i ==> dst[off + j] == src[j]
      invariant forall j :: 0 <= j < dst.Length && !(off <= j < off + i) ==> dst[j] == old(dst[j])
    {
      dst[off + i] := src[i];
    }
  }

  // ---------------------------------------------------------------- reading

  /** rio_t. */
  class Reader {
    const source: Source      // rio_fd
    var cnt: int              // rio_cnt
    var ptr: nat              // rio_bufptr - rio_buf
    const buf: array<char>    // rio_buf

    ghost predicate Valid()
      reads this, source
    {
      && buf.Length == RIO_BUFSIZE
      && ValidScript(source.script)
      && (cnt > 0 ==> ptr + cnt <= buf.Length)
    }

    /** The bytes read ahead. */
    ghost function Buffered(): string
      requires Valid()
      reads this, source, buf
    {
      if cnt > 0 then buf[ptr..ptr + cnt] else ""
    }

    /** What a reader of this buffer has still to see. */
    ghost function Unread(): seq<Item>
      requires Valid()
      reads this, source, buf
    {
      Bytes(Buffered()) + Items(source.script)
    }

    /** rio_readinitb. */
    constructor (source: Source)
      requires ValidScript(source.script)
      ensures Valid() && this.source == source && fresh(buf)
      ensures Unread() == Items(source.script)
    {
      this.source := source;
      cnt, ptr := 0, 0;
      buf := new char[RIO_BUFSIZE];
    }

    /** The loop of rio_read: after it the buffer holds something, or the stream ends or fails
        right here. */
    method Refill() returns (r: int)
      requires Valid()
      modifies this, source, buf
      ensures Valid() && -1 <= r <= 1
      ensures r > 0 ==> cnt > 0 && Unread() == old(Unread())
      ensures r == 0 ==> old(Unread()) == [] && Unread() == []
      ensures r < 0 ==> old(Unread()) == [Error] + Unread()
    {
      while cnt <= 0
        invariant Valid() && Unread() == old(Unread())
        decreases cnt <= 0, |source.script|
      {
        var got, interrupted := source.Read(buf, 0, buf.Length);
        cnt := got;
        if cnt < 0 {
          if !interrupted {
            return -1;
          }
        } else if cnt == 0 {
          return 0;
        } else {
          ptr := 0;
        }
      }
      return 1;
    }

    /** rio_read: some bytes, at least one unless the stream ends or fails right here. */
    method RioRead(usrbuf: array<char>, off: nat, n: nat) returns (r: int, ghost got: string)
      requires Valid() && usrbuf != buf && 0 < n && off + n <= usrbuf.Length
      modifies this, source, buf, usrbuf
      ensures Valid() && -1 <= r <= n
      ensures r > 0 ==> |got| == r && old(Unread()) == Bytes(got) + Unread()
      ensures r > 0 ==> usrbuf[..] == Splice(old(usrbuf[..]), off, got)
      ensures r == 0 ==> old(Unread()) == [] && Unread() == []
      ensures r < 0 ==> old(Unread()) == [Error] + Unread()
      ensures r <= 0 ==> usrbuf[..] == old(usrbuf[..])
    {
      r := Refill();
      if r <= 0 {
        return r, "";
      }
      r := if cnt < n then cnt else n;
      got := buf[ptr..ptr + r];
      ghost var items := Items(source.script);
      Hand(usrbuf, off, r);
      BytesConcat(got, Buffered(), items);
    }

    method Hand(usrbuf: array<char>, off: nat, k: nat)
      requires Valid() && usrbuf != buf && 0 < k <= cnt && off + k <= usrbuf.Length
      modifies this`ptr, this`cnt, usrbuf
      ensures Valid()
      ensures old(Buffered()) == old(buf[ptr..ptr + k]) + Buffered()
      ensures usrbuf[..] == Splice(old(usrbuf[..]), off, old(buf[ptr..ptr + k]))
    {
      hide Items, Splice;
      TwoSlices(buf[..], ptr, ptr + k, ptr + cnt);
      Copy(usrbuf, off, buf[ptr..ptr + k]);
      ptr := ptr + k;
      cnt := cnt - k;
    }

    /** rio_readnb: reads n bytes as from a plain stream. */
    method ReadNb(usrbuf: array<char>, n: nat) returns (r: int)
      requires Valid() && usrbuf != buf && n <= usrbuf.Length
      modifies this, source, buf, usrbuf
      ensures Valid()
      ensures var t := TakeN(old(Unread()), n);
        && Unread() == t.rest
        && |t.bytes| <= n && usrbuf[..] == Overwrite(old(usrbuf[..]), t.bytes)
        && r == if t.status == Failed then -1 else |t.bytes|
    {
      var bufp, rc := GatherNb(usrbuf, n);
      TakeNLength(old(Unread()), n);
      return if rc < 0 then -1 else bufp;
    }

    /** The loop of rio_readnb, up to n bytes or the first read that delivers nothing. */
    method GatherNb(usrbuf: array<char>, n: nat) returns (bufp: nat, rc: int)
      requires Valid() && usrbuf != buf && n <= usrbuf.Length
      modifies this, source, buf, usrbuf
      ensures Valid() && -1 <= rc <= 1
      ensures var t := TakeN(old(Unread()), n);
        && t.status == StatusOf(rc) && t.rest == Unread()
        && bufp == |t.bytes| <= n && usrbuf[..] == Overwrite(old(usrbuf[..]), t.bytes)
    {
      var nleft: nat := n;
      bufp, rc := 0, 1;
      ghost var stream, done := Unread(), "";
      while nleft > 0
        invariant bufp + nleft == n && bufp == |done| && Valid()
        invariant TakeN(stream, n) == Prepend(done, TakeN(Unread(), nleft))
        invariant usrbuf[..] == Overwrite(old(usrbuf[..]), done)
      {
        ghost var before := Unread();
        var nread, got := RioRead(usrbuf, bufp, nleft);
        if nread <= 0 {
          TakeNNone(done, before, nleft);
          return bufp, nread;
        }
        TakeNSome(done, before, got, Unread(), nleft);
        SpliceAfter(old(usrbuf[..]), done, got);
        done := done + got;
        nleft := nleft - nread;
        bufp := bufp + nread;
      }
      assert done + "" == done;
    }

    /** rio_read of one byte into a local variable. */
    method RioReadChar() returns (rc: int, c: char)
      requires Valid()
      modifies this, source, buf
      ensures Valid() && -1 <= rc <= 1
      ensures rc == 1 ==> old(Unread()) == [Byte(c)] + Unread()
      ensures rc == 0 ==> old(Unread()) == [] && Unread() == []
      ensures rc < 0 ==> old(Unread()) == [Error] + Unread()
    {
      var cell := new char[1];
      ghost var got;
      rc, got := RioRead(cell, 0, 1);
      c := cell[0];
      if rc == 1 {
        assert cell[..][0..1] == got;
        assert Bytes(got) == [Byte(c)];
      }
    }

    /** The loop of rio_readlineb, up to the newline, the limit, or the first read that delivers
        nothing. */
    method GatherLine(usrbuf: array<char>, maxlen: nat) returns (n: nat, rc: int)
      requires Valid() && usrbuf != buf && maxlen <= usrbuf.Length
      modifies this, source, buf, usrbuf
      ensures Valid() && 1 <= n && -1 <= rc <= 1
      ensures var t := TakeLine(old(Unread()), MaxBytes(maxlen));
        && t.status == StatusOf(rc) && t.rest == Unread()
        && n - 1 == |t.bytes| <= usrbuf.Length && usrbuf[..] == Overwrite(old(usrbuf[..]), t.bytes)
    {
      n, rc := 1, 1;
      ghost var stream, max, done := Unread(), MaxBytes(maxlen), "";
      while n < maxlen
        invariant 1 <= n && n - 1 <= max && rc == 1 && |done| == n - 1 && Valid()
        invariant LineSoFar(stream, max, done, Unread())
        invariant usrbuf[..] == Overwrite(old(usrbuf[..]), done)
      {
        ghost var before := Unread();
        var c;
        rc, c := RioReadChar();
        if rc != 1 {
          LineStops(stream, max, done, before);
          return;
        }
        LineGoesOn(stream, max, done, before, c, Unread());
        Append(usrbuf, n - 1, c, old(usrbuf[..]), done);
        done := done + [c];
        n := n + 1;
        if c == '\n' {
          return;
        }
      }
      LineIsFull(stream, max, done, Unread());
    }

    /** rio_readlineb: reads a line as from a plain stream, and ends it with a NUL unless the
        stream had ended or a read failed. */
    method ReadLineB(usrbuf: array<char>, maxlen: nat) returns (r: int)
      requires Valid() && usrbuf != buf && 0 < usrbuf.Length && maxlen <= usrbuf.Length
      modifies this, source, buf, usrbuf
      ensures Valid()
      ensures Unread() == TakeLine(old(Unread()), MaxBytes(maxlen)).rest
      ensures LineRead(TakeLine(old(Unread()), MaxBytes(maxlen)), r, usrbuf[..], old(usrbuf[..]))
    {
      TakeLineShape(old(Unread()), MaxBytes(maxlen));
      var n, rc := GatherLine(usrbuf, maxlen);
      if rc < 0 {
        return -1;
      }
      if rc == 0 && n == 1 {
        return 0;
      }
      Append(usrbuf, n - 1, '\0', old(usrbuf[..]), TakeLine(old(Unread()), MaxBytes(maxlen)).bytes);
      return n - 1;
    }
  }

  /** What one call returns, and the user's buffer behind it. */
  datatype Reply = Reply(r: int, buf: string)

  predicate IsReply(t: Taken, reply: Reply) {
    && reply.r == (if t.status == Failed then -1 else |t.bytes|)
    && |t.bytes| <= |reply.buf| && reply.buf[..|t.bytes|] == t.bytes
  }

  /** The replies are those of reading the plain stream. */
  predicate AreReplies(items: seq<Item>, calls: seq<ReadCall>, replies: seq<Reply>)
    decreases |calls|
  {
    if calls == [] then replies == []
    else
      && replies != [] && IsReply(TakeCall(items, calls[0]), replies[0])
      && AreReplies(TakeCall(items, calls[0]).rest, calls[1..], replies[1..])
  }

  method Perform(reader: Reader, call: ReadCall) returns (reply: Reply)
    requires reader.Valid()
    modifies reader, reader.source, reader.buf
    ensures reader.Valid() && reader.Unread() == TakeCall(old(reader.Unread()), call).rest
    ensures IsReply(TakeCall(old(reader.Unread()), call), reply)
  {
    ghost var t := TakeCall(reader.Unread(), call);
    match call
    case ReadN(n) =>
      var usrbuf := new char[n];
      var r := reader.ReadNb(usrbuf, n);
      reply := Reply(r, usrbuf[..]);
    case ReadLine(max) =>
      var usrbuf := new char[max + 1];
      var r := reader.ReadLineB(usrbuf, max + 1);
      reply := Reply(r, usrbuf[..]);
      assert r > 0 ==> reply.buf[..|t.bytes + "\0"|] == t.bytes + "\0";
  }

  /** Any series of calls of rio_readnb and rio_readlineb gets the counts and bytes of the plain stream;
      what was delivered and what is left make up the stream. */
  method Session(reader: Reader, calls: seq<ReadCall>) returns (replies: seq<Reply>)
    requires reader.Valid()
    modifies reader, reader.source, reader.buf
    ensures reader.Valid() && AreReplies(old(reader.Unread()), calls, replies)
    ensures reader.Unread() == LeftOver(old(reader.Unread()), calls)
    ensures Delivered(old(reader.Unread()), calls) + reader.Unread() == old(reader.Unread())
    decreases |calls|
  {
    SessionConserves(reader.Unread(), calls);
    if calls == [] {
      return [];
    }
    var reply := Perform(reader, calls[0]);
    var later := Session(reader, calls[1..]);
    replies := [reply] + later;
  }

  function StatusOf(rc: int): Status {
    if rc == 1 then Filled else if rc == 0 then Ended else Failed
  }

  method Append(dst: array<char>, i: nat, c: char, ghost before: string, ghost done: string)
    requires i == |done| < dst.Length == |before| && dst[..] == Overwrite(before, done)
    modifies dst
    ensures dst[..] == Overwrite(before, done + [c])
  {
    SpliceAfter(before, done, [c]);
    dst[i] := c;
    assert dst[..] == Splice(old(dst[..]), i, [c]);
  }

  /** What a call of rio_readlineb returns, and what it leaves in the user's buffer. */
  ghost predicate LineRead(t: Taken, r: int, now: string, before: string) {
    && |t.bytes| < |before|
    && (if t.status == Failed then r == -1 && now == Overwrite(before, t.bytes)
        else if t.status == Ended && t.bytes == "" then r == 0 && now == before
        else r == |t.bytes| && now == Overwrite(before, t.bytes + "\0"))
  }

  /** Reading a line of the stream comes to: these characters, and then reading on. */
  ghost predicate LineSoFar(stream: seq<Item>, max: nat, done: string, rest: seq<Item>) {
    |done| <= max && TakeLine(stream, max) == Prepend(done, TakeLine(rest, max - |done|))
  }

  lemma LineStops(stream: seq<Item>, max: nat, done: string, before: seq<Item>)
    requires LineSoFar(stream, max, done, before) && |done| < max
    ensures before == [] ==> TakeLine(stream, max) == Taken(done, Ended, [])
    ensures before != [] && before[0] == Error ==> TakeLine(stream, max) == Taken(done, Failed, before[1..])
  {
    assert done + "" == done;
  }

  lemma LineIsFull(stream: seq<Item>, max: nat, done: string, rest: seq<Item>)
    requires LineSoFar(stream, max, done, rest) && |done| == max
    ensures TakeLine(stream, max) == Taken(done, Filled, rest)
  {
    assert done + "" == done;
  }

  lemma LineGoesOn(stream: seq<Item>, max: nat, done: string, before: seq<Item>, c: char, after: seq<Item>)
    requires LineSoFar(stream, max, done, before) && |done| < max && before == [Byte(c)] + after
    ensures if c == '\n' then TakeLine(stream, max) == Taken(done + [c], Filled, after)
            else LineSoFar(stream, max, done + [c], after)
  {
    assert before[1..] == after;
    var t := TakeLine(after, max - |done| - 1);
    assert done + ([c] + t.bytes) == (done + [c]) + t.bytes;
  }

  /** rio_readlineb keeps one place of its maxlen for the NUL. */
  function MaxBytes(maxlen: nat): nat {
    if maxlen == 0 then 0 else maxlen - 1
  }

  function Prepend(s: string, t: Taken): Taken {
    t.(bytes := s + t.bytes)
  }

  lemma TakeNSome(done: string, before: seq<Item>, got: string, after: seq<Item>, n: nat)
    requires |got| <= n && before == Bytes(got) + after
    ensures Prepend(done, TakeN(before, n)) == Prepend(done + got, TakeN(after, n - |got|))
  {
    TakeNOfBytes(got, after);
    TakeNSplits(before, |got|, n - |got|);
    assert done + (got + TakeN(after, n - |got|).bytes) == (done + got) + TakeN(after, n - |got|).bytes;
  }

  // ---------------------------------------------------------------- reading without a buffer

  /** rio_readn: on the same script it delivers what rio_readnb delivers through an empty buffer. */
  method ReadN(source: Source, usrbuf: array<char>, n: nat) returns (r: int)
    requires ValidScript(source.script) && n <= usrbuf.Length
    modifies source, usrbuf
    ensures ValidScript(source.script)
    ensures var t := TakeN(old(Items(source.script)), n);
      && Items(source.script) == t.rest
      && |t.bytes| <= n && usrbuf[..] == Overwrite(old(usrbuf[..]), t.bytes)
      && r == if t.status == Failed then -1 else |t.bytes|
  {
    var bufp, rc := GatherN(source, usrbuf, n);
    return if rc < 0 then -1 else bufp;
  }

  /** The loop of rio_readn, up to n bytes or the first read that delivers nothing. */
  method GatherN(source: Source, usrbuf: array<char>, n: nat) returns (bufp: nat, rc: int)
    requires ValidScript(source.script) && n <= usrbuf.Length
    modifies source, usrbuf
    ensures ValidScript(source.script) && -1 <= rc <= 1
    ensures var t := TakeN(old(Items(source.script)), n);
      && t.status == StatusOf(rc) && t.rest == Items(source.script)
      && bufp == |t.bytes| <= n && usrbuf[..] == Overwrite(old(usrbuf[..]), t.bytes)
  {
    var nleft: nat := n;
    bufp, rc := 0, 1;
    ghost var stream, done := Items(source.script), "";
    while nleft > 0
      invariant bufp + nleft == n && bufp == |done| && ValidScript(source.script)
      invariant TakeN(stream, n) == Prepend(done, TakeN(Items(source.script), nleft))
      invariant usrbuf[..] == Overwrite(old(usrbuf[..]), done)
    {
      ghost var before := Items(source.script);
      var nread, got := ReadRetrying(source, usrbuf, bufp, nleft);
      if nread <= 0 {
        TakeNNone(done, before, nleft);
        return bufp, nread;
      }
      TakeNSome(done, before, got, Items(source.script), nleft);
      SpliceAfter(old(usrbuf[..]), done, got);
      done := done + got;
      nleft := nleft - nread;
      bufp := bufp + nread;
    }
    assert done + "" == done;
  }

  lemma TakeNNone(done: string, before: seq<Item>, n: nat)
    requires n > 0
    ensures before == [] ==> Prepend(done, TakeN(before, n)) == Taken(done, Ended, [])
    ensures before != [] && before[0] == Error ==> Prepend(done, TakeN(before, n)) == Taken(done, Failed, before[1..])
  {
    assert done + "" == done;
  }

  /** The read of lines 756-763 with its interruptions, each of which goes round the loop again
      with nothing read. */
  method ReadRetrying(source: Source, usrbuf: array<char>, off: nat, n: nat) returns (nread: int, ghost got: string)
    requires ValidScript(source.script) && 0 < n && off + n <= usrbuf.Length
    modifies source, usrbuf
    ensures ValidScript(source.script) && -1 <= nread <= n
    ensures nread > 0 ==> |got| == nread && old(Items(source.script)) == Bytes(got) + Items(source.script)
    ensures nread > 0 ==> usrbuf[..] == Splice(old(usrbuf[..]), off, got)
    ensures nread == 0 ==> old(Items(source.script)) == [] && Items(source.script) == []
    ensures nread < 0 ==> old(Items(source.script)) == [Error] + Items(source.script)
    ensures nread <= 0 ==> usrbuf[..] == old(usrbuf[..])
  {
    while true
      invariant ValidScript(source.script) && usrbuf[..] == old(usrbuf[..])
      invariant Items(source.script) == old(Items(source.script))
      decreases |source.script|
    {
      var interrupted;
      nread, interrupted := source.Read(usrbuf, off, n);
      if nread >= 0 || !interrupted {
        got := if nread > 0 then usrbuf[off..off + nread] else "";
        return;
      }
    }
  }

  // ---------------------------------------------------------------- writing

  /** One thing write() can do next; a used-up script takes everything. A failure stands for a
      result that is not positive, with errno EINTR or not. */
  datatype WriteEvent = Accept(n: nat) | Refuse(interrupted: bool)

  predicate ValidWrites(script: seq<WriteEvent>) {
    forall i :: 0 <= i < |script| && script[i].Accept? ==> script[i].n > 0
  }

  /** No write fails for another reason than an interruption. */
  predicate Reliable(script: seq<WriteEvent>) {
    forall i :: 0 <= i < |script| && script[i].Refuse? ==> script[i].interrupted
  }

  /** How many of n bytes are written before all are, or a write fails. */
  function Pushed(script: seq<WriteEvent>, n: nat): (k: nat)
    ensures k <= n
  {
    if n == 0 then 0
    else if script == [] then n
    else match script[0]
      case Accept(m) => if n <= m then n else m + Pushed(script[1..], n - m)
      case Refuse(interrupted) => if interrupted then Pushed(script[1..], n) else 0
  }

  /** What the kernel has left to do then. */
  function ScriptAfter(script: seq<WriteEvent>, n: nat): seq<WriteEvent> {
    if n == 0 then script
    else if script == [] then []
    else match script[0]
      case Accept(m) => if n <= m then script[1..] else ScriptAfter(script[1..], n - m)
      case Refuse(interrupted) => if interrupted then ScriptAfter(script[1..], n) else script[1..]
  }

  lemma {:induction false} ReliablePushesAll(script: seq<WriteEvent>, n: nat)
    requires Reliable(script)
    ensures Pushed(script, n) == n && Reliable(ScriptAfter(script, n))
    decreases |script|
  {
    if n > 0 && script != [] {
      match script[0]
      case Accept(m) =>
        if n > m {
          ReliablePushesAll(script[1..], n - m);
        }
      case Refuse(_) => ReliablePushesAll(script[1..], n);
    }
  }

  lemma NextPart(data: string, i: nat, n: nat)
    requires i + n <= |data|
    ensures data[..i] + data[i..][..n] == data[..i + n]
  {
  }

  /** A descriptor open for writing. */
  class Sink {
    var script: seq<WriteEvent>
    var written: string

    ghost function State(): Output
      reads this
    {
      Output(written, script)
    }

    constructor (script: seq<WriteEvent>)
      ensures this.script == script && written == ""
    {
      this.script, written := script, "";
    }

    /** rio_writen as a step of a series. */
    method Put(portion: string)
      requires ValidWrites(script)
      modifies this
      ensures ValidWrites(script) && State() == Send(old(State()), [portion])
    {
      SendSingle(State(), portion);
      var _ := Writen(portion);
    }

    /** write(2). */
    method Write(data: string) returns (r: int, interrupted: bool)
      requires ValidWrites(script) && data != ""
      modifies this
      ensures ValidWrites(script) && r <= |data|
      ensures old(script) == [] ==> r == |data| && script == []
      ensures old(script) != [] ==> script == old(script)[1..]
      ensures old(script) != [] && old(script)[0].Refuse? ==> r == -1 && interrupted == old(script)[0].interrupted
      ensures old(script) != [] && old(script)[0].Accept? ==>
        r == if |data| <= old(script)[0].n then |data| else old(script)[0].n
      ensures written == old(written) + (if r > 0 then data[..r] else "")
    {
      interrupted := false;
      if script == [] {
        r := |data|;
      } else {
        match script[0] {
          case Accept(m) =>
            r := if |data| <= m then |data| else m;
          case Refuse(i) =>
            r, interrupted := -1, i;
        }
        script := script[1..];
      }
      if r > 0 {
        written := written + data[..r];
      } else {
        assert written + "" == written;
      }
    }

    /** rio_writen: everything is written, or a prefix and then -1. */
    method Writen(data: string) returns (r: int)
      requires ValidWrites(script)
      modifies this
      ensures ValidWrites(script)
      ensures written == old(written) + data[..Pushed(old(script), |data|)]
      ensures r == if Pushed(old(script), |data|) == |data| then |data| else -1
      ensures script == ScriptAfter(old(script), |data|)
    {
      var nleft: nat, bufp: nat := |data|, 0;
      ghost var total, last := Pushed(script, |data|), ScriptAfter(script, |data|);
      assert data[..0] == "";
      while nleft > 0
        invariant bufp + nleft == |data| && ValidWrites(script)
        invariant written == old(written) + data[..bufp]
        invariant total == bufp + Pushed(script, nleft) && last == ScriptAfter(script, nleft)
        decreases nleft, |script|
      {
        var nwritten, interrupted := Write(data[bufp..]);
        if nwritten <= 0 {
          if interrupted {
            nwritten := 0;
          } else {
            return -1;
          }
        }
        NextPart(data, bufp, nwritten);
        nleft := nleft - nwritten;
        bufp := bufp + nwritten;
      }
      return |data|;
    }
  }

  // ---------------------------------------------------------------- what a series of writes comes to

  function Concat(portions: seq<string>): string {
    if portions == [] then "" else portions[0] + Concat(portions[1..])
  }

  lemma Grouping(a: string, b: string, c: string)
    ensures (a + b) + c == a + (b + c)
  {
  }

  lemma {:induction false} ConcatJoin(a: seq<string>, b: seq<string>)
    ensures Concat(a + b) == Concat(a) + Concat(b)
  {
    if a == [] {
      assert a + b == b && "" + Concat(b) == Concat(b);
    } else {
      ConcatJoin(a[1..], b);
      assert (a + b)[0] == a[0] && (a + b)[1..] == a[1..] + b;
      Grouping(a[0], Concat(a[1..]), Concat(b));
    }
  }

  lemma ConcatOne(a: seq<string>, last: string)
    ensures Concat(a + [last]) == Concat(a) + last
  {
    ConcatJoin(a, [last]);
    assert last + "" == last;
  }

  /** What has been written to a descriptor, and what the kernel will do next. */
  datatype Output = Output(written: string, script: seq<WriteEvent>)

  function SendOne(o: Output, portion: string): Output {
    Output(o.written + portion[..Pushed(o.script, |portion|)], ScriptAfter(o.script, |portion|))
  }

  /** One rio_writen after another, whether the ones before have given up or not. */
  function Send(o: Output, portions: seq<string>): Output {
    if portions == [] then o else SendOne(Send(o, portions[..|portions| - 1]), portions[|portions| - 1])
  }

  lemma {:induction false} SendJoin(o: Output, a: seq<string>, b: seq<string>)
    ensures Send(o, a + b) == Send(Send(o, a), b)
  {
    if b == [] {
      assert a + b == a;
    } else {
      SendJoin(o, a, b[..|b| - 1]);
      assert (a + b)[..|a + b| - 1] == a + b[..|b| - 1];
    }
  }

  lemma SendSingle(o: Output, portion: string)
    ensures Send(o, [portion]) == SendOne(o, portion)
  {
    assert [portion][..0] == [];
  }

  /** No rio_writen gives up. */
  predicate AllAccepted(o: Output, portions: seq<string>) {
    portions == [] ||
    var most, last := portions[..|portions| - 1], portions[|portions| - 1];
    AllAccepted(o, most) && Pushed(Send(o, most).script, |last|) == |last|
  }

  /** Everything arrives, in order, if and only if no rio_writen gives up; otherwise bytes are missing. */
  lemma {:induction false} SentWholeIff(o: Output, portions: seq<string>)
    ensures Send(o, portions).written == o.written + Concat(portions) <==> AllAccepted(o, portions)
    ensures |Send(o, portions).written| <= |o.written| + |Concat(portions)|
    ensures |Send(o, portions).written| == |o.written| + |Concat(portions)| ==> AllAccepted(o, portions)
  {
    if portions == [] {
      assert o.written + "" == o.written;
    } else {
      var most, last := portions[..|portions| - 1], portions[|portions| - 1];
      SentWholeIff(o, most);
      assert portions == most + [last];
      ConcatOne(most, last);
      assert (o.written + Concat(most)) + last == o.written + (Concat(most) + last);
      assert last[..|last|] == last;
    }
  }

  lemma {:induction false} ReliableSendsWhole(o: Output, portions: seq<string>)
    requires Reliable(o.script)
    ensures AllAccepted(o, portions) && Reliable(Send(o, portions).script)
    ensures Send(o, portions).written == o.written + Concat(portions)
  {
    if portions != [] {
      ReliableSendsWhole(o, portions[..|portions| - 1]);
      ReliablePushesAll(Send(o, portions[..|portions| - 1]).script, |portions[|portions| - 1]|);
    }
    SentWholeIff(o, portions);
  }

  /** A kernel that takes one byte and then refuses loses the rest, and the next write goes on. */
  lemma RefusalLoses()
    ensures Send(Output("", [Accept(1), Refuse(false)]), ["ab", "c"]).written == "ac"
  {
    var o := Output("", [Accept(1), Refuse(false)]);
    assert ["ab", "c"][..1] == ["ab"];
    SendSingle(o, "ab");
    assert [Accept(1), Refuse(false)][1..] == [Refuse(false)] && [Refuse(false)][1..] == [];
    assert Pushed(o.script, 2) == 1 && ScriptAfter(o.script, 2) == [];
    assert "ab"[..1] == "a" && "" + "a" == "a";
    assert "c"[..1] == "c";
  }
}
