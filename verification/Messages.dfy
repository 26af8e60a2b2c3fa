/** Whole messages in terms of their texts: what forward_requestheader and forward_reply of proxy.c make of
    a header line of the form name ": " word, of a length in decimal digits, of words in capitals; and what
    the server is sent for a request of complete lines and the client for a reply. */
module Messages {
  import opened Rio
  import opened Chunked
  import opened Headers
  import opened Exchange
  import Numerals
  import RequestGrammar

  // ---------------------------------------------------------------- numbers

  predicate NoDigitFirst(s: string) {
    s == "" || s[0] !in "0123456789"
  }

  lemma {:induction false} DigitsFrom(s: string, k: nat, rest: string)
    requires k <= |s| && NoDigitFirst(rest)
    requires forall i :: 0 <= i < |s| ==> '0' <= s[i] <= '9'
    ensures Digits(s[k..] + rest, Numerals.Value(s[..k], 10)) == Numerals.Value(s, 10)
    decreases |s| - k
  {
    if k == |s| {
      assert s[k..] + rest == rest && s[..k] == s;
      DigitInAlphabet(rest);
    } else {
      assert (s[k..] + rest)[0] == s[k] && (s[k..] + rest)[1..] == s[k + 1..] + rest;
      assert s[..k + 1][..k] == s[..k];
      DigitsFrom(s, k + 1, rest);
    }
  }

  lemma DigitInAlphabet(s: string)
    requires NoDigitFirst(s)
    ensures s == "" || !('0' <= s[0] <= '9')
  {
  }

  lemma DigitsOfNumeral(v: nat, rest: string)
    requires NoDigitFirst(rest)
    ensures Digits(Numerals.Numeral(v, 10) + rest, 0) == v
    ensures '0' <= Numerals.Numeral(v, 10)[0] <= '9'
  {
    var s := Numerals.Numeral(v, 10);
    Numerals.NumeralValue(v, 10);
    forall i | 0 <= i < |s| ensures '0' <= s[i] <= '9' {
      assert Numerals.IsDigitOf(s[i], 10);
    }
    DigitsFrom(s, 0, rest);
    assert s[..0] == "" && s[0..] == s;
  }

  /** atoi reads back every number that is printed in decimal, with a sign or without and whatever stands
      behind it but a digit. */
  lemma AtoiOfText(v: int, rest: string)
    requires NoDigitFirst(rest)
    ensures Atoi(Numerals.Text(v, 10) + rest) == v
    ensures v >= 0 ==> Atoi("+" + Numerals.Text(v, 10) + rest) == v
  {
    hide Digits, Numerals.Numeral;
    var s := Numerals.Numeral(if v < 0 then -v else v, 10);
    DigitsOfNumeral(if v < 0 then -v else v, rest);
    if v < 0 {
      assert (Numerals.Text(v, 10) + rest)[1..] == s + rest;
    } else {
      assert ("+" + s + rest)[1..] == s + rest;
    }
  }

  // ---------------------------------------------------------------- words

  predicate IsSmallOrCapital(c: char, small: char) {
    c == small || exists k :: 0 <= k < 26 && RequestGrammar.SMALL[k] == small && RequestGrammar.CAPITALS[k] == c
  }

  /** The same letters, in capitals or not. */
  predicate Alike(s: string, word: string) {
    |s| == |word| && forall i :: 0 <= i < |word| ==> IsSmallOrCapital(s[i], word[i])
  }

  function LowerOf(c: char): char {
    if 'A' <= c <= 'Z' then c - 'A' + 'a' else c
  }

  lemma LowerOfIs(c: char, small: char)
    requires small in RequestGrammar.SMALL
    ensures LowerOf(c) == small <==> IsSmallOrCapital(c, small)
  {
    if 'A' <= c <= 'Z' {
      var k := (c - 'A') as nat;
      RequestGrammar.LetterAt(k);
      assert RequestGrammar.CAPITALS[k] == c && RequestGrammar.SMALL[k] == LowerOf(c);
    }
    forall k | 0 <= k < 26 && RequestGrammar.CAPITALS[k] == c
      ensures LowerOf(c) == RequestGrammar.SMALL[k]
    {
      RequestGrammar.LetterAt(k);
    }
  }

  lemma {:induction false} LowerIs(s: string)
    ensures |Lower(s)| == |s| && forall i :: 0 <= i < |s| ==> Lower(s)[i] == LowerOf(s[i])
  {
    if s != "" {
      LowerIs(s[1..]);
    }
  }

  /** strcasecmp finds two words equal if and only if they have the same letters. */
  lemma IsWordIff(s: string, word: string)
    requires forall i :: 0 <= i < |word| ==> word[i] in RequestGrammar.SMALL
    ensures IsWord(s, word) <==> Alike(s, word)
  {
    LowerIs(s);
    if |s| == |word| {
      forall i | 0 <= i < |s| ensures Lower(s)[i] == word[i] <==> IsSmallOrCapital(s[i], word[i]) {
        LowerOfIs(s[i], word[i]);
      }
    }
  }

  // ---------------------------------------------------------------- one header line

  predicate AboutConnection(name: string) {
    name == "Connection" || name == "Proxy-Connection"
  }

  /** The values that can be noted. */
  predicate CanHold(name: string, word: string) {
    && (name == "Transfer-Encoding" || Alike(name, "trailer") ==> |word| <= 95)
    && (name == "Content-length" ==> -2147483648 <= Atoi(word) <= 2147483647)
  }

  /** What the line name ": " word makes of the state. */
  ghost predicate Makes(h: Headers, name: string, word: string, h': Headers) {
    && h'.out == h.out + (if AboutConnection(name) then [] else [name + ": " + word + "\r\n"])
    && (h'.setClose <==> h.setClose || (AboutConnection(name) && Alike(word, "close")))
    && (h'.hostSet <==> h.hostSet || name == "Host")
    && (h'.lengthSet <==> h.lengthSet || name == "Content-length")
    && h'.length == (if name == "Content-length" then Atoi(word) else h.length)
    && h'.encoding == (if name == "Transfer-Encoding" then word else h.encoding)
    && h'.trailer == (if Alike(name, "trailer") then word else h.trailer)
  }

  /** A line of a name and a word stops the loop if and only if its value cannot be noted, and otherwise is
      passed on, and noted, by its name; case matters in the names but for trailer, and not in the word
      close. */
  lemma PlainLineMakes(h: Headers, name: string, word: string)
    requires IsPlainText(name) && IsPlainText(word) && |name| + |word| <= 8187
    ensures var line := name + ": " + word + "\r\n";
      && IsHeaderLine(line) && Name(line) == name && Word(line) == word
      && (Fits(line) <==> CanHold(name, word)) && (StepCanNote(h, line) <==> CanHold(name, word))
      && Makes(h, name, word, Step(h, line))
  {
    hide Name, Word, Atoi, IsWord, FitsLine, Step, Alike;
    var line := PlainLine(name, word);
    PlainParts(name, word);
    PlainFits(name, word);
    StepAdvances(h, line);
    FitsIsCanNote(h, line);
    IsWordIff(name, "trailer");
    IsWordIff(word, "close");
    if AboutConnection(name) {
      ConnectionIsNoTrailer(name);
    }
  }

  // ---------------------------------------------------------------- a length in decimal

  lemma {:induction false} LastLengthAfter(lines: seq<string>, before: int)
    requires !Names(lines, "Content-length")
    ensures LastLength(lines, before) == before
  {
    hide Name, Word, Atoi;
    if lines != [] {
      NamesCons(lines, "Content-length");
      LastLengthAfter(lines[1..], before);
    }
  }

  lemma {:induction false} LastLengthIs(before: seq<string>, line: string, after: seq<string>, start: int)
    requires Name(line) == "Content-length" && !Names(after, "Content-length")
    ensures LastLength(before + [line] + after, start) == Atoi(Word(line))
    decreases |before|
  {
    hide Name, Word, Atoi;
    var lines := before + [line] + after;
    if before == [] {
      assert lines[1..] == after;
      LastLengthAfter(after, Atoi(Word(line)));
    } else {
      assert lines[1..] == before[1..] + [line] + after;
      var next := if Name(before[0]) == "Content-length" then Atoi(Word(before[0])) else start;
      LastLengthIs(before[1..], line, after, next);
    }
  }

  /** The body due is the one announced: after header lines of which the last named Content-length holds the
      number n in decimal, and without a chunked encoding, exactly n bytes are due, if a buffer of n + 1
      bytes can be had. */
  lemma LengthAnnounced(h: Headers, before: seq<string>, n: nat, after: seq<string>, rest: seq<Item>)
    requires AreHeaderLines(before) && AreHeaderLines(after) && AllFit(before) && AllFit(after) && NoErrors(rest)
    requires !Names(after, "Content-length") && h.encoding == "" && |Numerals.Text(n, 10)| <= 8000
    requires var lines := before + ["Content-length: " + Numerals.Text(n, 10) + "\r\n"] + after;
      !Alike(LastEncoding(lines, ""), "chunked")
    ensures var lines := before + ["Content-length: " + Numerals.Text(n, 10) + "\r\n"] + after;
      && NoErrors(Bytes(Concat(lines) + "\r\n") + rest)
      && var b := ReadBlock(h, Bytes(Concat(lines) + "\r\n") + rest);
         if n > 2147483647 then b.end == Spilled
         else
           && b.end == EmptyLine && b.rest == rest
           && DueBody(b.headers) == if n <= 2147483646 then Counted(n) else Broken
  {
    var text := Numerals.Text(n, 10);
    var line := "Content-length: " + text + "\r\n";
    var lines := before + [line] + after;
    DecimalLine(h, n, line);
    AroundLine(before, line, after);
    LastLengthIs(before, line, after, h.length);
    LengthDue(h, lines, n, rest);
  }

  lemma DecimalLine(h: Headers, n: nat, line: string)
    requires line == "Content-length: " + Numerals.Text(n, 10) + "\r\n" && |Numerals.Text(n, 10)| <= 8000
    ensures IsHeaderLine(line) && Name(line) == "Content-length"
    ensures Atoi(Word(line)) == n && (Fits(line) <==> n <= 2147483647)
  {
    hide Atoi, Name, Word, Alike, IsPlainText, IsHeaderLine, Makes, StepCanNote, Fits, Numerals.Text, CanHold;
    var text := Numerals.Text(n, 10);
    DecimalIsPlain(n);
    LengthLine(h, "Content-length", text);
    CanHoldLength("Content-length", text);
    AtoiOfText(n, "");
    assert text + "" == text;
  }

  lemma LengthLine(h: Headers, name: string, text: string)
    requires name == "Content-length" && IsPlainText(name) && IsPlainText(text) && |text| <= 8000
    ensures var line := "Content-length: " + text + "\r\n";
      IsHeaderLine(line) && Name(line) == name && Word(line) == text && (Fits(line) <==> CanHold(name, text))
  {
    hide Atoi, Name, Word, Alike, IsPlainText, IsHeaderLine, Makes, StepCanNote, Fits, CanHold;
    PlainLineMakes(h, name, text);
    assert "Content-length: " + text + "\r\n" == name + ": " + text + "\r\n";
  }

  lemma CanHoldLength(name: string, text: string)
    requires name == "Content-length"
    ensures CanHold(name, text) <==> -2147483648 <= Atoi(text) <= 2147483647
  {
    NotAlike(name, "trailer");
  }

  lemma NotAlike(s: string, word: string)
    requires |s| != |word|
    ensures !Alike(s, word)
  {
  }

  lemma DecimalIsPlain(n: nat)
    ensures IsPlainText(Numerals.Text(n, 10)) && IsPlainText("Content-length")
  {
    var s := Numerals.Numeral(n, 10);
    Numerals.NumeralValue(n, 10);
    forall i | 0 <= i < |s| ensures s[i] != ':' && s[i] != '\0' && !RequestGrammar.IsSpace(s[i]) {
      assert Numerals.IsDigitOf(s[i], 10);
    }
  }

  lemma AroundLine(before: seq<string>, line: string, after: seq<string>)
    ensures var lines := before + [line] + after;
      && (AreHeaderLines(before) && IsHeaderLine(line) && AreHeaderLines(after) ==> AreHeaderLines(lines))
      && (AllFit(before) && AllFit(after) ==> (AllFit(lines) <==> Fits(line)))
      && Names(lines, Name(line))
  {
    hide Name, Fits, IsHeaderLine;
    var lines := before + [line] + after;
    assert lines[|before|] == line;
  }

  lemma LengthDue(h: Headers, lines: seq<string>, n: nat, rest: seq<Item>)
    requires AreHeaderLines(lines) && NoErrors(rest) && h.encoding == "" && Names(lines, "Content-length")
    requires LastLength(lines, h.length) == n && (AllFit(lines) <==> n <= 2147483647)
    requires !Alike(LastEncoding(lines, ""), "chunked")
    ensures NoErrors(Bytes(Concat(lines) + "\r\n") + rest)
    ensures var b := ReadBlock(h, Bytes(Concat(lines) + "\r\n") + rest);
      if n > 2147483647 then b.end == Spilled
      else b.end == EmptyLine && b.rest == rest && DueBody(b.headers) == if n <= 2147483646 then Counted(n) else Broken
  {
    hide AreHeaderLines, AllFit, Steps, Concat, ReadBlock, LastEncoding, LastLength, Names, IsWord, Alike;
    ReadBlockOfLines(h, lines, rest);
    FilterLines(h, lines);
    IsWordIff(LastEncoding(lines, ""), "chunked");
  }

  // ---------------------------------------------------------------- the whole request

  /** The body that goes with the header lines of a message: refusal is the answer to a body without a
      length. */
  ghost predicate BodyOf(lines: seq<string>, rest: seq<Item>, refusal: string, scratch: string,
      ending: Chunked.Ending, body: seq<string>, left: seq<Item>)
  {
    if Alike(LastEncoding(lines, ""), "chunked") then
      && |scratch| == 8192
      && var p := PassBody(LastTrailer(lines, "") != "", scratch, rest);
         ending == p.ending && body == p.out && left == p.rest
    else if !Names(lines, "Content-length") then
      ending == Finished && body == [refusal] && left == rest
    else
      var n := LastLength(lines, 0);
      if 0 <= n <= 2147483646 then
        ending == Finished && |body| == 1 && |body[0]| == n
        && TakeN(rest, n).bytes <= body[0] && left == TakeN(rest, n).rest
      else ending == Undefined
  }

  /** What the server is sent for a request of complete lines that can be noted: the request line, the two
      close lines, the lines that are kept, the empty line or the host twice, and the body of a POST. */
  lemma RequestSent(junk: Junk, method_: string, host: string, loc: string, version: string,
      lines: seq<string>, rest: seq<Item>, scratch: string, ending: Chunked.Ending, body: seq<string>, left: seq<Item>)
    requires AreHeaderLines(lines) && AllFit(lines) && NoErrors(rest)
    ensures var items := Bytes(Concat(lines) + "\r\n") + rest;
      && NoErrors(items)
      && RequestPortions(junk, host, RequestLine(method_, loc, version), items, body)
         == [method_ + " " + loc + " " + version + "\r\n"] + ["Connection: close\r\n", "Proxy-Connection: close\r\n"]
            + Kept(lines) + (if Names(lines, "Host") then ["\r\n"] else ["Host: " + host, "Host: " + host]) + body
      && (RequestBody(junk, method_, items, scratch, ending, body, left) ==>
            if method_ == "POST" then BodyOf(lines, rest, "HTTP/1.0 400 Bad request\r\n", scratch, ending, body, left)
            else ending == Finished && body == [] && left == rest)
  {
    hide AreHeaderLines, AllFit, Concat, ReadBlock, LastEncoding, LastLength, LastTrailer, Names, IsWord, Alike;
    var h := Fresh(junk, false, false);
    ReadBlockOfLines(h, lines, rest);
    HeaderPortionsOfLines(h, lines, rest, host);
    DueFromLines(h, lines, Steps(h, lines), rest);
    IsWordIff(LastEncoding(lines, ""), "chunked");
    Flatten([RequestLine(method_, loc, version)], CLOSE_LINES, Kept(lines), BlockEnd(Names(lines, "Host"), host), body);
  }

  lemma Flatten(a: seq<string>, b: seq<string>, c: seq<string>, d: seq<string>, e: seq<string>)
    ensures a + (b + ((c + d) + e)) == a + b + c + d + e
  {
  }

  // ---------------------------------------------------------------- the whole reply

  /** What the client is sent for a reply of complete lines that can be noted: its status line, the two
      close lines if the connection is about to be closed, the lines that are kept, the empty line and the
      body. */
  lemma ReplySent(junk: Junk, last: bool, closing: bool, status: string, lines: seq<string>, rest: seq<Item>,
      scratch: string, ending: Chunked.Ending, body: seq<string>, left: seq<Item>)
    requires FitsLine(status) && '\0' !in status && AreHeaderLines(lines) && AllFit(lines) && NoErrors(rest)
    ensures var items := Bytes(status) + (Bytes(Concat(lines) + "\r\n") + rest);
      && NoErrors(items)
      && ReplyPortions(junk, last, closing, items, body)
         == [status] + (if last then ["Connection: close\r\n", "Proxy-Connection: close\r\n"] else [])
            + Kept(lines) + ["\r\n"] + body
      && (ReplyBody(junk, closing, items, scratch, ending, body, left) ==>
            BodyOf(lines, rest, "HTTP/1.0 400 Bad reply\r\n", scratch, ending, body, left))
  {
    hide AreHeaderLines, AllFit, Concat, ReadBlock, LastEncoding, LastLength, LastTrailer, Names, IsWord, Alike;
    hide TakeLine;
    var h := Fresh(junk, true, closing);
    AfterStatus(status, lines, rest);
    CStringOfText(status);
    ReadBlockOfLines(h, lines, rest);
    HeaderPortionsOfLines(h, lines, rest, "");
    DueFromLines(h, lines, Steps(h, lines), rest);
    IsWordIff(LastEncoding(lines, ""), "chunked");
    Flatten([status], if last then CLOSE_LINES else [], Kept(lines), [CRLF], body);
    Unflatten([status], if last then CLOSE_LINES else [], (Kept(lines) + [CRLF]) + body);
  }

  lemma Unflatten(a: seq<string>, b: seq<string>, c: seq<string>)
    ensures (a + b) + c == a + (b + c)
  {
  }

  /** The version of a reply is the first word of its status line. */
  lemma VersionOfStatus(version: string, more: string, junk: string)
    requires IsPlainText(version) && (more == "" || RequestGrammar.IsSpace(more[0]))
    ensures VersionOf(version + more, junk) == version
  {
    var s := version + more;
    UpToIs(s, c => !RequestGrammar.IsSpace(c), 0);
    assert s[0..] == s;
    UpToIs(s, c => RequestGrammar.IsSpace(c), |version|);
  }
}
