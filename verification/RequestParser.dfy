/** parse_requestline of tools/parse_requestline.c: one pass over the line with the cursors
    p, rc_start and rc_end, copying components into the request data as they end. */
module RequestParser {
  import opened RequestGrammar

  const RQ_DATALEN: nat := 1024
  const LIMIT: nat := RQ_DATALEN - 1

  /** The contents of the six buffers of requestline_data_t. */
  datatype Fields = Fields(method_: string, schema: string, host: string, port: string, loc: string, version: string)

  class RequestData {
    var method_: string
    var schema: string
    var host: string
    var port: string
    var loc: string
    var version: string

    ghost function Value(): Fields
      reads this
    {
      Fields(method_, schema, host, port, loc, version)
    }
  }

  /** The fields after a scan: what was copied out, and the old contents elsewhere. */
  function Written(s: Scan, f: Fields): Fields {
    Fields(s.method_.GetOr(f.method_), s.target.schema.GetOr(f.schema), s.target.host.GetOr(f.host),
           s.target.port.GetOr(f.port), s.target.loc.GetOr(f.loc), s.version.GetOr(f.version))
  }

  /** Undefined: a component longer than its buffer was about to be copied. */
  datatype Result = Zero | MinusOne | Undefined

  function ResultOf(o: Outcome): Result {
    match o
    case Accepted(_) => Zero
    case Rejected(_) => MinusOne
    case Overrun(_) => Undefined
  }

  /** The remembered text lies between the cursors. */
  ghost predicate CursorsHold(s: Scan, line: string, p: nat, rcStart: nat, rcEnd: nat) {
    match s.state
    case StStart | StSpaceAfterMethod | StSchemaSlash | StSchemaSlashSlash
       | StColonBeforePort | StSpaceBeforeVersion | StDone => true
    case StColonAfterUri => rcStart <= rcEnd <= |line| && s.text == line[rcStart..rcEnd]
    case _ => rcStart <= p <= |line| && s.text == line[rcStart..p]
  }

  lemma Unroll(s: Scan, line: string, p: nat)
    requires p < |line| && s.state != StDone
    ensures Run(s, line[p..], LIMIT) ==
      match Step(s, line[p], LIMIT)
      case Go(s') => Run(s', line[p + 1..], LIMIT)
      case Bad(s') => Rejected(s')
      case Spill(s') => Overrun(s')
  {
    assert line[p..][1..] == line[p + 1..];
  }

  /** The local variables of parse_requestline. */
  class Parser {
    const line: string
    const rq: RequestData
    var p: nat
    var state: State
    var rcStart: nat
    var rcEnd: nat

    constructor (line: string, rq: RequestData)
      ensures this.line == line && this.rq == rq && p == 0 && state == StStart
    {
      this.line, this.rq := line, rq;
      p, state := 0, StStart;
      rcStart, rcEnd := *, *;    // rc_start and rc_end are not initialised
    }

    /** The variables and the request data agree with what the scanner remembers. */
    ghost predicate Agrees(scan: Scan, f: Fields)
      reads this, rq
    {
      && p <= |line| && state == scan.state
      && CursorsHold(scan, line, p, rcStart, rcEnd)
      && rq.Value() == Written(scan, f)
    }

    /** As Agrees, after p has moved past the next character and before the switch. */
    ghost predicate Reading(ch: char, scan: Scan, f: Fields)
      reads this, rq
    {
      && 0 < p <= |line| && line[p - 1] == ch && state == scan.state
      && CursorsHold(scan, line, p - 1, rcStart, rcEnd)
      && rq.Value() == Written(scan, f)
    }

    ghost predicate After(move: Move, r: Option<Result>, f: Fields)
      reads this, rq
    {
      match move
      case Go(scan) => r == None && Agrees(scan, f)
      case Bad(scan) => r == Some(MinusOne) && rq.Value() == Written(scan, f)
      case Spill(scan) => r == Some(Undefined) && rq.Value() == Written(scan, f)
    }

    lemma GrowText(scan: Scan)
      requires 0 < p <= |line|
      ensures rcStart < p ==> line[rcStart..p] == line[rcStart..p - 1] + [line[p - 1]]
    {
    }

    /** Lines 68-76 and 92-103. */
    method CaseStart(ch: char, ghost scan: Scan, ghost f: Fields) returns (r: Option<Result>)
      requires Reading(ch, scan, f) && (state == StStart || state == StSpaceAfterMethod)
      modifies this`state, this`rcStart, this`rcEnd, rq
      ensures After(Step(scan, ch, LIMIT), r, f)
    {
      GrowText(scan);
      match state {
        case StStart =>
          if !IsSpace(ch) {
            if ch > 'Z' || ch < 'A' {
              return Some(MinusOne);
            }
            rcStart := p - 1;
            state := StMethod;
          }
        case StSpaceAfterMethod =>
          if ch == '/' {
            state := StLoc;
            rcStart := p - 1;
          } else if ch != ' ' {
            state := StUri;
            rcStart := p - 1;
          }
      }
      return None;
    }

    /** Lines 77-91. */
    method CaseMethod(ch: char, ghost scan: Scan, ghost f: Fields) returns (r: Option<Result>)
      requires Reading(ch, scan, f) && (state == StMethod)
      modifies this`state, this`rcStart, this`rcEnd, rq
      ensures After(Step(scan, ch, LIMIT), r, f)
    {
      GrowText(scan);
      if ch == ' ' {
        state := StSpaceAfterMethod;
        rcEnd := p - 1;
        if rcEnd - rcStart > LIMIT {
          return Some(Undefined);
        }
        rq.method_ := line[rcStart..rcEnd];
        if rq.method_ != "GET" && rq.method_ != "POST" && rq.method_ != "CONNECT" && rq.method_ != "HEAD" {
          return Some(MinusOne);
        }
      } else if ch > 'Z' || ch < 'A' {
        return Some(MinusOne);
      }
      return None;
    }

    /** Lines 104-127. */
    method CaseUri(ch: char, ghost scan: Scan, ghost f: Fields) returns (r: Option<Result>)
      requires Reading(ch, scan, f) && (state == StUri)
      modifies this`state, this`rcStart, this`rcEnd, rq
      ensures After(Step(scan, ch, LIMIT), r, f)
    {
      GrowText(scan);
      if ch == ':' {
        state := StColonAfterUri;
        rcEnd := p - 1;
      } else if ch == '/' {
        state := StLoc;
        rcEnd := p - 1;
        if rcEnd - rcStart > LIMIT {
          return Some(Undefined);
        }
        rq.host := line[rcStart..rcEnd];
        rcStart := p - 1;
      } else if IsAlnum(ch) || ch == '.' || ch == '-' {
      } else if ch == ' ' {
        state := StSpaceBeforeVersion;
        rcEnd := p - 1;
        if rcEnd - rcStart > LIMIT {
          return Some(Undefined);
        }
        rq.host := line[rcStart..rcEnd];
      } else {
        return Some(MinusOne);
      }
      return None;
    }

    /** Lines 128-143. */
    method CaseColonAfterUri(ch: char, ghost scan: Scan, ghost f: Fields) returns (r: Option<Result>)
      requires Reading(ch, scan, f) && (state == StColonAfterUri)
      modifies this`state, this`rcStart, this`rcEnd, rq
      ensures After(Step(scan, ch, LIMIT), r, f)
    {
      GrowText(scan);
      if ch == '/' {
        state := StSchemaSlash;
        if rcEnd - rcStart > LIMIT {
          return Some(Undefined);
        }
        rq.schema := line[rcStart..rcEnd];
      } else if IsDigit(ch) {
        state := StPort;
        if rcEnd - rcStart > LIMIT {
          return Some(Undefined);
        }
        rq.host := line[rcStart..rcEnd];
        rcStart := p - 1;
      } else {
        return Some(MinusOne);
      }
      return None;
    }

    /** Lines 144-160 and 186-194. */
    method CaseSlashes(ch: char, ghost scan: Scan, ghost f: Fields) returns (r: Option<Result>)
      requires Reading(ch, scan, f)
      requires state == StSchemaSlash || state == StSchemaSlashSlash || state == StColonBeforePort
      modifies this`state, this`rcStart, this`rcEnd, rq
      ensures After(Step(scan, ch, LIMIT), r, f)
    {
      GrowText(scan);
      match state {
        case StSchemaSlash =>
          if ch != '/' {
            return Some(MinusOne);
          }
          state := StSchemaSlashSlash;
        case StSchemaSlashSlash =>
          if !IsAlnum(ch) {
            return Some(MinusOne);
          }
          state := StHost;
          rcStart := p - 1;
        case StColonBeforePort =>
          if !IsDigit(ch) {
            return Some(MinusOne);
          }
          state := StPort;
          rcStart := p - 1;
      }
      return None;
    }

    /** Lines 161-185, where the blank falls through into lines 186-194. */
    method CaseHost(ch: char, ghost scan: Scan, ghost f: Fields) returns (r: Option<Result>)
      requires Reading(ch, scan, f) && (state == StHost)
      modifies this`state, this`rcStart, this`rcEnd, rq
      ensures After(Step(scan, ch, LIMIT), r, f)
    {
      GrowText(scan);
      if IsAlnum(ch) || ch == '.' || ch == '-' {
      } else if ch == '/' {
        state := StLoc;
        rcEnd := p - 1;
        if rcEnd - rcStart > LIMIT {
          return Some(Undefined);
        }
        rq.host := line[rcStart..rcEnd];
        rcStart := p - 1;
      } else if ch == ':' {
        state := StColonBeforePort;
        rcEnd := p - 1;
        if rcEnd - rcStart > LIMIT {
          return Some(Undefined);
        }
        rq.host := line[rcStart..rcEnd];
      } else if ch == ' ' {
        state := StSpaceBeforeVersion;
        rcEnd := p - 1;
        if rcEnd - rcStart > LIMIT {
          return Some(Undefined);
        }
        rq.host := line[rcStart..rcEnd];
        // no break: st_colon_before_port sees the same blank
        if !IsDigit(ch) {
          return Some(MinusOne);
        }
      } else {
        return Some(MinusOne);
      }
      return None;
    }

    /** Lines 195-214. */
    method CasePort(ch: char, ghost scan: Scan, ghost f: Fields) returns (r: Option<Result>)
      requires Reading(ch, scan, f) && (state == StPort)
      modifies this`state, this`rcStart, this`rcEnd, rq
      ensures After(Step(scan, ch, LIMIT), r, f)
    {
      GrowText(scan);
      if ch == '/' {
        state := StLoc;
        rcEnd := p - 1;
        if rcEnd - rcStart > LIMIT {
          return Some(Undefined);
        }
        rq.port := line[rcStart..rcEnd];
        rcStart := p - 1;
      } else if ch == ' ' {
        state := StSpaceBeforeVersion;
        rcEnd := p - 1;
        if rcEnd - rcStart > LIMIT {
          return Some(Undefined);
        }
        rq.port := line[rcStart..rcEnd];
      } else if !IsDigit(ch) {
        return Some(MinusOne);
      }
      return None;
    }

    /** Lines 215-227. */
    method CaseLoc(ch: char, ghost scan: Scan, ghost f: Fields) returns (r: Option<Result>)
      requires Reading(ch, scan, f) && (state == StLoc)
      modifies this`state, this`rcStart, this`rcEnd, rq
      ensures After(Step(scan, ch, LIMIT), r, f)
    {
      GrowText(scan);
      if ch == ' ' {
        state := StSpaceBeforeVersion;
        rcEnd := p - 1;
        if rcEnd - rcStart > LIMIT {
          return Some(Undefined);
        }
        rq.loc := line[rcStart..rcEnd];
      } else if IsSpace(ch) {
        return Some(MinusOne);
      }
      return None;
    }

    /** Lines 228-276. */
    method CaseHttp(ch: char, ghost scan: Scan, ghost f: Fields) returns (r: Option<Result>)
      requires Reading(ch, scan, f)
      requires
        || state == StSpaceBeforeVersion || state == StH || state == StHT || state == StHTT || state == StHTTP
        || state == StHttpSlash
      modifies this`state, this`rcStart, this`rcEnd, rq
      ensures After(Step(scan, ch, LIMIT), r, f)
    {
      GrowText(scan);
      match state {
        case StSpaceBeforeVersion =>
          if ch != 'H' {
            return Some(MinusOne);
          }
          state := StH;
          rcStart := p - 1;
        case StH =>
          if ch != 'T' {
            return Some(MinusOne);
          }
          state := StHT;
        case StHT =>
          if ch != 'T' {
            return Some(MinusOne);
          }
          state := StHTT;
        case StHTT =>
          if ch != 'P' {
            return Some(MinusOne);
          }
          state := StHTTP;
        case StHTTP =>
          if ch != '/' {
            return Some(MinusOne);
          }
          state := StHttpSlash;
        case StHttpSlash =>
          if !IsDigit(ch) {
            return Some(MinusOne);
          }
          state := StVersion;
      }
      return None;
    }

    /** Lines 277-289. */
    method CaseVersion(ch: char, ghost scan: Scan, ghost f: Fields) returns (r: Option<Result>)
      requires Reading(ch, scan, f) && (state == StVersion)
      modifies this`state, this`rcStart, this`rcEnd, rq
      ensures After(Step(scan, ch, LIMIT), r, f)
    {
      GrowText(scan);
      if IsDigit(ch) || ch == '.' {
      } else if IsSpace(ch) {
        state := StDone;
        rcEnd := p - 1;
        if rcEnd - rcStart > LIMIT {
          return Some(Undefined);
        }
        rq.version := line[rcStart..rcEnd];
      } else {
        return Some(MinusOne);
      }
      return None;
    }

    method Switch(ch: char, ghost scan: Scan, ghost f: Fields) returns (r: Option<Result>)
      requires Reading(ch, scan, f) && state != StDone
      modifies this`state, this`rcStart, this`rcEnd, rq
      ensures After(Step(scan, ch, LIMIT), r, f)
    {
      match state
      case StStart | StSpaceAfterMethod => r := CaseStart(ch, scan, f);
      case StMethod => r := CaseMethod(ch, scan, f);
      case StUri => r := CaseUri(ch, scan, f);
      case StColonAfterUri => r := CaseColonAfterUri(ch, scan, f);
      case StSchemaSlash | StSchemaSlashSlash | StColonBeforePort => r := CaseSlashes(ch, scan, f);
      case StHost => r := CaseHost(ch, scan, f);
      case StPort => r := CasePort(ch, scan, f);
      case StLoc => r := CaseLoc(ch, scan, f);
      case StVersion => r := CaseVersion(ch, scan, f);
      case StSpaceBeforeVersion | StH | StHT | StHTT | StHTTP | StHttpSlash => r := CaseHttp(ch, scan, f);
    }
  }

  /** parse_requestline: the result, and every buffer, on every line. */
  method Parse(line: string, rq: RequestData) returns (r: Result)
    modifies rq
    ensures r == ResultOf(Run(INITIAL, line, LIMIT))
    ensures rq.Value() == Written(Run(INITIAL, line, LIMIT).scan, old(rq.Value()))
  {
    var ps := new Parser(line, rq);
    ghost var f := rq.Value();
    ghost var scan := INITIAL;
    assert line[0..] == line;
    while ps.p < |line| && ps.state != StDone
      invariant ps.line == line && ps.rq == rq && ps.Agrees(scan, f)
      invariant Run(INITIAL, line, LIMIT) == Run(scan, line[ps.p..], LIMIT)
      decreases |line| - ps.p
    {
      var ch := line[ps.p];
      ps.p := ps.p + 1;
      Unroll(scan, line, ps.p - 1);
      var stop := ps.Switch(ch, scan, f);
      if stop.Some? {
        return stop.value;
      }
      scan := Step(scan, ch, LIMIT).scan;
    }
    if ps.p == |line| {
      match ps.state
      case StVersion =>
        if ps.p - ps.rcStart > LIMIT {
          return Undefined;
        }
        rq.version := line[ps.rcStart..ps.p];
      case StDone =>
      case _ =>
        return MinusOne;
    } else if ps.state != StDone {
      return MinusOne;
    }
    return Zero;
  }

  // ---------------------------------------------------------------- what a caller can rely on

  /** The buffers after reading a line of the grammar: its components, with the buffers of
      absent components as they were. */
  function Fill(l: Line, f: Fields): Fields {
    Fields(l.method_, l.target.schema.GetOr(f.schema), l.target.host.GetOr(f.host),
           l.target.port.GetOr(f.port), l.target.loc.GetOr(f.loc), l.version)
  }

  /** 0 is returned exactly on the grammar's lines, and then the buffers hold the components. */
  lemma ParseMeaning(line: string, f: Fields)
    ensures ResultOf(Run(INITIAL, line, LIMIT)) == Zero <==> exists l :: IsLine(l) && Fits(l, LIMIT) && Print(l) == line
    ensures forall l | IsLine(l) && Fits(l, LIMIT) && Print(l) == line ::
      Written(Run(INITIAL, line, LIMIT).scan, f) == Fill(l, f)
  {
    AcceptsExactlyTheGrammar(line, LIMIT);
    forall l | IsLine(l) && Fits(l, LIMIT) && Print(l) == line
      ensures Written(Run(INITIAL, line, LIMIT).scan, f) == Fill(l, f)
    {
      RunComplete(l, LIMIT);
    }
  }

  const CRLF := "\r\n"

  /** A request line as clients print it. */
  function Request(method_: string, target: Target, version: string): string {
    method_ + " " + PrintTarget(target) + " " + version + CRLF
  }

  /** Printing well-formed components and parsing gives the same components back. */
  lemma RoundTrip(method_: string, target: Target, version: string, f: Fields)
    requires IsMethod(method_) && IsTarget(target) && IsVersion(version)
    requires FitsTarget(target, LIMIT) && |version| <= LIMIT
    ensures var o := Run(INITIAL, Request(method_, target, version), LIMIT);
      ResultOf(o) == Zero && Written(o.scan, f) == Fill(Line("", method_, " ", target, version, CRLF), f)
  {
    var l := Line("", method_, " ", target, version, CRLF);
    RunComplete(l, LIMIT);
    RequestIsPrint(method_, target, version);
  }

  lemma RequestIsPrint(method_: string, target: Target, version: string)
    ensures Print(Line("", method_, " ", target, version, CRLF)) == Request(method_, target, version)
  {
  }

  // ---------------------------------------------------------------- in the letters of the source

  /** Exactly four methods are accepted: a line that begins with a word that has no blank in it and is none
      of them is rejected, whatever follows, unless the word is in capitals and overruns its buffer. */
  lemma OtherMethodRejected(word: string, rest: string)
    requires word != "" && !IsSpace(word[0]) && ' ' !in word
    requires word != "GET" && word != "POST" && word != "CONNECT" && word != "HEAD"
    ensures var o := Run(INITIAL, word + " " + rest, LIMIT);
      if |word| > 1023 && forall i :: 0 <= i < |word| ==> word[i] in CAPITALS then o.Overrun? else o.Rejected?
  {
    forall i | 0 <= i < |word| ensures IsUpper(word[i]) <==> word[i] in CAPITALS {
      ClassesAre(word[i]);
    }
    assert (word + " " + rest)[1..] == word[1..] + (" " + rest);
    assert word == [word[0]] + word[1..];
    if IsUpper(word[0]) {
      WordScanned(INITIAL.(state := StMethod, text := [word[0]]), word[1..], rest);
    }
  }

  lemma {:induction false} WordScanned(s: Scan, tail: string, rest: string)
    requires s.state == StMethod && ' ' !in tail && !IsMethod(s.text + tail)
    ensures var o := Run(s, tail + (" " + rest), LIMIT);
      if All(tail, IsUpper) && |s.text + tail| > LIMIT then o.Overrun? else o.Rejected?
    decreases |tail|
  {
    if tail == "" {
      assert tail + (" " + rest) == " " + rest && s.text + tail == s.text;
    } else {
      assert tail[0] in tail;
      assert (tail + (" " + rest))[1..] == tail[1..] + (" " + rest);
      assert (s.text + [tail[0]]) + tail[1..] == s.text + tail;
      if IsUpper(tail[0]) {
        WordScanned(s.(text := s.text + [tail[0]]), tail[1..], rest);
        assert forall i :: 1 <= i < |tail| ==> tail[i] == tail[1..][i - 1];
      }
    }
  }

  /** And with each of the four a line with any loc that fits is accepted, and gives back the method, the
      loc and the version; a loc that does not fit overruns its buffer. */
  lemma MethodAccepted(method_: string, loc: string, f: Fields)
    requires method_ == "GET" || method_ == "POST" || method_ == "CONNECT" || method_ == "HEAD"
    requires loc != "" && loc[0] == '/'
    requires forall i :: 0 <= i < |loc| ==> loc[i] as int != 32 && !(9 <= loc[i] as int <= 13)
    ensures var o := Run(INITIAL, method_ + " " + loc + " HTTP/1.1\r\n", LIMIT);
      if |loc| > 1023 then o.Overrun?
      else ResultOf(o) == Zero && Written(o.scan, f) == f.(method_ := method_, loc := loc, version := "HTTP/1.1")
  {
    hide Run, Request, PrintTarget, IsSpace;
    forall i | 0 <= i < |loc| ensures !IsSpace(loc[i]) {
      ClassesAre(loc[i]);
    }
    ExampleHost("example.com");
    LocOnly(method_, loc, "HTTP/1.1", f);
    LocRequest(method_, loc, "HTTP/1.1");
  }

  lemma LocOnly(method_: string, loc: string, version: string, f: Fields)
    requires IsMethod(method_) && IsLoc(loc) && IsVersion(version) && |version| <= LIMIT
    ensures var o := Run(INITIAL, Request(method_, NO_TARGET.(loc := Some(loc)), version), LIMIT);
      if |loc| > LIMIT then o.Overrun?
      else ResultOf(o) == Zero && Written(o.scan, f) == f.(method_ := method_, loc := loc, version := version)
  {
    hide Run, Request, PrintTarget;
    var t := NO_TARGET.(loc := Some(loc));
    if |loc| > LIMIT {
      RequestIsPrint(method_, t, version);
      OverrunsIff(Line("", method_, " ", t, version, CRLF));
    } else {
      RoundTrip(method_, t, version, f);
    }
  }

  lemma LocRequest(method_: string, loc: string, version: string)
    requires version == "HTTP/1.1"
    ensures Request(method_, NO_TARGET.(loc := Some(loc)), version) == method_ + " " + loc + " HTTP/1.1\r\n"
  {
    assert " HTTP/1.1\r\n" == " " + version + CRLF;
    Together(method_ + " ", PrintTarget(NO_TARGET.(loc := Some(loc))), " ", version, CRLF);
  }

  lemma FullRequest(method_: string, schema: string, host: string, port: string, loc: string, version: string)
    requires version == "HTTP/1.1"
    ensures Request(method_, Target(Some(schema), Some(host), Some(port), Some(loc)), version)
         == method_ + " " + schema + "://" + host + ":" + port + loc + " HTTP/1.1\r\n"
  {
    var t := Target(Some(schema), Some(host), Some(port), Some(loc));
    assert " HTTP/1.1\r\n" == " " + version + CRLF;
    Together(method_ + " ", PrintTarget(t), " ", version, CRLF);
    assert method_ + " " + PrintTarget(t) == method_ + " " + schema + "://" + host + ":" + port + loc;
  }

  lemma Together(a: string, b: string, c: string, d: string, e: string)
    ensures a + b + c + d + e == a + b + (c + d + e)
  {
  }

  predicate IsPlainName(s: string) {
    && s != "" && s[0] != '.' && s[0] != '-'
    && forall i :: 0 <= i < |s| ==> s[i] in DIGITS || s[i] in CAPITALS || s[i] in SMALL || s[i] == '.' || s[i] == '-'
  }

  /** The form that clients send to a proxy, in full: each component comes back. */
  lemma FullUrlAccepted(method_: string, schema: string, host: string, port: string, loc: string, f: Fields)
    requires method_ == "GET" || method_ == "POST" || method_ == "CONNECT" || method_ == "HEAD"
    requires IsPlainName(schema) && IsPlainName(host) && |schema| <= 1023 && |host| <= 1023
    requires port != "" && |port| <= 1023 && forall i :: 0 <= i < |port| ==> port[i] in DIGITS
    requires loc != "" && loc[0] == '/' && |loc| <= 1023
    requires forall i :: 0 <= i < |loc| ==> loc[i] as int != 32 && !(9 <= loc[i] as int <= 13)
    ensures var o := Run(INITIAL, method_ + " " + schema + "://" + host + ":" + port + loc + " HTTP/1.1\r\n", LIMIT);
      ResultOf(o) == Zero && Written(o.scan, f) == Fields(method_, schema, host, port, loc, "HTTP/1.1")
  {
    hide Run, IsPlainName, Request, PrintTarget, IsDigit, IsSpace;
    forall i | 0 <= i < |loc| ensures !IsSpace(loc[i]) {
      ClassesAre(loc[i]);
    }
    forall i | 0 <= i < |port| ensures IsDigit(port[i]) {
      ClassesAre(port[i]);
    }
    PlainNameIsName(schema);
    PlainNameIsName(host);
    ExampleHost("example.com");
    var t := Target(Some(schema), Some(host), Some(port), Some(loc));
    RoundTrip(method_, t, "HTTP/1.1", f);
    FullRequest(method_, schema, host, port, loc, "HTTP/1.1");
  }

  lemma PlainNameIsName(s: string)
    requires IsPlainName(s)
    ensures IsLooseName(s) && IsStrictName(s)
  {
    forall i | 0 <= i < |s| ensures IsHostChar(s[i]) {
      ClassesAre(s[i]);
    }
    ClassesAre(s[0]);
  }

  /** The line doit sends to the server after an accepted line with a loc parses to the same
      method, loc and version, and writes neither schema, host nor port. The loc buffer is
      taken to be empty before the first parse. */
  lemma OriginFormStable(line: string, f: Fields, f': Fields)
    requires f.loc == "" && ResultOf(Run(INITIAL, line, LIMIT)) == Zero
    requires Written(Run(INITIAL, line, LIMIT).scan, f).loc != ""
    ensures var parsed := Written(Run(INITIAL, line, LIMIT).scan, f);
      var o := Run(INITIAL, parsed.method_ + " " + parsed.loc + " " + parsed.version + CRLF, LIMIT);
      && ResultOf(o) == Zero
      && Written(o.scan, f') == f'.(method_ := parsed.method_, loc := parsed.loc, version := parsed.version)
  {
    var l := AcceptedIsLine(line, LIMIT);
    RunComplete(l, LIMIT);
    var origin := NO_TARGET.(loc := l.target.loc);
    RoundTrip(l.method_, origin, l.version, f');
    assert PrintTarget(origin) == l.target.loc.value;
  }

  /** Without a loc, the line doit sends is one the parser itself would reject: it is well formed if
      and only if a loc was read. */
  lemma OriginFormIff(line: string, f: Fields)
    requires f.loc == "" && ResultOf(Run(INITIAL, line, LIMIT)) == Zero
    ensures var parsed := Written(Run(INITIAL, line, LIMIT).scan, f);
      var origin := parsed.method_ + " " + parsed.loc + " " + parsed.version + CRLF;
      ResultOf(Run(INITIAL, origin, LIMIT)) == Zero <==> parsed.loc != ""
  {
    var parsed := Written(Run(INITIAL, line, LIMIT).scan, f);
    if parsed.loc != "" {
      OriginFormStable(line, f, f);
    } else {
      var l := AcceptedIsLine(line, LIMIT);
      RunComplete(l, LIMIT);
      NoTargetRejected(l.method_, l.version, CRLF, LIMIT);
      assert l.method_ + " " + "" + " " + l.version + CRLF == l.method_ + "  " + l.version + CRLF;
    }
  }

  /** A target of section 5.3 of RFC 7230 in the characters the source allows: either a loc, or a
      host with or without schema, port and loc. */
  predicate IsRequestTarget(t: Target) {
    IsAuthority(t) && (t.loc.Some? ==> IsLoc(t.loc.value)) && (t.host.Some? || t.loc.Some?)
  }

  lemma SchemaHostAlone(method_: string, schema: string, host: string, version: string)
    requires IsMethod(method_) && IsLooseName(schema) && IsStrictName(host) && |schema| <= LIMIT && |host| <= LIMIT
    ensures Run(INITIAL, Request(method_, Target(Some(schema), Some(host), None, None), version), LIMIT)
      == Rejected(Scan(StSpaceBeforeVersion, "", Some(method_), " ", Target(Some(schema), Some(host), None, None),
                       None, host))
  {
    SchemaHostAloneRejected(method_, " ", schema, host, version + CRLF, LIMIT);
    assert Request(method_, Target(Some(schema), Some(host), None, None), version)
      == method_ + " " + (schema + "://" + host) + (" " + (version + CRLF));
  }

  /** Section 5.3.2 allows schema://host alone; the source does not. A request is accepted exactly
      if its target is not of that form; otherwise it is rejected after method, schema and host
      have been written. */
  lemma AbsoluteFormAccepted(method_: string, t: Target, version: string, f: Fields)
    requires IsMethod(method_) && IsRequestTarget(t) && IsVersion(version)
    requires FitsTarget(t, LIMIT) && |version| <= LIMIT
    ensures var o := Run(INITIAL, Request(method_, t, version), LIMIT);
      var alone := t.schema.Some? && t.port.None? && t.loc.None?;
      && ResultOf(o) == (if alone then MinusOne else Zero)
      && (alone ==> Written(o.scan, f) == f.(method_ := method_, schema := t.schema.value, host := t.host.value))
  {
    if t.schema.Some? && t.port.None? && t.loc.None? {
      SchemaHostAlone(method_, t.schema.value, t.host.value, version);
      assert t == Target(t.schema, t.host, None, None);
    } else {
      RoundTrip(method_, t, version, f);
    }
  }

  /** For example. */
  lemma RootUrlRejected(line: string)
    requires line == Request("GET", Target(Some("http"), Some("example.com"), None, None), "HTTP/1.1")
    ensures ResultOf(Run(INITIAL, line, LIMIT)) == MinusOne
  {
    SchemaHostAlone("GET", "http", "example.com", "HTTP/1.1");
  }

  /** For example, GET example.com HTTP/1.1 is accepted, and what doit sends for it would not be. */
  lemma HostAloneSendsNoLoc(line: string, f: Fields)
    requires line == Request("GET", Target(None, Some("example.com"), None, None), "HTTP/1.1") && f.loc == ""
    ensures ResultOf(Run(INITIAL, line, LIMIT)) == Zero
    ensures var parsed := Written(Run(INITIAL, line, LIMIT).scan, f);
      ResultOf(Run(INITIAL, parsed.method_ + " " + parsed.loc + " " + parsed.version + CRLF, LIMIT)) != Zero
  {
    ExampleHost("example.com");
    RoundTrip("GET", Target(None, Some("example.com"), None, None), "HTTP/1.1", f);
    OriginFormIff(line, f);
  }

  lemma ExampleHost(host: string)
    requires host == "example.com"
    ensures IsLooseName(host) && IsVersion("HTTP/1.1")
  {
    var version := "HTTP/1.1";
    assert version[..5] == "HTTP/" && version[5..] == "1.1" && "1.1"[1..] == ".1";
    assert host[1..] == "xample.com";
  }

  /** A line overruns a buffer if and only if one of its components has more than 1023 characters; a line
      of at most 1023 never does. */
  lemma OverrunsIff(l: Line)
    requires IsLine(l)
    ensures ResultOf(Run(INITIAL, Print(l), LIMIT)) == Undefined <==> !Fits(l, LIMIT)
    ensures |Print(l)| <= LIMIT ==> Fits(l, LIMIT)
  {
    LineOverrunsIff(l, LIMIT);
    OverrunIff(Print(l), LIMIT);
  }

  /** For example, a request for a loc of 1024 characters or more, which rio_readlineb can deliver. */
  lemma LongLocOverruns(loc: string)
    requires IsLoc(loc) && |loc| > LIMIT
    ensures ResultOf(Run(INITIAL, Request("GET", NO_TARGET.(loc := Some(loc)), "HTTP/1.1"), LIMIT)) == Undefined
  {
    ExampleHost("example.com");
    var l := Line("", "GET", " ", NO_TARGET.(loc := Some(loc)), "HTTP/1.1", CRLF);
    OverrunsIff(l);
    assert Print(l) == Request("GET", l.target, "HTTP/1.1");
  }

  /** The host of a line with a newline at its end only holds none. */
  lemma HostHasNoNewline(l: Line)
    requires l.target.host.Some? && forall i :: 0 <= i < |Print(l)| - 1 ==> Print(l)[i] != '\n'
    ensures '\n' !in l.target.host.value
  {
    PrintAroundHost(l);
    InTheMiddle(BeforeHost(l), l.target.host.value, AfterHost(l), Print(l));
  }

  function BeforeHost(l: Line): string {
    l.blank + l.method_ + l.gap + (if l.target.schema.Some? then l.target.schema.value + "://" else "")
  }

  function AfterHost(l: Line): string {
    (if l.target.port.Some? then ":" + l.target.port.value else "") + l.target.loc.GetOr("") + " " + l.version + l.rest
  }

  lemma PrintAroundHost(l: Line)
    requires l.target.host.Some?
    ensures Print(l) == BeforeHost(l) + l.target.host.value + AfterHost(l)
  {
    var t := l.target;
    Regrouped(l.blank + l.method_ + l.gap, if t.schema.Some? then t.schema.value + "://" else "", t.host.value,
              if t.port.Some? then ":" + t.port.value else "", t.loc.GetOr(""), " ", l.version, l.rest);
  }

  lemma Regrouped(a: string, b: string, c: string, d: string, e: string, f: string, g: string, h: string)
    ensures a + (b + c + d + e) + f + g + h == a + b + c + (d + e + f + g + h)
  {
  }

  lemma InTheMiddle(front: string, host: string, back: string, line: string)
    requires line == front + host + back && back != "" && forall i :: 0 <= i < |line| - 1 ==> line[i] != '\n'
    ensures '\n' !in host
  {
    forall i | 0 <= i < |host|
      ensures host[i] != '\n'
    {
      assert line[|front| + i] == host[i];
    }
  }
}
