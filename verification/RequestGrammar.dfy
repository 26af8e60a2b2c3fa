/** The request lines that tools/parse_requestline.c accepts, as a grammar; and its state
    machine as a scanner that remembers the text of every component it has passed.
    The format is that of sections 3.1.1 and 5.3 of RFC 7230, as far as the source
    implements it. Characters stand for bytes; a line holds no NUL. */
module RequestGrammar {

  datatype Option<T> = None | Some(value: T) {
    function GetOr(default: T): T {
      if Some? then value else default
    }
  }

  // ---------------------------------------------------------------- characters (C locale)

  predicate IsSpace(c: char) {
    c == ' ' || c == '\t' || c == '\n' || c == '\U{0B}' || c == '\U{0C}' || c == '\r'
  }

  predicate IsUpper(c: char) {
    'A' <= c <= 'Z'
  }

  predicate IsDigit(c: char) {
    '0' <= c <= '9'
  }

  predicate IsHostChar(c: char) {
    IsAlnum(c) || c == '.' || c == '-'
  }

  predicate IsAlnum(c: char) {
    IsDigit(c) || IsUpper(c) || 'a' <= c <= 'z'
  }

  const DIGITS := "0123456789"
  const CAPITALS := "ABCDEFGHIJKLMNOPQRSTUVWXYZ"
  const SMALL := "abcdefghijklmnopqrstuvwxyz"

  lemma LetterAt(k: nat)
    requires k < 26
    ensures CAPITALS[k] == 'A' + k as char && SMALL[k] == 'a' + k as char
  {
  }

  lemma DigitAt(k: nat)
    requires k < 10
    ensures DIGITS[k] == '0' + k as char
  {
  }

  /** The classes as alphabets, and white space by its codes. */
  lemma ClassesAre(c: char)
    ensures IsSpace(c) <==> c as int == 32 || 9 <= c as int <= 13
    ensures IsDigit(c) <==> c in DIGITS
    ensures IsUpper(c) <==> c in CAPITALS
    ensures IsAlnum(c) <==> c in DIGITS || c in CAPITALS || c in SMALL
  {
    if IsDigit(c) {
      DigitAt((c - '0') as nat);
    } else if IsUpper(c) {
      LetterAt((c - 'A') as nat);
    } else if IsAlnum(c) {
      LetterAt((c - 'a') as nat);
    }
    forall k | 0 <= k < 26 ensures CAPITALS[k] == 'A' + k as char && SMALL[k] == 'a' + k as char {
      LetterAt(k);
    }
    forall k | 0 <= k < 10 ensures DIGITS[k] == '0' + k as char {
      DigitAt(k);
    }
  }

  // ---------------------------------------------------------------- the grammar

  /** [schema "://"] [host] [":" port] [loc] */
  datatype Target = Target(schema: Option<string>, host: Option<string>, port: Option<string>, loc: Option<string>)

  const NO_TARGET := Target(None, None, None, None)

  datatype Line = Line(blank: string, method_: string, gap: string, target: Target, version: string, rest: string)

  predicate All(s: string, p: char -> bool) {
    forall i :: 0 <= i < |s| ==> p(s[i])
  }

  predicate IsMethod(s: string) {
    s == "GET" || s == "POST" || s == "CONNECT" || s == "HEAD"
  }

  /** A name in the place where schema and host are not told apart yet: its first character is
      not checked at all, except that a blank or a slash there is read as something else. */
  predicate IsLooseName(s: string) {
    s != "" && s[0] != ' ' && s[0] != '/' && All(s[1..], IsHostChar)
  }

  /** A host after "://". */
  predicate IsStrictName(s: string) {
    s != "" && IsAlnum(s[0]) && All(s[1..], IsHostChar)
  }

  predicate IsPort(s: string) {
    s != "" && All(s, IsDigit)
  }

  predicate IsLoc(s: string) {
    s != "" && s[0] == '/' && All(s, c => !IsSpace(c))
  }

  predicate IsVersionTail(s: string) {
    s != "" && IsDigit(s[0]) && All(s[1..], c => IsDigit(c) || c == '.')
  }

  predicate IsVersion(s: string) {
    |s| > 5 && s[..5] == "HTTP/" && IsVersionTail(s[5..])
  }

  /** Schema, host and port as they may stand before loc. */
  predicate IsAuthority(t: Target) {
    && (t.host.None? ==> t.schema.None? && t.port.None?)
    && (t.host.Some? && t.schema.None? ==> IsLooseName(t.host.value))
    && (t.host.Some? && t.schema.Some? ==> IsLooseName(t.schema.value) && IsStrictName(t.host.value))
    && (t.port.Some? ==> IsPort(t.port.value))
  }

  /** The accepted targets. A schema with a host needs a port or a loc as well. */
  predicate IsTarget(t: Target) {
    && IsAuthority(t)
    && (t.loc.Some? ==> IsLoc(t.loc.value))
    && (t.host.None? || t.schema.Some? ==> t.port.Some? || t.loc.Some?)
  }

  predicate IsLine(l: Line) {
    && All(l.blank, IsSpace)
    && IsMethod(l.method_)
    && l.gap != "" && All(l.gap, c => c == ' ')
    && IsTarget(l.target)
    && IsVersion(l.version)
    && (l.rest == "" || IsSpace(l.rest[0]))
  }

  function PrintTarget(t: Target): string {
    (if t.schema.Some? then t.schema.value + "://" else "")
    + t.host.GetOr("")
    + (if t.port.Some? then ":" + t.port.value else "")
    + t.loc.GetOr("")
  }

  function Print(l: Line): string {
    l.blank + l.method_ + l.gap + PrintTarget(l.target) + " " + l.version + l.rest
  }

  predicate FitsOption(o: Option<string>, limit: nat) {
    o.Some? ==> |o.value| <= limit
  }

  predicate FitsTarget(t: Target, limit: nat) {
    FitsOption(t.schema, limit) && FitsOption(t.host, limit) && FitsOption(t.port, limit) && FitsOption(t.loc, limit)
  }

  /** Every component fits in a buffer for limit characters and a NUL. */
  predicate Fits(l: Line, limit: nat) {
    |l.method_| <= limit && FitsTarget(l.target, limit) && |l.version| <= limit
  }

  // ---------------------------------------------------------------- the scanner

  datatype State =
    | StStart | StMethod | StSpaceAfterMethod | StUri | StColonAfterUri
    | StSchemaSlash | StSchemaSlashSlash | StHost | StColonBeforePort | StPort | StLoc
    | StSpaceBeforeVersion | StH | StHT | StHTT | StHTTP | StHttpSlash | StVersion | StDone

  /** The scanner's state, the components copied out so far, and the text since rc_start. */
  datatype Scan = Scan(
    state: State,
    blank: string,
    method_: Option<string>,
    gap: string,
    target: Target,
    version: Option<string>,
    text: string)

  const INITIAL := Scan(StStart, "", None, "", NO_TARGET, None, "")

  /** Go on, reject, or copy more characters than the destination holds. What a C program
      does after the last is undefined; the model stops there. */
  datatype Move = Go(scan: Scan) | Bad(scan: Scan) | Spill(scan: Scan)

  function Expect(s: Scan, ok: bool, next: State, text: string): Move {
    if ok then Go(s.(state := next, text := text)) else Bad(s)
  }

  function CopyHost(s: Scan, limit: nat, next: State, text: string): Move {
    if |s.text| > limit then Spill(s)
    else Go(s.(state := next, target := s.target.(host := Some(s.text)), text := text))
  }

  function CopyPort(s: Scan, limit: nat, next: State, text: string): Move {
    if |s.text| > limit then Spill(s)
    else Go(s.(state := next, target := s.target.(port := Some(s.text)), text := text))
  }

  function Step(s: Scan, ch: char, limit: nat): Move
    requires s.state != StDone
  {
    match s.state
    case StStart =>
      if IsSpace(ch) then Go(s.(blank := s.blank + [ch]))
      else Expect(s, IsUpper(ch), StMethod, [ch])
    case StMethod =>
      if ch == ' ' then
        if |s.text| > limit then Spill(s)
        else
          var s' := s.(state := StSpaceAfterMethod, method_ := Some(s.text), gap := " ", text := "");
          if IsMethod(s.text) then Go(s') else Bad(s')
      else Expect(s, IsUpper(ch), StMethod, s.text + [ch])
    case StSpaceAfterMethod =>
      if ch == ' ' then Go(s.(gap := s.gap + [ch]))
      else Go(s.(state := if ch == '/' then StLoc else StUri, text := [ch]))
    case StUri =>
      if ch == ':' then Go(s.(state := StColonAfterUri))
      else if ch == '/' then CopyHost(s, limit, StLoc, [ch])
      else if IsHostChar(ch) then Go(s.(text := s.text + [ch]))
      else if ch == ' ' then CopyHost(s, limit, StSpaceBeforeVersion, "")
      else Bad(s)
    case StColonAfterUri =>
      if ch == '/' then
        if |s.text| > limit then Spill(s)
        else Go(s.(state := StSchemaSlash, target := s.target.(schema := Some(s.text)), text := ""))
      else if IsDigit(ch) then CopyHost(s, limit, StPort, [ch])
      else Bad(s)
    case StSchemaSlash => Expect(s, ch == '/', StSchemaSlashSlash, "")
    case StSchemaSlashSlash => Expect(s, IsAlnum(ch), StHost, [ch])
    case StHost =>
      if IsHostChar(ch) then Go(s.(text := s.text + [ch]))
      else if ch == '/' then CopyHost(s, limit, StLoc, [ch])
      else if ch == ':' then CopyHost(s, limit, StColonBeforePort, "")
      else if ch == ' ' then
        // falls through into st_colon_before_port, which rejects the blank
        if |s.text| > limit then Spill(s)
        else Bad(s.(state := StSpaceBeforeVersion, target := s.target.(host := Some(s.text))))
      else Bad(s)
    case StColonBeforePort => Expect(s, IsDigit(ch), StPort, [ch])
    case StPort =>
      if ch == '/' then CopyPort(s, limit, StLoc, [ch])
      else if ch == ' ' then CopyPort(s, limit, StSpaceBeforeVersion, "")
      else Expect(s, IsDigit(ch), StPort, s.text + [ch])
    case StLoc =>
      if ch == ' ' then
        if |s.text| > limit then Spill(s)
        else Go(s.(state := StSpaceBeforeVersion, target := s.target.(loc := Some(s.text)), text := ""))
      else Expect(s, !IsSpace(ch), StLoc, s.text + [ch])
    case StSpaceBeforeVersion => Expect(s, ch == 'H', StH, [ch])
    case StH => Expect(s, ch == 'T', StHT, s.text + [ch])
    case StHT => Expect(s, ch == 'T', StHTT, s.text + [ch])
    case StHTT => Expect(s, ch == 'P', StHTTP, s.text + [ch])
    case StHTTP => Expect(s, ch == '/', StHttpSlash, s.text + [ch])
    case StHttpSlash => Expect(s, IsDigit(ch), StVersion, s.text + [ch])
    case StVersion =>
      if IsDigit(ch) || ch == '.' then Go(s.(text := s.text + [ch]))
      else if IsSpace(ch) then
        if |s.text| > limit then Spill(s)
        else Go(s.(state := StDone, version := Some(s.text)))
      else Bad(s)
  }

  datatype Outcome = Accepted(scan: Scan) | Rejected(scan: Scan) | Overrun(scan: Scan)

  /** The whole of the loop and of the switch after it, from a scanner state on. */
  function Run(s: Scan, line: string, limit: nat): Outcome
    decreases |line|
  {
    if s.state == StDone then Accepted(s)
    else if line == "" then
      if s.state != StVersion then Rejected(s)
      else if |s.text| > limit then Overrun(s)
      else Accepted(s.(state := StDone, version := Some(s.text)))
    else
      match Step(s, line[0], limit)
      case Go(s') => Run(s', line[1..], limit)
      case Bad(s') => Rejected(s')
      case Spill(s') => Overrun(s')
  }

  // ---------------------------------------------------------------- soundness

  function Front(s: Scan): string {
    s.blank + s.method_.GetOr("") + s.gap + PrintTarget(s.target)
  }

  /** The characters the scanner has consumed, put together again from what it remembers. */
  function Consumed(s: Scan): string {
    match s.state
    case StColonAfterUri => Front(s) + s.text + ":"
    case StSchemaSlash => s.blank + s.method_.GetOr("") + s.gap + s.target.schema.GetOr("") + ":/"
    case StColonBeforePort => Front(s) + ":"
    case StPort => Front(s) + ":" + s.text
    case StSpaceBeforeVersion => Front(s) + " "
    case StH | StHT | StHTT | StHTTP | StHttpSlash | StVersion | StDone => Front(s) + " " + s.text
    case _ => Front(s) + s.text
  }

  predicate IsHead(s: Scan) {
    && All(s.blank, IsSpace)
    && s.method_.Some? && IsMethod(s.method_.value)
    && s.gap != "" && All(s.gap, c => c == ' ')
    && s.version.None?
  }

  /** What each state knows about the components. */
  predicate WellFormed(s: Scan) {
    match s.state
    case StStart => All(s.blank, IsSpace) && s == INITIAL.(blank := s.blank)
    case StMethod =>
      All(s.blank, IsSpace) && s == INITIAL.(state := StMethod, blank := s.blank, text := s.text)
    case StSpaceAfterMethod => IsHead(s) && s.target == NO_TARGET && s.text == ""
    case StUri => IsHead(s) && s.target == NO_TARGET && IsLooseName(s.text)
    case StColonAfterUri => IsHead(s) && s.target == NO_TARGET && IsLooseName(s.text)
    case StSchemaSlash | StSchemaSlashSlash =>
      IsHead(s) && s.target.schema.Some? && IsLooseName(s.target.schema.value)
      && s.target == NO_TARGET.(schema := s.target.schema) && s.text == ""
    case StHost =>
      IsHead(s) && s.target.schema.Some? && IsLooseName(s.target.schema.value)
      && s.target == NO_TARGET.(schema := s.target.schema) && IsStrictName(s.text)
    case StColonBeforePort => IsHead(s) && IsAuthority(s.target) && OnlyHost(s.target) && s.text == ""
    case StPort => IsHead(s) && IsAuthority(s.target) && OnlyHost(s.target) && IsPort(s.text)
    case StLoc => IsHead(s) && IsAuthority(s.target) && s.target.loc.None? && IsLoc(s.text)
    case StSpaceBeforeVersion => IsHead(s) && IsTarget(s.target) && s.text == ""
    case StH => IsHead(s) && IsTarget(s.target) && s.text == "H"
    case StHT => IsHead(s) && IsTarget(s.target) && s.text == "HT"
    case StHTT => IsHead(s) && IsTarget(s.target) && s.text == "HTT"
    case StHTTP => IsHead(s) && IsTarget(s.target) && s.text == "HTTP"
    case StHttpSlash => IsHead(s) && IsTarget(s.target) && s.text == "HTTP/"
    case StVersion => IsHead(s) && IsTarget(s.target) && IsVersion(s.text)
    case StDone =>
      IsHead(s.(version := None)) && IsTarget(s.target) && IsVersion(s.text) && s.version == Some(s.text)
  }

  predicate OnlyHost(t: Target) {
    t.host.Some? && t.port.None? && t.loc.None?
  }

  lemma NameSnoc(s: string, c: char)
    requires IsHostChar(c)
    ensures IsLooseName(s) ==> IsLooseName(s + [c])
    ensures IsStrictName(s) ==> IsStrictName(s + [c])
  {
    if s != "" {
      assert (s + [c])[1..] == s[1..] + [c];
    }
  }

  lemma VersionSnoc(s: string, c: char)
    requires IsVersion(s) && (IsDigit(c) || c == '.')
    ensures IsVersion(s + [c])
  {
    assert (s + [c])[..5] == s[..5];
    assert (s + [c])[5..] == s[5..] + [c];
    assert (s[5..] + [c])[1..] == s[5..][1..] + [c];
  }

  predicate InHead(s: Scan) {
    s.state.StStart? || s.state.StMethod? || s.state.StSpaceAfterMethod?
  }

  predicate InName(s: Scan) {
    s.state.StUri? || s.state.StColonAfterUri? || s.state.StSchemaSlash? || s.state.StSchemaSlashSlash?
  }

  predicate InHost(s: Scan) {
    s.state.StHost? || s.state.StColonBeforePort?
  }

  predicate InTail(s: Scan) {
    s.state.StPort? || s.state.StLoc?
  }

  predicate InVersion(s: Scan) {
    || s.state.StSpaceBeforeVersion? || s.state.StH? || s.state.StHT? || s.state.StHTT? || s.state.StHTTP?
    || s.state.StHttpSlash? || s.state.StVersion?
  }

  lemma HeadKeepsWellFormed(s: Scan, ch: char, limit: nat)
    requires InHead(s) && WellFormed(s) && Step(s, ch, limit).Go?
    ensures WellFormed(Step(s, ch, limit).scan)
  {
  }

  lemma NameKeepsWellFormed(s: Scan, ch: char, limit: nat)
    requires InName(s) && WellFormed(s) && Step(s, ch, limit).Go?
    ensures WellFormed(Step(s, ch, limit).scan)
  {
    if IsHostChar(ch) {
      NameSnoc(s.text, ch);
    }
  }

  lemma HostKeepsWellFormed(s: Scan, ch: char, limit: nat)
    requires InHost(s) && WellFormed(s) && Step(s, ch, limit).Go?
    ensures WellFormed(Step(s, ch, limit).scan)
  {
    if IsHostChar(ch) {
      NameSnoc(s.text, ch);
    }
  }

  lemma TailKeepsWellFormed(s: Scan, ch: char, limit: nat)
    requires InTail(s) && WellFormed(s) && Step(s, ch, limit).Go?
    ensures WellFormed(Step(s, ch, limit).scan)
  {
  }

  lemma VersionKeepsWellFormed(s: Scan, ch: char, limit: nat)
    requires InVersion(s) && WellFormed(s) && Step(s, ch, limit).Go?
    ensures WellFormed(Step(s, ch, limit).scan)
  {
    if s.state == StHttpSlash {
      var v := s.text + [ch];
      assert v[..5] == "HTTP/" && v[5..] == [ch];
    } else if s.state == StVersion && !IsSpace(ch) {
      VersionSnoc(s.text, ch);
    }
  }

  lemma HeadConsumes(s: Scan, ch: char, limit: nat)
    requires InHead(s) && WellFormed(s) && Step(s, ch, limit).Go?
    ensures Consumed(Step(s, ch, limit).scan) == Consumed(s) + [ch]
  {
  }

  lemma UriConsumes(s: Scan, ch: char, limit: nat)
    requires s.state == StUri && WellFormed(s) && Step(s, ch, limit).Go?
    ensures Consumed(Step(s, ch, limit).scan) == Consumed(s) + [ch]
  {
  }

  lemma ColonConsumes(s: Scan, ch: char, limit: nat)
    requires InName(s) && s.state != StUri && WellFormed(s) && Step(s, ch, limit).Go?
    ensures Consumed(Step(s, ch, limit).scan) == Consumed(s) + [ch]
  {
  }

  lemma NameConsumes(s: Scan, ch: char, limit: nat)
    requires InName(s) && WellFormed(s) && Step(s, ch, limit).Go?
    ensures Consumed(Step(s, ch, limit).scan) == Consumed(s) + [ch]
  {
    if s.state == StUri {
      UriConsumes(s, ch, limit);
    } else {
      ColonConsumes(s, ch, limit);
    }
  }

  lemma HostConsumes(s: Scan, ch: char, limit: nat)
    requires InHost(s) && WellFormed(s) && Step(s, ch, limit).Go?
    ensures Consumed(Step(s, ch, limit).scan) == Consumed(s) + [ch]
  {
  }

  lemma PortConsumes(s: Scan, ch: char, limit: nat)
    requires s.state == StPort && WellFormed(s) && Step(s, ch, limit).Go?
    ensures Consumed(Step(s, ch, limit).scan) == Consumed(s) + [ch]
  {
  }

  lemma LocConsumes(s: Scan, ch: char, limit: nat)
    requires s.state == StLoc && WellFormed(s) && Step(s, ch, limit).Go?
    ensures Consumed(Step(s, ch, limit).scan) == Consumed(s) + [ch]
  {
  }

  lemma TailConsumes(s: Scan, ch: char, limit: nat)
    requires InTail(s) && WellFormed(s) && Step(s, ch, limit).Go?
    ensures Consumed(Step(s, ch, limit).scan) == Consumed(s) + [ch]
  {
    if s.state == StPort {
      PortConsumes(s, ch, limit);
    } else {
      LocConsumes(s, ch, limit);
    }
  }

  lemma VersionConsumes(s: Scan, ch: char, limit: nat)
    requires InVersion(s) && s.state != StVersion && WellFormed(s) && Step(s, ch, limit).Go?
    ensures Consumed(Step(s, ch, limit).scan) == Consumed(s) + [ch]
  {
  }

  lemma EarlyKeepsWellFormed(s: Scan, ch: char, limit: nat)
    requires (InHead(s) || InName(s)) && WellFormed(s) && Step(s, ch, limit).Go?
    ensures WellFormed(Step(s, ch, limit).scan)
  {
    if InHead(s) {
      HeadKeepsWellFormed(s, ch, limit);
    } else {
      NameKeepsWellFormed(s, ch, limit);
    }
  }

  lemma LateKeepsWellFormed(s: Scan, ch: char, limit: nat)
    requires (InHost(s) || InTail(s)) && WellFormed(s) && Step(s, ch, limit).Go?
    ensures WellFormed(Step(s, ch, limit).scan)
  {
    if InHost(s) {
      HostKeepsWellFormed(s, ch, limit);
    } else {
      TailKeepsWellFormed(s, ch, limit);
    }
  }

  lemma StepKeepsWellFormed(s: Scan, ch: char, limit: nat)
    requires s.state != StDone && WellFormed(s) && Step(s, ch, limit).Go?
    ensures WellFormed(Step(s, ch, limit).scan)
  {
    if InHead(s) || InName(s) {
      EarlyKeepsWellFormed(s, ch, limit);
    } else if InHost(s) || InTail(s) {
      LateKeepsWellFormed(s, ch, limit);
    } else {
      VersionKeepsWellFormed(s, ch, limit);
    }
  }

  /** In the version the scanner keeps the character, or stops before a white-space one. */
  lemma VersionStep(s: Scan, ch: char, limit: nat)
    requires s.state == StVersion && WellFormed(s) && Step(s, ch, limit).Go?
    ensures Consumes(s, ch, Step(s, ch, limit).scan)
  {
  }

  ghost predicate Consumes(s: Scan, ch: char, s': Scan) {
    if s'.state == StDone then IsSpace(ch) && Consumed(s') == Consumed(s)
    else Consumed(s') == Consumed(s) + [ch]
  }

  lemma OnlyVersionEnds(s: Scan, ch: char, limit: nat)
    requires s.state != StDone && s.state != StVersion && Step(s, ch, limit).Go?
    ensures Step(s, ch, limit).scan.state != StDone
  {
  }

  lemma StepConsumes(s: Scan, ch: char, limit: nat)
    requires s.state != StDone && WellFormed(s) && Step(s, ch, limit).Go?
    ensures Consumes(s, ch, Step(s, ch, limit).scan)
  {
    if s.state == StVersion {
      VersionStep(s, ch, limit);
    } else {
      StepConsumesOne(s, ch, limit);
      OnlyVersionEnds(s, ch, limit);
    }
  }

  lemma EarlyConsumes(s: Scan, ch: char, limit: nat)
    requires (InHead(s) || InName(s)) && WellFormed(s) && Step(s, ch, limit).Go?
    ensures Consumed(Step(s, ch, limit).scan) == Consumed(s) + [ch]
  {
    if InHead(s) {
      HeadConsumes(s, ch, limit);
    } else {
      NameConsumes(s, ch, limit);
    }
  }

  lemma LateConsumes(s: Scan, ch: char, limit: nat)
    requires (InHost(s) || InTail(s)) && WellFormed(s) && Step(s, ch, limit).Go?
    ensures Consumed(Step(s, ch, limit).scan) == Consumed(s) + [ch]
  {
    if InHost(s) {
      HostConsumes(s, ch, limit);
    } else {
      TailConsumes(s, ch, limit);
    }
  }

  lemma StepConsumesOne(s: Scan, ch: char, limit: nat)
    requires s.state != StDone && s.state != StVersion && WellFormed(s) && Step(s, ch, limit).Go?
    ensures Consumed(Step(s, ch, limit).scan) == Consumed(s) + [ch]
  {
    if InHead(s) || InName(s) {
      EarlyConsumes(s, ch, limit);
    } else if InHost(s) || InTail(s) {
      LateConsumes(s, ch, limit);
    } else {
      VersionConsumes(s, ch, limit);
    }
  }

  predicate FitsScan(s: Scan, limit: nat) {
    FitsOption(s.method_, limit) && FitsTarget(s.target, limit) && FitsOption(s.version, limit)
  }

  lemma EarlyFits(s: Scan, ch: char, limit: nat)
    requires (InHead(s) || InName(s)) && FitsScan(s, limit) && Step(s, ch, limit).Go?
    ensures FitsScan(Step(s, ch, limit).scan, limit)
  {
  }

  lemma TailFits(s: Scan, ch: char, limit: nat)
    requires InTail(s) && FitsScan(s, limit) && Step(s, ch, limit).Go?
    ensures FitsScan(Step(s, ch, limit).scan, limit)
  {
  }

  lemma LateFits(s: Scan, ch: char, limit: nat)
    requires (InHost(s) || InVersion(s)) && FitsScan(s, limit) && Step(s, ch, limit).Go?
    ensures FitsScan(Step(s, ch, limit).scan, limit)
  {
  }

  lemma StepFits(s: Scan, ch: char, limit: nat)
    requires s.state != StDone && FitsScan(s, limit) && Step(s, ch, limit).Go?
    ensures FitsScan(Step(s, ch, limit).scan, limit)
  {
    if InHead(s) || InName(s) {
      EarlyFits(s, ch, limit);
    } else if InTail(s) {
      TailFits(s, ch, limit);
    } else {
      LateFits(s, ch, limit);
    }
  }

  lemma {:induction false} RunWellFormed(s: Scan, line: string, limit: nat)
    requires WellFormed(s) && Run(s, line, limit).Accepted?
    ensures Run(s, line, limit).scan.state == StDone && WellFormed(Run(s, line, limit).scan)
    decreases |line|
  {
    if s.state != StDone && line != "" {
      StepKeepsWellFormed(s, line[0], limit);
      RunWellFormed(Step(s, line[0], limit).scan, line[1..], limit);
    }
  }

  lemma {:induction false} RunFits(s: Scan, line: string, limit: nat)
    requires FitsScan(s, limit) && Run(s, line, limit).Accepted?
    ensures FitsScan(Run(s, line, limit).scan, limit)
    decreases |line|
  {
    if s.state != StDone && line != "" {
      StepFits(s, line[0], limit);
      RunFits(Step(s, line[0], limit).scan, line[1..], limit);
    }
  }

  /** Whatever is accepted was the print of what the scanner remembers, and some rest. */
  lemma {:induction false} RunConsumes(s: Scan, line: string, limit: nat) returns (rest: string)
    requires s.state != StDone && WellFormed(s) && Run(s, line, limit).Accepted?
    ensures Consumed(Run(s, line, limit).scan) + rest == Consumed(s) + line
    ensures rest == "" || IsSpace(rest[0])
    decreases |line|
  {
    if line == "" {
      rest := "";
    } else {
      var s' := Step(s, line[0], limit).scan;
      StepKeepsWellFormed(s, line[0], limit);
      StepConsumes(s, line[0], limit);
      if s'.state == StDone {
        rest := line;
      } else {
        rest := RunConsumes(s', line[1..], limit);
        Glue(Consumed(s), line, Consumed(Run(s, line, limit).scan) + rest);
      }
    }
  }

  lemma Glue(before: string, line: string, whole: string)
    requires line != "" && whole == before + [line[0]] + line[1..]
    ensures whole == before + line
  {
  }

  // ---------------------------------------------------------------- completeness

  /** Reading text takes the scanner from s to s', whatever follows. */
  ghost predicate Leads(s: Scan, text: string, s': Scan, limit: nat) {
    forall rest :: Run(s, text + rest, limit) == Run(s', rest, limit)
  }

  lemma LeadsOne(s: Scan, c: char, s': Scan, limit: nat)
    requires s.state != StDone && Step(s, c, limit) == Go(s')
    ensures Leads(s, [c], s', limit)
  {
    forall rest ensures Run(s, [c] + rest, limit) == Run(s', rest, limit) {
      assert ([c] + rest)[1..] == rest;
    }
  }

  lemma LeadsThen(s: Scan, a: string, s1: Scan, b: string, s2: Scan, limit: nat)
    requires Leads(s, a, s1, limit) && Leads(s1, b, s2, limit)
    ensures Leads(s, a + b, s2, limit)
  {
    forall rest ensures Run(s, (a + b) + rest, limit) == Run(s2, rest, limit) {
      assert (a + b) + rest == a + (b + rest);
    }
  }

  lemma LeadsTwo(s: Scan, c: char, s1: Scan, d: char, s2: Scan, limit: nat)
    requires s.state != StDone && Step(s, c, limit) == Go(s1)
    requires s1.state != StDone && Step(s1, d, limit) == Go(s2)
    ensures Leads(s, [c, d], s2, limit)
  {
    LeadsOne(s, c, s1, limit);
    LeadsOne(s1, d, s2, limit);
    LeadsThen(s, [c], s1, [d], s2, limit);
    assert [c] + [d] == [c, d];
  }

  lemma LeadsThree(s: Scan, a: string, s1: Scan, b: string, s2: Scan, c: string, s3: Scan, limit: nat)
    requires Leads(s, a, s1, limit) && Leads(s1, b, s2, limit) && Leads(s2, c, s3, limit)
    ensures Leads(s, a + b + c, s3, limit)
  {
    LeadsThen(s, a, s1, b, s2, limit);
    LeadsThen(s, a + b, s2, c, s3, limit);
  }

  /** The characters that only lengthen the current component. */
  predicate Lengthens(state: State, c: char) {
    match state
    case StMethod => IsUpper(c)
    case StUri => IsHostChar(c)
    case StHost => IsHostChar(c)
    case StPort => IsDigit(c)
    case StLoc => !IsSpace(c)
    case StVersion => IsDigit(c) || c == '.'
    case _ => false
  }

  lemma LengthenStep(s: Scan, c: char, limit: nat)
    requires Lengthens(s.state, c)
    ensures s.state != StDone && Step(s, c, limit) == Go(s.(text := s.text + [c]))
  {
  }

  lemma LeadsNowhere(s: Scan, limit: nat)
    ensures Leads(s, "", s, limit)
  {
    forall rest ensures Run(s, "" + rest, limit) == Run(s, rest, limit) {
      assert "" + rest == rest;
    }
  }

  lemma {:induction false} LeadsText(s: Scan, more: string, limit: nat)
    requires All(more, c => Lengthens(s.state, c))
    ensures Leads(s, more, s.(text := s.text + more), limit)
    decreases |more|
  {
    if more == "" {
      assert s.text + more == s.text;
      LeadsNowhere(s, limit);
    } else {
      var s1 := s.(text := s.text + [more[0]]);
      LengthenStep(s, more[0], limit);
      LeadsOne(s, more[0], s1, limit);
      LeadsText(s1, more[1..], limit);
      assert s1.text + more[1..] == s.text + more;
      LeadsThen(s, [more[0]], s1, more[1..], s1.(text := s1.text + more[1..]), limit);
      assert [more[0]] + more[1..] == more;
    }
  }

  lemma {:induction false} LeadsBlank(s: Scan, more: string, limit: nat)
    requires s.state == StStart && All(more, IsSpace)
    ensures Leads(s, more, s.(blank := s.blank + more), limit)
    decreases |more|
  {
    if more == "" {
      assert s.blank + more == s.blank;
      LeadsNowhere(s, limit);
    } else {
      var s1 := s.(blank := s.blank + [more[0]]);
      LeadsOne(s, more[0], s1, limit);
      LeadsBlank(s1, more[1..], limit);
      assert s1.blank + more[1..] == s.blank + more;
      LeadsThen(s, [more[0]], s1, more[1..], s1.(blank := s1.blank + more[1..]), limit);
      assert [more[0]] + more[1..] == more;
    }
  }

  lemma {:induction false} LeadsGap(s: Scan, more: string, limit: nat)
    requires s.state == StSpaceAfterMethod && All(more, c => c == ' ')
    ensures Leads(s, more, s.(gap := s.gap + more), limit)
    decreases |more|
  {
    if more == "" {
      assert s.gap + more == s.gap;
      LeadsNowhere(s, limit);
    } else {
      var s1 := s.(gap := s.gap + [more[0]]);
      LeadsOne(s, more[0], s1, limit);
      LeadsGap(s1, more[1..], limit);
      assert s1.gap + more[1..] == s.gap + more;
      LeadsThen(s, [more[0]], s1, more[1..], s1.(gap := s1.gap + more[1..]), limit);
      assert [more[0]] + more[1..] == more;
    }
  }

  /** One delimiter or first character, then characters that lengthen the component. */
  lemma LeadsName(s: Scan, c: char, s1: Scan, more: string, limit: nat)
    requires s.state != StDone && Step(s, c, limit) == Go(s1) && s1.text == [c]
    requires All(more, c => Lengthens(s1.state, c))
    ensures Leads(s, [c] + more, s1.(text := [c] + more), limit)
  {
    LeadsOne(s, c, s1, limit);
    LeadsText(s1, more, limit);
    LeadsThen(s, [c], s1, more, s1.(text := [c] + more), limit);
  }

  lemma HeadTail(s: string)
    requires s != ""
    ensures s == [s[0]] + s[1..]
  {
  }

  function AfterTarget(s: Scan, t: Target): Scan {
    s.(state := StSpaceBeforeVersion, target := t, text := "")
  }

  /** From a state where a slash starts the loc, through the loc and the blank after it. */
  lemma LeadsLoc(s: Scan, t: Target, loc: string, limit: nat)
    requires s.state != StDone && Step(s, '/', limit) == Go(s.(state := StLoc, target := t, text := "/"))
    requires IsLoc(loc) && |loc| <= limit
    ensures Leads(s, loc + " ", AfterTarget(s, t.(loc := Some(loc))), limit)
  {
    HeadTail(loc);
    var s1 := s.(state := StLoc, target := t, text := "/");
    LeadsName(s, '/', s1, loc[1..], limit);
    LeadsOne(s1.(text := loc), ' ', AfterTarget(s, t.(loc := Some(loc))), limit);
    LeadsThen(s, loc, s1.(text := loc), " ", AfterTarget(s, t.(loc := Some(loc))), limit);
  }

  /** From a state where a digit starts the port, through the port and the optional loc. */
  lemma LeadsPort(s: Scan, t: Target, port: string, loc: Option<string>, limit: nat)
    requires IsPort(port) && |port| <= limit && t.loc.None?
    requires s.state != StDone && Step(s, port[0], limit) == Go(s.(state := StPort, target := t, text := [port[0]]))
    requires loc.Some? ==> IsLoc(loc.value) && |loc.value| <= limit
    ensures Leads(s, port + (loc.GetOr("") + " "), AfterTarget(s, t.(port := Some(port), loc := loc)), limit)
  {
    HeadTail(port);
    var s1 := s.(state := StPort, target := t, text := [port[0]]);
    LeadsName(s, port[0], s1, port[1..], limit);
    var s2 := s1.(text := port);
    var s3 := AfterTarget(s, t.(port := Some(port), loc := loc));
    if loc.None? {
      LeadsOne(s2, ' ', s3, limit);
      assert loc.GetOr("") + " " == " ";
    } else {
      LeadsLoc(s2, t.(port := Some(port)), loc.value, limit);
    }
    LeadsThen(s, port, s2, loc.GetOr("") + " ", s3, limit);
  }

  lemma LeadsOrigin(s: Scan, t: Target, limit: nat)
    requires s.state == StSpaceAfterMethod && s.target == NO_TARGET
    requires IsTarget(t) && FitsTarget(t, limit) && t.host.None?
    ensures Leads(s, PrintTarget(t) + " ", AfterTarget(s, t), limit)
  {
    LeadsLoc(s, NO_TARGET, t.loc.value, limit);
    assert PrintTarget(t) == t.loc.value;
  }

  lemma LeadsLooseName(s: Scan, name: string, limit: nat)
    requires s.state == StSpaceAfterMethod && IsLooseName(name)
    ensures Leads(s, name, s.(state := StUri, text := name), limit)
  {
    HeadTail(name);
    LeadsName(s, name[0], s.(state := StUri, text := [name[0]]), name[1..], limit);
  }

  lemma LeadsBarePort(s: Scan, t: Target, limit: nat)
    requires s.state == StSpaceAfterMethod && s.target == NO_TARGET
    requires IsTarget(t) && FitsTarget(t, limit) && t.host.Some? && t.schema.None? && t.port.Some?
    ensures Leads(s, PrintTarget(t) + " ", AfterTarget(s, t), limit)
  {
    var host, port := t.host.value, t.port.value;
    var s1, s2 := s.(state := StUri, text := host), s.(state := StColonAfterUri, text := host);
    LeadsLooseName(s, host, limit);
    LeadsOne(s1, ':', s2, limit);
    LeadsPort(s2, NO_TARGET.(host := t.host), port, t.loc, limit);
    LeadsThree(s, host, s1, ":", s2, port + (t.loc.GetOr("") + " "), AfterTarget(s, t), limit);
    assert PrintTarget(t) + " " == host + ":" + (port + (t.loc.GetOr("") + " "));
  }

  lemma LeadsBareLoc(s: Scan, t: Target, limit: nat)
    requires s.state == StSpaceAfterMethod && s.target == NO_TARGET
    requires IsTarget(t) && FitsTarget(t, limit) && t.host.Some? && t.schema.None? && t.port.None?
    ensures Leads(s, PrintTarget(t) + " ", AfterTarget(s, t), limit)
  {
    var host := t.host.value;
    var s1 := s.(state := StUri, text := host);
    LeadsLooseName(s, host, limit);
    if t.loc.Some? {
      LeadsLoc(s1, NO_TARGET.(host := t.host), t.loc.value, limit);
    } else {
      LeadsOne(s1, ' ', AfterTarget(s, t), limit);
      assert t.loc.GetOr("") + " " == " ";
    }
    LeadsThen(s, host, s1, t.loc.GetOr("") + " ", AfterTarget(s, t), limit);
    assert PrintTarget(t) + " " == host + (t.loc.GetOr("") + " ");
  }

  /** From the first character of the target to the second slash. */
  lemma LeadsSchema(s: Scan, schema: string, limit: nat)
    requires s.state == StSpaceAfterMethod && s.target == NO_TARGET
    requires IsLooseName(schema) && |schema| <= limit
    ensures var t := NO_TARGET.(schema := Some(schema));
      Leads(s, schema + "://", s.(state := StSchemaSlashSlash, target := t, text := ""), limit)
  {
    var t := NO_TARGET.(schema := Some(schema));
    var s1, s2 := s.(state := StUri, text := schema), s.(state := StColonAfterUri, text := schema);
    var s3 := s.(state := StSchemaSlash, target := t, text := "");
    var s4 := s.(state := StSchemaSlashSlash, target := t, text := "");
    LeadsLooseName(s, schema, limit);
    LeadsOne(s1, ':', s2, limit);
    LeadsTwo(s2, '/', s3, '/', s4, limit);
    LeadsThree(s, schema, s1, ":", s2, "//", s4, limit);
    assert schema + ":" + "//" == schema + "://";
  }

  /** From the first character of the target to the end of a host after "://". */
  lemma LeadsSchemaHost(s: Scan, schema: string, host: string, limit: nat)
    requires s.state == StSpaceAfterMethod && s.target == NO_TARGET
    requires IsLooseName(schema) && IsStrictName(host) && |schema| <= limit
    ensures var t := NO_TARGET.(schema := Some(schema));
      Leads(s, schema + "://" + host, s.(state := StHost, target := t, text := host), limit)
  {
    var t := NO_TARGET.(schema := Some(schema));
    var s1 := s.(state := StSchemaSlashSlash, target := t, text := "");
    LeadsSchema(s, schema, limit);
    HeadTail(host);
    LeadsName(s1, host[0], s.(state := StHost, target := t, text := [host[0]]), host[1..], limit);
    LeadsThen(s, schema + "://", s1, host, s.(state := StHost, target := t, text := host), limit);
  }

  lemma LeadsAbsolutePort(s: Scan, t: Target, limit: nat)
    requires s.state == StSpaceAfterMethod && s.target == NO_TARGET
    requires IsTarget(t) && FitsTarget(t, limit) && t.schema.Some? && t.port.Some?
    ensures Leads(s, PrintTarget(t) + " ", AfterTarget(s, t), limit)
  {
    hide Leads, Run;
    var schema, host, port := t.schema.value, t.host.value, t.port.value;
    var t1 := NO_TARGET.(schema := t.schema, host := t.host);
    var s1 := s.(state := StHost, target := NO_TARGET.(schema := t.schema), text := host);
    var s2 := s.(state := StColonBeforePort, target := t1, text := "");
    LeadsSchemaHost(s, schema, host, limit);
    LeadsOne(s1, ':', s2, limit);
    LeadsPort(s2, t1, port, t.loc, limit);
    LeadsThree(s, schema + "://" + host, s1, ":", s2, port + (t.loc.GetOr("") + " "), AfterTarget(s, t), limit);
    assert PrintTarget(t) + " " == schema + "://" + host + ":" + (port + (t.loc.GetOr("") + " "));
  }

  lemma LeadsAbsoluteLoc(s: Scan, t: Target, limit: nat)
    requires s.state == StSpaceAfterMethod && s.target == NO_TARGET
    requires IsTarget(t) && FitsTarget(t, limit) && t.schema.Some? && t.port.None?
    ensures Leads(s, PrintTarget(t) + " ", AfterTarget(s, t), limit)
  {
    var schema, host, loc := t.schema.value, t.host.value, t.loc.value;
    var s1 := s.(state := StHost, target := NO_TARGET.(schema := t.schema), text := host);
    LeadsSchemaHost(s, schema, host, limit);
    LeadsLoc(s1, NO_TARGET.(schema := t.schema, host := t.host), loc, limit);
    LeadsThen(s, schema + "://" + host, s1, loc + " ", AfterTarget(s, t), limit);
    assert PrintTarget(t) + " " == schema + "://" + host + (loc + " ");
  }

  lemma LeadsTarget(s: Scan, t: Target, limit: nat)
    requires s.state == StSpaceAfterMethod && s.target == NO_TARGET
    requires IsTarget(t) && FitsTarget(t, limit)
    ensures Leads(s, PrintTarget(t) + " ", AfterTarget(s, t), limit)
  {
    if t.host.None? {
      LeadsOrigin(s, t, limit);
    } else if t.schema.None? {
      if t.port.Some? {
        LeadsBarePort(s, t, limit);
      } else {
        LeadsBareLoc(s, t, limit);
      }
    } else if t.port.Some? {
      LeadsAbsolutePort(s, t, limit);
    } else {
      LeadsAbsoluteLoc(s, t, limit);
    }
  }

  lemma LeadsHttp(s: Scan, limit: nat)
    requires s.state == StSpaceBeforeVersion
    ensures Leads(s, "HTTP/", s.(state := StHttpSlash, text := "HTTP/"), limit)
  {
    var s2, s4 := s.(state := StHT, text := "HT"), s.(state := StHTTP, text := "HTTP");
    LeadsTwo(s, 'H', s.(state := StH, text := "H"), 'T', s2, limit);
    LeadsTpSlash(s2, limit);
    LeadsThen(s, "HT", s2, "TP/", s.(state := StHttpSlash, text := "HTTP/"), limit);
    assert "HT" + "TP/" == "HTTP/";
  }

  lemma LeadsTpSlash(s: Scan, limit: nat)
    requires s.state == StHT && s.text == "HT"
    ensures Leads(s, "TP/", s.(state := StHttpSlash, text := "HTTP/"), limit)
  {
    var s4 := s.(state := StHTTP, text := "HTTP");
    LeadsTwo(s, 'T', s.(state := StHTT, text := "HTT"), 'P', s4, limit);
    LeadsOne(s4, '/', s.(state := StHttpSlash, text := "HTTP/"), limit);
    LeadsThen(s, "TP", s4, "/", s.(state := StHttpSlash, text := "HTTP/"), limit);
    assert "TP" + "/" == "TP/";
  }

  lemma LeadsVersion(s: Scan, version: string, limit: nat)
    requires s.state == StSpaceBeforeVersion && IsVersion(version)
    ensures Leads(s, version, s.(state := StVersion, text := version), limit)
  {
    var s1, s2 := s.(state := StHttpSlash, text := "HTTP/"), s.(state := StVersion, text := "HTTP/" + [version[5]]);
    LeadsHttp(s, limit);
    LeadsOne(s1, version[5], s2, limit);
    LeadsThen(s, "HTTP/", s1, [version[5]], s2, limit);
    assert version[5..][1..] == version[6..];
    LeadsText(s2, version[6..], limit);
    LeadsThen(s, "HTTP/" + [version[5]], s2, version[6..], s2.(text := s2.text + version[6..]), limit);
    assert version == version[..5] + [version[5]] + version[6..];
  }

  /** What the scanner remembers of a line at its end. */
  function ScanOf(l: Line): Scan {
    Scan(StDone, l.blank, Some(l.method_), l.gap, l.target, Some(l.version), l.version)
  }

  lemma LeadsMethod(s: Scan, method_: string, gap: string, limit: nat)
    requires s == INITIAL.(blank := s.blank) && IsMethod(method_) && |method_| <= limit
    requires gap != "" && All(gap, c => c == ' ')
    ensures Leads(s, method_ + gap, s.(state := StSpaceAfterMethod, method_ := Some(method_), gap := gap), limit)
  {
    hide Leads, Run;
    HeadTail(method_);
    LeadsName(s, method_[0], s.(state := StMethod, text := [method_[0]]), method_[1..], limit);
    var s1 := s.(state := StMethod, text := method_);
    var s2 := s.(state := StSpaceAfterMethod, method_ := Some(method_), gap := " ");
    LeadsOne(s1, ' ', s2, limit);
    LeadsThen(s, method_, s1, " ", s2, limit);
    LeadsGap(s2, gap[1..], limit);
    LeadsThen(s, method_ + " ", s2, gap[1..], s2.(gap := " " + gap[1..]), limit);
    assert gap == " " + gap[1..];
    assert method_ + gap == method_ + " " + gap[1..];
  }

  /** Up to the end of the version the scanner follows the grammar. */
  lemma LeadsLine(l: Line, limit: nat)
    requires IsLine(l) && Fits(l, limit)
    ensures Leads(INITIAL, l.blank + (l.method_ + l.gap) + (PrintTarget(l.target) + " ") + l.version,
                  ScanOf(l).(state := StVersion, version := None), limit)
  {
    var s1 := INITIAL.(blank := l.blank);
    var s2 := s1.(state := StSpaceAfterMethod, method_ := Some(l.method_), gap := l.gap);
    var s3 := AfterTarget(s2, l.target);
    LeadsBlank(INITIAL, l.blank, limit);
    assert INITIAL.blank + l.blank == l.blank;
    LeadsMethod(s1, l.method_, l.gap, limit);
    LeadsTarget(s2, l.target, limit);
    LeadsVersion(s3, l.version, limit);
    LeadsThen(INITIAL, l.blank, s1, l.method_ + l.gap, s2, limit);
    LeadsThen(INITIAL, l.blank + (l.method_ + l.gap), s2, PrintTarget(l.target) + " ", s3, limit);
    LeadsThen(INITIAL, l.blank + (l.method_ + l.gap) + (PrintTarget(l.target) + " "), s3, l.version,
              s3.(state := StVersion, text := l.version), limit);
  }

  lemma RunVersionEnd(s: Scan, rest: string, limit: nat)
    requires s.state == StVersion && |s.text| <= limit && (rest == "" || IsSpace(rest[0]))
    ensures Run(s, rest, limit) == Accepted(s.(state := StDone, version := Some(s.text)))
  {
  }

  lemma RunComplete(l: Line, limit: nat)
    requires IsLine(l) && Fits(l, limit)
    ensures Run(INITIAL, Print(l), limit) == Accepted(ScanOf(l))
  {
    var text := l.blank + (l.method_ + l.gap) + (PrintTarget(l.target) + " ") + l.version;
    var s := ScanOf(l).(state := StVersion, version := None);
    LeadsLine(l, limit);
    RunVersionEnd(s, l.rest, limit);
    assert Print(l) == text + l.rest;
    assert Run(INITIAL, text + l.rest, limit) == Run(s, l.rest, limit);
  }

  // ---------------------------------------------------------------- the language

  /** The line an accepting scanner has read, as a value of the grammar. */
  function LineOf(s: Scan, rest: string): Line {
    Line(s.blank, s.method_.GetOr(""), s.gap, s.target, s.version.GetOr(""), rest)
  }

  lemma AcceptedIsLine(line: string, limit: nat) returns (l: Line)
    requires Run(INITIAL, line, limit).Accepted?
    ensures IsLine(l) && Fits(l, limit) && Print(l) == line
  {
    RunWellFormed(INITIAL, line, limit);
    RunFits(INITIAL, line, limit);
    var rest := RunConsumes(INITIAL, line, limit);
    var s := Run(INITIAL, line, limit).scan;
    l := LineOf(s, rest);
    assert Print(l) == Consumed(s) + rest;
    assert Consumed(INITIAL) + line == line;
  }

  /** The scanner accepts exactly the grammar's lines whose components fit their buffers. */
  lemma AcceptsExactlyTheGrammar(line: string, limit: nat)
    ensures Run(INITIAL, line, limit).Accepted? <==> exists l :: IsLine(l) && Fits(l, limit) && Print(l) == line
  {
    if Run(INITIAL, line, limit).Accepted? {
      var l := AcceptedIsLine(line, limit);
    }
    if l :| IsLine(l) && Fits(l, limit) && Print(l) == line {
      RunComplete(l, limit);
    }
  }

  /** A line can be taken apart in one way only. */
  lemma DecompositionUnique(l1: Line, l2: Line)
    requires IsLine(l1) && IsLine(l2) && Print(l1) == Print(l2)
    ensures l1 == l2
  {
    var limit := |Print(l1)|;
    RunComplete(l1, limit);
    RunComplete(l2, limit);
    assert ScanOf(l1) == ScanOf(l2);
    assert |l1.rest| == |l2.rest|;
    var k := |Print(l1)| - |l1.rest|;
    assert l1.rest == Print(l1)[k..] && l2.rest == Print(l2)[k..];
  }

  /** schema "://" host with neither a port nor a loc is rejected, whatever follows. */
  lemma SchemaHostAloneRejected(method_: string, gap: string, schema: string, host: string, rest: string, limit: nat)
    requires IsMethod(method_) && |method_| <= limit && gap != "" && All(gap, c => c == ' ')
    requires IsLooseName(schema) && |schema| <= limit && IsStrictName(host) && |host| <= limit
    ensures Run(INITIAL, method_ + gap + (schema + "://" + host) + (" " + rest), limit)
      == Rejected(Scan(StSpaceBeforeVersion, "", Some(method_), gap, Target(Some(schema), Some(host), None, None),
                       None, host))
  {
    var s1 := INITIAL.(state := StSpaceAfterMethod, method_ := Some(method_), gap := gap);
    var s2 := s1.(state := StHost, target := NO_TARGET.(schema := Some(schema)), text := host);
    LeadsMethod(INITIAL, method_, gap, limit);
    LeadsSchemaHost(s1, schema, host, limit);
    LeadsThen(INITIAL, method_ + gap, s1, schema + "://" + host, s2, limit);
    assert Run(INITIAL, method_ + gap + (schema + "://" + host) + (" " + rest), limit) == Run(s2, " " + rest, limit);
    assert (" " + rest)[0] == ' ';
  }

  /** Without a target, the version is taken for a host and a loc, and the line is rejected. */
  lemma NoTargetRejected(method_: string, version: string, rest: string, limit: nat)
    requires IsMethod(method_) && |method_| <= limit && 4 <= limit && IsVersion(version) && rest != ""
    requires IsSpace(rest[0]) && rest[0] != ' '
    ensures Run(INITIAL, method_ + "  " + version + rest, limit).Rejected?
  {
    var s1 := INITIAL.(state := StSpaceAfterMethod, method_ := Some(method_), gap := "  ");
    LeadsMethod(INITIAL, method_, "  ", limit);
    LeadsVersionAsTarget(s1, version, limit);
    var s2 := s1.(state := StLoc, target := NO_TARGET.(host := Some("HTTP")), text := version[4..]);
    LeadsThen(INITIAL, method_ + "  ", s1, version, s2, limit);
    assert Run(INITIAL, method_ + "  " + version + rest, limit) == Run(s2, rest, limit);
  }

  lemma LeadsVersionAsTarget(s: Scan, version: string, limit: nat)
    requires s.state == StSpaceAfterMethod && s.target == NO_TARGET && 4 <= limit && IsVersion(version)
    ensures var t := NO_TARGET.(host := Some("HTTP"));
      Leads(s, version, s.(state := StLoc, target := t, text := version[4..]), limit)
  {
    var s2 := s.(state := StLoc, target := NO_TARGET.(host := Some("HTTP")), text := "/");
    LeadsHttpAsHost(s, limit);
    assert version[5] == version[5..][0] && version[5..][1..] == version[6..];
    LeadsText(s2, version[5..], limit);
    LeadsThen(s, "HTTP/", s2, version[5..], s2.(text := "/" + version[5..]), limit);
    assert version == version[..5] + version[5..];
    assert version[4..] == "/" + version[5..];
  }

  lemma LeadsHttpAsHost(s: Scan, limit: nat)
    requires s.state == StSpaceAfterMethod && s.target == NO_TARGET && 4 <= limit
    ensures Leads(s, "HTTP/", s.(state := StLoc, target := NO_TARGET.(host := Some("HTTP")), text := "/"), limit)
  {
    var s1 := s.(state := StUri, text := "HTTP");
    var s2 := s.(state := StLoc, target := NO_TARGET.(host := Some("HTTP")), text := "/");
    LeadsName(s, 'H', s.(state := StUri, text := "H"), "TTP", limit);
    assert ['H'] + "TTP" == "HTTP";
    LeadsOne(s1, '/', s2, limit);
    LeadsThen(s, "HTTP", s1, "/", s2, limit);
    assert "HTTP" + "/" == "HTTP/";
  }

  // ---------------------------------------------------------------- exactly when a buffer overruns

  /** With room for the text nothing spills; with less room, a step is the same unless it copies a
      component that is too long. */
  predicate Limited(s: Scan, ch: char, limit: nat, big: nat)
    requires s.state != StDone
  {
    var move := Step(s, ch, big);
    && !move.Spill? && |move.scan.text| <= |s.text| + 1
    && (if FitsScan(move.scan, limit) then Step(s, ch, limit) == move
        else FitsScan(s, limit) ==> Step(s, ch, limit).Spill?)
  }

  lemma EarlyLimited(s: Scan, ch: char, limit: nat, big: nat)
    requires (InHead(s) || InName(s)) && limit <= big && |s.text| <= big
    ensures Limited(s, ch, limit, big)
  {
  }

  lemma MiddleLimited(s: Scan, ch: char, limit: nat, big: nat)
    requires (InHost(s) || InTail(s)) && limit <= big && |s.text| <= big
    ensures Limited(s, ch, limit, big)
  {
  }

  lemma VersionLimited(s: Scan, ch: char, limit: nat, big: nat)
    requires InVersion(s) && limit <= big && |s.text| <= big
    ensures Limited(s, ch, limit, big)
  {
  }

  lemma StepLimited(s: Scan, ch: char, limit: nat, big: nat)
    requires s.state != StDone && limit <= big && |s.text| <= big
    ensures Limited(s, ch, limit, big)
  {
    if InHead(s) || InName(s) {
      EarlyLimited(s, ch, limit, big);
    } else if InHost(s) || InTail(s) {
      MiddleLimited(s, ch, limit, big);
    } else {
      VersionLimited(s, ch, limit, big);
    }
  }

  /** A component that has been copied is not copied again. */
  lemma StepStays(s: Scan, ch: char, limit: nat, big: nat)
    requires s.state != StDone && WellFormed(s) && !FitsScan(s, limit) && !Step(s, ch, big).Spill?
    ensures !FitsScan(Step(s, ch, big).scan, limit)
  {
    if InHead(s) || InName(s) {
      EarlyStays(s, ch, limit, big);
    } else if InHost(s) || InTail(s) {
      MiddleStays(s, ch, limit, big);
    } else {
      VersionStays(s, ch, limit, big);
    }
  }

  lemma EarlyStays(s: Scan, ch: char, limit: nat, big: nat)
    requires (InHead(s) || InName(s)) && WellFormed(s) && !FitsScan(s, limit) && !Step(s, ch, big).Spill?
    ensures !FitsScan(Step(s, ch, big).scan, limit)
  {
  }

  lemma MiddleStays(s: Scan, ch: char, limit: nat, big: nat)
    requires (InHost(s) || InTail(s)) && WellFormed(s) && !FitsScan(s, limit) && !Step(s, ch, big).Spill?
    ensures !FitsScan(Step(s, ch, big).scan, limit)
  {
  }

  lemma VersionStays(s: Scan, ch: char, limit: nat, big: nat)
    requires InVersion(s) && WellFormed(s) && !FitsScan(s, limit) && !Step(s, ch, big).Spill?
    ensures !FitsScan(Step(s, ch, big).scan, limit)
  {
  }

  lemma {:induction false} RunStays(s: Scan, line: string, limit: nat, big: nat)
    requires WellFormed(s) && !FitsScan(s, limit) && limit <= big && (s.state == StDone || |s.text| + |line| <= big)
    ensures !Run(s, line, big).Overrun? && !FitsScan(Run(s, line, big).scan, limit)
    decreases |line|
  {
    if s.state != StDone && line != "" {
      StepLimited(s, line[0], limit, big);
      StepStays(s, line[0], limit, big);
      if Step(s, line[0], big).Go? {
        StepKeepsWellFormed(s, line[0], big);
        RunStays(Step(s, line[0], big).scan, line[1..], limit, big);
      }
    }
  }

  lemma {:induction false} RunLimited(s: Scan, line: string, limit: nat, big: nat)
    requires WellFormed(s) && FitsScan(s, limit) && limit <= big && (s.state == StDone || |s.text| + |line| <= big)
    ensures var o := Run(s, line, big);
      !o.Overrun? && (if FitsScan(o.scan, limit) then Run(s, line, limit) == o else Run(s, line, limit).Overrun?)
    decreases |line|
  {
    hide Step, WellFormed;
    if s.state != StDone && line != "" {
      StepLimited(s, line[0], limit, big);
      var move := Step(s, line[0], big);
      if move.Go? {
        StepKeepsWellFormed(s, line[0], big);
        if FitsScan(move.scan, limit) {
          RunLimited(move.scan, line[1..], limit, big);
        } else {
          RunStays(move.scan, line[1..], limit, big);
        }
      }
    }
  }

  /** A buffer is overrun if and only if the line is longer than it and the scanner, given room for the
      whole line, copies a component that does not fit. */
  lemma OverrunIff(line: string, limit: nat)
    ensures Run(INITIAL, line, limit).Overrun? <==> |line| > limit && !FitsScan(Run(INITIAL, line, |line|).scan, limit)
  {
    if |line| <= limit {
      RunLimited(INITIAL, line, limit, limit);
    } else {
      RunLimited(INITIAL, line, limit, |line|);
    }
  }

  /** For a line of the grammar: if and only if one of its components does not fit. */
  lemma LineOverrunsIff(l: Line, limit: nat)
    requires IsLine(l)
    ensures Run(INITIAL, Print(l), limit).Overrun? <==> !Fits(l, limit)
  {
    if Fits(l, limit) {
      RunComplete(l, limit);
    } else {
      RunComplete(l, |Print(l)|);
      OverrunIff(Print(l), limit);
      assert FitsScan(ScanOf(l), limit) <==> Fits(l, limit);
    }
  }
}
