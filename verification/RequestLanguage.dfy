// Just what the parser accepts: the texts that write a request, and no others.

module RequestLanguage {
  import opened RequestGrammar
  import opened RequestParser
  import opened RequestRoundTrip

  /** What has been read in a state, as the part of a spelling that is there. */
  function DraftText(state: State, s: Spelling): Text
  {
    var head := s.verb + [SPACE] + s.uri + [SPACE];
    var numbers := head + HttpSlash + s.major;
    match state
    case MethodStart => []
    case Method => s.verb
    case Uri => s.verb + [SPACE] + s.uri
    case HttpVersionH => head
    case HttpVersionT1 => head + [LETTER_H]
    case HttpVersionT2 => head + [LETTER_H, LETTER_T]
    case HttpVersionP => head + [LETTER_H, LETTER_T, LETTER_T]
    case HttpVersionSlash => head + [LETTER_H, LETTER_T, LETTER_T, LETTER_P]
    case HttpVersionMajorStart => head + HttpSlash
    case HttpVersionMajor => numbers
    case HttpVersionMinorStart => numbers + [DOT]
    case HttpVersionMinor => numbers + [DOT] + s.minor
    case ExpectingNewline1 => numbers + [DOT] + s.minor + [CR]
    case HeaderLineStart => LineText(s) + LinesText(s.lines)
    case HeaderName => LineText(s) + if s.lines.Line? then LinesText(s.lines.before) + s.lines.name else []
    case SpaceBeforeHeaderValue =>
      LineText(s) + if s.lines.Line? then LinesText(s.lines.before) + s.lines.name + [COLON] else []
    case HeaderValue | HeaderLws => LineText(s) + OpenText(s.lines)
    case ExpectingNewline2 => LineText(s) + OpenText(s.lines) + [CR]
    case ExpectingNewline3 => LineText(s) + LinesText(s.lines) + [CR]
  }

  /** The states in which the request line is read, in their order. */
  function Rank(state: State): nat
  {
    match state
    case MethodStart => 0
    case Method => 1
    case Uri => 2
    case HttpVersionH => 3
    case HttpVersionT1 => 4
    case HttpVersionT2 => 5
    case HttpVersionP => 6
    case HttpVersionSlash => 7
    case HttpVersionMajorStart => 8
    case HttpVersionMajor => 9
    case HttpVersionMinorStart => 10
    case HttpVersionMinor => 11
    case ExpectingNewline1 => 12
    case _ => 13
  }

  /** The request line as far as it is read. */
  predicate LineDraft(state: State, s: Spelling)
  {
    && (if Rank(state) == 0 then s.verb == [] else s.verb != [] && IsToken(s.verb))
    && (if Rank(state) < 2 then s.uri == [] else IsUri(s.uri))
    && (if Rank(state) < 9 then s.major == [] else AreDigits(s.major))
    && (if Rank(state) < 11 then s.minor == [] else AreDigits(s.minor))
  }

  /** The lines of the headers as far as they are read. */
  predicate LinesDraft(state: State, s: Spelling)
  {
    && AreLines(s.lines)
    && match state
       case HeaderName | SpaceBeforeHeaderValue => s.lines.Line? && s.lines.value == []
       case HeaderLws => s.lines.Fold? && s.lines.more == []
       case HeaderValue => s.lines != NoLines && (s.lines.Fold? ==> s.lines.more != [])
       case ExpectingNewline2 => s.lines != NoLines
       case HeaderLineStart | ExpectingNewline3 => true
       case _ => s.lines == NoLines
  }

  /** The request as far as it is read; the version is the old one until its numbers begin. */
  function DraftRequest(req: Request, state: State, s: Spelling): Request
    requires LineDraft(state, s)
  {
    var begun := Rank(state) >= 8;
    Request(s.verb, s.uri,
            if begun then NumberOf(s.major) else req.major, if begun then NumberOf(s.minor) else req.minor,
            HeadersOf(s.lines))
  }

  /** The parser stands where the draft `s` leads it. */
  ghost predicate Explains(req: Request, c: Config, bytes: Text, s: Spelling)
  {
    && LineDraft(c.state, s) && LinesDraft(c.state, s)
    && DraftText(c.state, s) == bytes && DraftRequest(req, c.state, s) == c.req
  }

  // ---------------------------------------------------------------------- one byte more

  lemma NumberMore(t: Text, x: int)
    requires (t == [] || AreDigits(t)) && IsDigit(x)
    ensures AreDigits(t + [x]) && NumberOf(t + [x]) == NumberOf(t) * 10 + x - ZERO
  {
    assert (t + [x])[..|t|] == t;
  }

  /** The draft with a byte of the request line. */
  function LineMore(state: State, s: Spelling, x: int): Spelling
  {
    match state
    case MethodStart => s.(verb := [x])
    case Method => if x == SPACE then s else s.(verb := s.verb + [x])
    case Uri => if x == SPACE then s else s.(uri := s.uri + [x])
    case HttpVersionMajorStart => s.(major := [x])
    case HttpVersionMajor => if x == DOT then s else s.(major := s.major + [x])
    case HttpVersionMinorStart => s.(minor := [x])
    case HttpVersionMinor => if x == CR then s else s.(minor := s.minor + [x])
    case _ => s
  }

  lemma LineTextMore(c: Config, s: Spelling, x: int)
    requires HasHeader(c) && Rank(c.state) < 13 && LineDraft(c.state, s) && s.lines == NoLines && Allowed(c, x)
    ensures DraftText(Next(c, x).state, LineMore(c.state, s, x)) == DraftText(c.state, s) + [x]
  {
    hide IsToken, IsUri, AreDigits;
    if c.state == ExpectingNewline1 {
      assert LineText(s) + [] == LineText(s);
    }
  }

  lemma LineRequestMore(req: Request, c: Config, s: Spelling, x: int)
    requires HasHeader(c) && Rank(c.state) < 13 && LineDraft(c.state, s) && s.lines == NoLines && Allowed(c, x)
    requires DraftRequest(req, c.state, s) == c.req
    ensures var n, t := Next(c, x), LineMore(c.state, s, x);
      LineDraft(n.state, t) && LinesDraft(n.state, t) && DraftRequest(req, n.state, t) == n.req
  {
    hide NumberOf;
    NoNumber();
    if c.state in {HttpVersionMajorStart, HttpVersionMajor} && x != DOT {
      NumberMore(s.major, x);
      assert [] + [x] == [x];
    }
    if c.state in {HttpVersionMinorStart, HttpVersionMinor} && x != CR {
      NumberMore(s.minor, x);
      assert [] + [x] == [x];
    }
    if c.state == MethodStart { assert [] + [x] == [x]; }
  }

  lemma NoNumber()
    ensures NumberOf([]) == 0
  {
  }

  /** The lines with a byte of the headers. */
  function LinesMore(state: State, l: Lines, x: int): Lines
  {
    match state
    case HeaderLineStart =>
      if x == CR then l
      else if l != NoLines && (x == SPACE || x == TAB) then Fold(l, [x], [])
      else Line(l, [x], [])
    case HeaderLws =>
      if x == CR || !l.Fold? then l
      else if x == SPACE || x == TAB then Fold(l.before, l.blanks + [x], l.more)
      else Fold(l.before, l.blanks, [x])
    case HeaderName => if x == COLON || !l.Line? then l else Line(l.before, l.name + [x], l.value)
    case HeaderValue => (
      if x == CR then l
      else match l
           case NoLines => l
           case Line(before, name, value) => Line(before, name, value + [x])
           case Fold(before, blanks, more) => Fold(before, blanks, more + [x]))
    case _ => l
  }

  lemma LinesTextMore(c: Config, s: Spelling, x: int)
    requires HasHeader(c) && Rank(c.state) == 13 && LinesDraft(c.state, s)
    requires Allowed(c, x) && c.state != ExpectingNewline3
    requires c.req.headers == [] <==> s.lines == NoLines
    ensures DraftText(Next(c, x).state, s.(lines := LinesMore(c.state, s.lines, x))) == DraftText(c.state, s) + [x]
  {
    hide AreLines, LineText;
    SameLine(s, LinesMore(c.state, s.lines, x));
    if c.state == HeaderLineStart {
      LineStartMore(c, s, x);
    } else if c.state == HeaderLws {
      LwsMore(c, s, x);
    }
  }

  lemma SameLine(s: Spelling, l: Lines)
    ensures LineText(s.(lines := l)) == LineText(s)
  {
  }

  lemma LineStartMore(c: Config, s: Spelling, x: int)
    requires HasHeader(c) && c.state == HeaderLineStart && Allowed(c, x)
    requires c.req.headers == [] <==> s.lines == NoLines
    ensures DraftText(Next(c, x).state, s.(lines := LinesMore(c.state, s.lines, x))) == DraftText(c.state, s) + [x]
  {
    hide LineText;
    SameLine(s, LinesMore(c.state, s.lines, x));
    assert [x] + [] == [x];
  }

  lemma LwsMore(c: Config, s: Spelling, x: int)
    requires HasHeader(c) && c.state == HeaderLws && s.lines.Fold? && s.lines.more == [] && Allowed(c, x)
    ensures DraftText(Next(c, x).state, s.(lines := LinesMore(c.state, s.lines, x))) == DraftText(c.state, s) + [x]
  {
    hide LineText;
    SameLine(s, LinesMore(c.state, s.lines, x));
    assert s.lines.blanks + [] == s.lines.blanks;
    assert s.lines.blanks + [x] + [] == s.lines.blanks + [x];
  }

  lemma LinesGoodMore(c: Config, s: Spelling, x: int)
    requires HasHeader(c) && Rank(c.state) == 13 && LinesDraft(c.state, s)
    requires Allowed(c, x) && c.state != ExpectingNewline3
    requires c.req.headers == HeadersOf(s.lines)
    ensures LinesDraft(Next(c, x).state, s.(lines := LinesMore(c.state, s.lines, x)))
  {
    LinesAreHeaders(s.lines);
  }

  lemma LinesHeadersMore(c: Config, s: Spelling, x: int)
    requires HasHeader(c) && Rank(c.state) == 13 && LinesDraft(c.state, s)
    requires Allowed(c, x) && c.state != ExpectingNewline3
    requires c.req.headers == HeadersOf(s.lines)
    ensures Next(c, x).req == c.req.(headers := HeadersOf(LinesMore(c.state, s.lines, x)))
  {
    LinesAreHeaders(s.lines);
    match c.state {
      case HeaderLws =>
        LinesAreHeaders(s.lines.before);
        NothingMore(HeadersOf(s.lines.before));
      case HeaderName => assert s.lines.name + [x] == s.lines.name + [x];
      case HeaderValue =>
        if s.lines.Fold? { MoreAndMore(HeadersOf(s.lines.before), s.lines.more, x); }
      case HeaderLineStart => NothingMore(HeadersOf(s.lines));
      case _ =>
    }
  }

  lemma NothingMore(headers: seq<Header>)
    ensures MoreValue(headers, []) == headers
  {
    if headers != [] {
      assert headers[|headers| - 1].value + [] == headers[|headers| - 1].value;
    }
  }

  lemma MoreAndMore(headers: seq<Header>, a: Text, x: int)
    ensures MoreValue(MoreValue(headers, a), [x]) == MoreValue(headers, a + [x])
  {
    if headers != [] {
      assert headers[|headers| - 1].value + a + [x] == headers[|headers| - 1].value + (a + [x]);
    }
  }

  lemma ExplainsMore(req: Request, c: Config, bytes: Text, s: Spelling, x: int) returns (t: Spelling)
    requires HasHeader(c) && Explains(req, c, bytes, s) && Allowed(c, x) && c.state != ExpectingNewline3
    ensures Explains(req, Next(c, x), bytes + [x], t)
  {
    hide DraftText, AreLines, IsToken, IsUri, AreDigits;
    LinesAreHeaders(s.lines);
    if Rank(c.state) < 13 {
      t := LineMore(c.state, s, x);
      LineTextMore(c, s, x);
      LineRequestMore(req, c, s, x);
    } else {
      t := s.(lines := LinesMore(c.state, s.lines, x));
      LinesTextMore(c, s, x);
      LinesGoodMore(c, s, x);
      LinesHeadersMore(c, s, x);
    }
  }

  // ----------------------------------------------------------------------- all that is read

  /** Bytes that the parser has taken without a verdict are the beginning of a spelling. */
  lemma {:induction false} AllExplained(req: Request, bytes: Text, c: Config) returns (s: Spelling)
    requires Blank(req) && Goes(Config(MethodStart, req), bytes, c)
    ensures Explains(req, c, bytes, s)
  {
    hide Explains, Feed;
    var start := Config(MethodStart, req);
    if bytes == [] {
      NothingFed(start);
      s := Spelling([], [], [], [], NoLines);
      NothingExplained(req);
    } else {
      var last := |bytes| - 1;
      var init, x := bytes[..last], bytes[last];
      assert bytes == init + [x];
      FeedJoined(start, init, [x]);
      var before := Feed(start, init).config;
      OneFed(before, x);
      var t := AllExplained(req, init, before);
      s := ExplainsMore(req, before, init, t, x);
    }
  }

  lemma NothingExplained(req: Request)
    requires Blank(req)
    ensures Explains(req, Config(MethodStart, req), [], Spelling([], [], [], [], NoLines))
  {
  }

  lemma OneFed(c: Config, x: int)
    requires HasHeader(c)
    ensures var o := Feed(c, [x]);
      && o.result == Result(c, x) && o.consumed == 1
      && o.config == if Allowed(c, x) then Next(c, x) else c
  {
    hide Next, Allowed;
    assert [x][1..] == [];
    NothingFed(if Allowed(c, x) then Next(c, x) else c);
  }

  /** The texts that write a request. */
  ghost predicate Writes(bytes: Text, r: Request)
  {
    exists s: Spelling :: IsSpelling(s) && SpellingText(s) == bytes && Meaning(s) == r
  }

  lemma AcceptedIsWritten(req: Request, bytes: Text, c: Config)
    requires Blank(req) && Feed(Config(MethodStart, req), bytes) == Outcome(c, Ok, |bytes|)
    ensures Writes(bytes, c.req)
  {
    hide Feed, Next, Allowed;
    var start := Config(MethodStart, req);
    NothingFed(start);
    var last := |bytes| - 1;
    var init, x := bytes[..last], bytes[last];
    assert bytes == init + [x];
    FeedJoined(start, init, [x]);
    var before := Feed(start, init);
    if before.result == Indeterminate {
      OneFed(before.config, x);
      var s := AllExplained(req, init, before.config);
      Complete(req, before.config, init, s, x);
    }
  }

  lemma Complete(req: Request, c: Config, init: Text, s: Spelling, x: int)
    requires HasHeader(c) && Explains(req, c, init, s) && Result(c, x) == Ok
    ensures Writes(init + [x], c.req) && Allowed(c, x) && Next(c, x) == c
  {
    assert SpellingText(s) == init + [x];
    assert IsSpelling(s) && Meaning(s) == c.req;
  }

  /** The parser accepts a text with its last byte, and reads a request, exactly if the text writes that request. */
  lemma AcceptsExactly(req: Request, bytes: Text, r: Request)
    requires Blank(req)
    ensures Writes(bytes, r) <==>
            Feed(Config(MethodStart, req), bytes) == Outcome(Config(ExpectingNewline3, r), Ok, |bytes|)
  {
    hide Feed, SpellingText, Meaning;
    if Feed(Config(MethodStart, req), bytes) == Outcome(Config(ExpectingNewline3, r), Ok, |bytes|) {
      AcceptedIsWritten(req, bytes, Config(ExpectingNewline3, r));
    }
    if Writes(bytes, r) {
      var s: Spelling :| IsSpelling(s) && SpellingText(s) == bytes && Meaning(s) == r;
      SpellingRead(req, s);
    }
  }
}
