// Writing a request and parsing it gives it back, and whatever the parser
// accepts is a request that can be written.

module RequestRoundTrip {
  import opened RequestGrammar
  import opened RequestParser

  /** All of the bytes are taken, and none decides. */
  ghost predicate Goes(c: Config, bytes: Text, d: Config)
  {
    HasHeader(c) && HasHeader(d) && Feed(c, bytes) == Outcome(d, Indeterminate, |bytes|)
  }

  lemma GoesOn(c: Config, a: Text, d: Config, b: Text, e: Config)
    requires Goes(c, a, d) && Goes(d, b, e)
    ensures Goes(c, a + b, e)
  {
    hide Feed;
    FeedJoined(c, a, b);
  }

  lemma GoesOne(c: Config, x: int)
    requires HasHeader(c) && Allowed(c, x) && c.state != ExpectingNewline3
    ensures Goes(c, [x], Next(c, x))
  {
    hide Next, Allowed;
    NothingFed(Next(c, x));
    assert [x][1..] == [];
  }

  lemma GoesNowhere(c: Config)
    requires HasHeader(c)
    ensures Goes(c, [], c)
  {
  }

  /** One more byte. */
  lemma GoesOneMore(c: Config, a: Text, d: Config, x: int)
    requires Goes(c, a, d) && Allowed(d, x) && d.state != ExpectingNewline3
    ensures Goes(c, a + [x], Next(d, x))
  {
    hide Next, Allowed, Feed;
    GoesOne(d, x);
    GoesOn(c, a, d, [x], Next(d, x));
  }

  // -------------------------------------------------------------------- the request line

  lemma {:induction false} VerbRead(req: Request, t: Text)
    requires IsToken(t) && t != []
    ensures Goes(Config(MethodStart, req), t, Config(Method, req.(verb := req.verb + t)))
  {
    hide Feed;
    var last := |t| - 1;
    var init := t[..last];
    assert t == init + [t[last]];
    if init == [] {
      GoesOne(Config(MethodStart, req), t[last]);
      assert t == [t[last]];
    } else {
      VerbRead(req, init);
      GoesOneMore(Config(MethodStart, req), init, Config(Method, req.(verb := req.verb + init)), t[last]);
      assert req.verb + t == req.verb + init + [t[last]];
    }
  }

  lemma {:induction false} UriRead(req: Request, t: Text)
    requires IsUri(t)
    ensures Goes(Config(Uri, req), t, Config(Uri, req.(uri := req.uri + t)))
  {
    hide Feed;
    if t == [] {
      GoesNowhere(Config(Uri, req));
      assert req.uri + t == req.uri;
    } else {
      var last := |t| - 1;
      var init := t[..last];
      assert t == init + [t[last]];
      UriRead(req, init);
      GoesOneMore(Config(Uri, req), init, Config(Uri, req.(uri := req.uri + init)), t[last]);
      assert req.uri + t == req.uri + init + [t[last]];
    }
  }

  lemma HttpRead(req: Request)
    ensures Goes(Config(HttpVersionH, req), HttpSlash, Config(HttpVersionMajorStart, req.(major := 0, minor := 0)))
  {
    hide Feed;
    var c := Config(HttpVersionH, req);
    GoesOne(c, LETTER_H);
    GoesOneMore(c, [LETTER_H], Config(HttpVersionT1, req), LETTER_T);
    GoesOneMore(c, [LETTER_H] + [LETTER_T], Config(HttpVersionT2, req), LETTER_T);
    GoesOneMore(c, [LETTER_H] + [LETTER_T] + [LETTER_T], Config(HttpVersionP, req), LETTER_P);
    GoesOneMore(c, [LETTER_H] + [LETTER_T] + [LETTER_T] + [LETTER_P], Config(HttpVersionSlash, req), SLASH);
    assert [LETTER_H] + [LETTER_T] + [LETTER_T] + [LETTER_P] + [SLASH] == HttpSlash;
  }

  lemma {:induction false} MajorRead(req: Request, t: Text)
    requires req.major == 0 && AreDigits(t)
    ensures Goes(Config(HttpVersionMajorStart, req), t, Config(HttpVersionMajor, req.(major := NumberOf(t))))
  {
    hide Feed;
    var c := Config(HttpVersionMajorStart, req);
    var last := |t| - 1;
    var init := t[..last];
    assert t == init + [t[last]];
    if init == [] {
      GoesOne(c, t[last]);
      assert t == [t[last]];
    } else {
      MajorRead(req, init);
      GoesOneMore(c, init, Config(HttpVersionMajor, req.(major := NumberOf(init))), t[last]);
    }
  }

  lemma {:induction false} MinorRead(req: Request, t: Text)
    requires req.minor == 0 && AreDigits(t)
    ensures Goes(Config(HttpVersionMinorStart, req), t, Config(HttpVersionMinor, req.(minor := NumberOf(t))))
  {
    hide Feed;
    var c := Config(HttpVersionMinorStart, req);
    var last := |t| - 1;
    var init := t[..last];
    assert t == init + [t[last]];
    if init == [] {
      GoesOne(c, t[last]);
      assert t == [t[last]];
    } else {
      MinorRead(req, init);
      GoesOneMore(c, init, Config(HttpVersionMinor, req.(minor := NumberOf(init))), t[last]);
    }
  }

  /** A request of which nothing has been read; its version is not set. */
  predicate Blank(req: Request)
  {
    req.verb == [] && req.uri == [] && req.headers == []
  }

  lemma LineRead(req: Request, s: Spelling)
    requires Blank(req) && IsSpelling(s)
    ensures Goes(Config(MethodStart, req), LineText(s), Config(HeaderLineStart, Meaning(s).(headers := [])))
  {
    hide Feed, NumberOf, AreDigits, IsToken, IsUri, AreLines;
    var c := Config(MethodStart, req);
    VerbRead(req, s.verb);
    assert req.verb + s.verb == s.verb;
    var r1 := req.(verb := s.verb);
    GoesOneMore(c, s.verb, Config(Method, r1), SPACE);
    UriRead(r1, s.uri);
    assert r1.uri + s.uri == s.uri;
    var r2 := r1.(uri := s.uri);
    GoesOn(c, s.verb + [SPACE], Config(Uri, r1), s.uri, Config(Uri, r2));
    GoesOneMore(c, s.verb + [SPACE] + s.uri, Config(Uri, r2), SPACE);
    HttpRead(r2);
    var r3 := r2.(major := 0, minor := 0);
    var a := s.verb + [SPACE] + s.uri + [SPACE];
    GoesOn(c, a, Config(HttpVersionH, r2), HttpSlash, Config(HttpVersionMajorStart, r3));
    VersionRead(c, a + HttpSlash, r3, s);
    assert LineText(s) == a + HttpSlash + s.major + [DOT] + s.minor + [CR] + [LF];
  }

  lemma VersionRead(c: Config, a: Text, r3: Request, s: Spelling)
    requires Goes(c, a, Config(HttpVersionMajorStart, r3)) && AreDigits(s.major) && AreDigits(s.minor)
    requires r3 == Request(s.verb, s.uri, 0, 0, [])
    ensures Goes(c, a + s.major + [DOT] + s.minor + [CR] + [LF], Config(HeaderLineStart, Meaning(s).(headers := [])))
  {
    hide Feed, NumberOf;
    MajorRead(r3, s.major);
    var r4 := r3.(major := NumberOf(s.major));
    GoesOn(c, a, Config(HttpVersionMajorStart, r3), s.major, Config(HttpVersionMajor, r4));
    GoesOneMore(c, a + s.major, Config(HttpVersionMajor, r4), DOT);
    MinorRead(r4, s.minor);
    var r5 := r4.(minor := NumberOf(s.minor));
    var b := a + s.major + [DOT];
    GoesOn(c, b, Config(HttpVersionMinorStart, r4), s.minor, Config(HttpVersionMinor, r5));
    GoesOneMore(c, b + s.minor, Config(HttpVersionMinor, r5), CR);
    GoesOneMore(c, b + s.minor + [CR], Config(ExpectingNewline1, r5), LF);
  }

  // ------------------------------------------------------------------------ the headers

  function Added(req: Request, name: Text, value: Text): Request
  {
    req.(headers := req.headers + [Header(name, value)])
  }

  lemma {:induction false} NameRead(req: Request, t: Text)
    requires IsToken(t) && t != []
    ensures Goes(Config(HeaderLineStart, req), t, Config(HeaderName, Added(req, t, [])))
  {
    hide Feed;
    var last := |t| - 1;
    var init := t[..last];
    assert t == init + [t[last]];
    if init == [] {
      GoesOne(Config(HeaderLineStart, req), t[last]);
      assert t == [t[last]];
    } else {
      NameRead(req, init);
      var d := Config(HeaderName, Added(req, init, []));
      GoesOneMore(Config(HeaderLineStart, req), init, d, t[last]);
      assert ToName(d.req, t[last]) == Added(req, t, []);
    }
  }

  /** A request with more said of its last header. */
  function Longer(req: Request, more: Text): Request
  {
    req.(headers := MoreValue(req.headers, more))
  }

  lemma NoLonger(req: Request)
    ensures Longer(req, []) == req
  {
    if req.headers != [] {
      var last := |req.headers| - 1;
      assert req.headers[last].value + [] == req.headers[last].value;
      assert MoreValue(req.headers, []) == req.headers;
    }
  }

  lemma {:induction false} ValueRead(req: Request, t: Text)
    requires IsValue(t) && req.headers != []
    ensures Goes(Config(HeaderValue, req), t, Config(HeaderValue, Longer(req, t)))
  {
    hide Feed;
    var c := Config(HeaderValue, req);
    if t == [] {
      GoesNowhere(c);
      NoLonger(req);
    } else {
      var last := |t| - 1;
      var init := t[..last];
      assert t == init + [t[last]];
      ValueRead(req, init);
      var d := Config(HeaderValue, Longer(req, init));
      GoesOneMore(c, init, d, t[last]);
      LongerStill(req, init, t[last]);
    }
  }

  lemma LongerStill(req: Request, a: Text, x: int)
    requires req.headers != []
    ensures ToValue(Longer(req, a), x) == Longer(req, a + [x])
  {
    var last := |req.headers| - 1;
    assert req.headers[last].value + a + [x] == req.headers[last].value + (a + [x]);
  }

  lemma LineEndRead(c: Config, a: Text, d: Config)
    requires Goes(c, a, d) && d.state in {HeaderValue, HeaderLws}
    ensures Goes(c, a + [CR] + [LF], Config(HeaderLineStart, d.req))
  {
    hide Feed;
    GoesOneMore(c, a, d, CR);
    GoesOneMore(c, a + [CR], Config(ExpectingNewline2, d.req), LF);
  }

  lemma HeaderRead(req: Request, name: Text, value: Text)
    requires name != [] && IsToken(name) && IsValue(value)
    ensures Goes(Config(HeaderLineStart, req), name + [COLON, SPACE] + value + [CR, LF],
                 Config(HeaderLineStart, Added(req, name, value)))
  {
    hide Feed, IsToken, IsValue;
    var c := Config(HeaderLineStart, req);
    NameRead(req, name);
    GoesOneMore(c, name, Config(HeaderName, Added(req, name, [])), COLON);
    GoesOneMore(c, name + [COLON], Config(SpaceBeforeHeaderValue, Added(req, name, [])), SPACE);
    ValueRead(Added(req, name, []), value);
    assert [] + value == value;
    assert Longer(Added(req, name, []), value) == Added(req, name, value);
    var a := name + [COLON] + [SPACE];
    GoesOn(c, a, Config(HeaderValue, Added(req, name, [])), value, Config(HeaderValue, Added(req, name, value)));
    LineEndRead(c, a + value, Config(HeaderValue, Added(req, name, value)));
    assert name + [COLON, SPACE] + value + [CR, LF] == a + value + [CR] + [LF];
  }

  lemma {:induction false} BlanksRead(req: Request, t: Text)
    requires AreBlanks(t) && req.headers != []
    ensures Goes(Config(HeaderLineStart, req), t, Config(HeaderLws, req))
  {
    hide Feed;
    var last := |t| - 1;
    var init := t[..last];
    assert t == init + [t[last]];
    if init == [] {
      GoesOne(Config(HeaderLineStart, req), t[last]);
      assert t == [t[last]];
    } else {
      BlanksRead(req, init);
      GoesOneMore(Config(HeaderLineStart, req), init, Config(HeaderLws, req), t[last]);
    }
  }

  lemma FoldRead(req: Request, blanks: Text, more: Text)
    requires AreBlanks(blanks) && IsValue(more) && (more == [] || more[0] != SPACE) && req.headers != []
    ensures Goes(Config(HeaderLineStart, req), blanks + more + [CR, LF], Config(HeaderLineStart, Longer(req, more)))
  {
    hide Feed, AreBlanks;
    var c := Config(HeaderLineStart, req);
    BlanksRead(req, blanks);
    if more == [] {
      NoLonger(req);
      assert blanks + more == blanks;
      LineEndRead(c, blanks, Config(HeaderLws, req));
    } else {
      GoesOneMore(c, blanks, Config(HeaderLws, req), more[0]);
      var req1 := ToValue(req, more[0]);
      ValueRead(req1, more[1..]);
      GoesOn(c, blanks + [more[0]], Config(HeaderValue, req1), more[1..], Config(HeaderValue, Longer(req1, more[1..])));
      FirstThenRest(req, more);
      assert blanks + [more[0]] + more[1..] == blanks + more;
      LineEndRead(c, blanks + more, Config(HeaderValue, Longer(req, more)));
    }
    assert blanks + more + [CR, LF] == blanks + more + [CR] + [LF];
  }

  lemma FirstThenRest(req: Request, more: Text)
    requires more != [] && req.headers != []
    ensures Longer(ToValue(req, more[0]), more[1..]) == Longer(req, more)
  {
    var last := |req.headers| - 1;
    assert more == [more[0]] + more[1..];
    assert req.headers[last].value + [more[0]] + more[1..] == req.headers[last].value + more;
  }

  lemma {:induction false} LinesRead(req: Request, l: Lines)
    requires AreLines(l) && req.headers == []
    ensures Goes(Config(HeaderLineStart, req), LinesText(l), Config(HeaderLineStart, req.(headers := HeadersOf(l))))
  {
    hide Feed, AreBlanks, IsToken, IsValue, Goes;
    var c := Config(HeaderLineStart, req);
    if l == NoLines {
      GoesNowhere(c);
    } else {
      LinesRead(req, l.before);
      LinesAreHeaders(l.before);
      var r := req.(headers := HeadersOf(l.before));
      if l.Line? {
        HeaderRead(r, l.name, l.value);
        var a := l.name + [COLON, SPACE] + l.value + [CR, LF];
        GoesOn(c, LinesText(l.before), Config(HeaderLineStart, r), a,
          Config(HeaderLineStart, Added(r, l.name, l.value)));
        assert LinesText(l.before) + a == LinesText(l);
      } else {
        FoldRead(r, l.blanks, l.more);
        var a := l.blanks + l.more + [CR, LF];
        GoesOn(c, LinesText(l.before), Config(HeaderLineStart, r), a, Config(HeaderLineStart, Longer(r, l.more)));
        assert LinesText(l.before) + a == LinesText(l);
      }
    }
  }

  /** Whatever way a request is written, it is accepted with the last byte, and read as what it means. */
  lemma SpellingRead(req: Request, s: Spelling)
    requires Blank(req) && IsSpelling(s)
    ensures Feed(Config(MethodStart, req), SpellingText(s)) ==
            Outcome(Config(ExpectingNewline3, Meaning(s)), Ok, |SpellingText(s)|)
  {
    hide LineText, LinesText, Feed, Goes;
    var c, r := Config(MethodStart, req), Meaning(s);
    LineRead(req, s);
    LinesRead(r.(headers := []), s.lines);
    GoesOn(c, LineText(s), Config(HeaderLineStart, r.(headers := [])), LinesText(s.lines), Config(HeaderLineStart, r));
    var a := LineText(s) + LinesText(s.lines);
    GoesOneMore(c, a, Config(HeaderLineStart, r), CR);
    LastByte(c, a + [CR], r);
    assert a + [CR] + [LF] == SpellingText(s);
  }

  lemma LastByte(c: Config, a: Text, r: Request)
    requires Goes(c, a, Config(ExpectingNewline3, r))
    ensures Feed(c, a + [LF]) == Outcome(Config(ExpectingNewline3, r), Ok, |a| + 1)
  {
    FeedJoined(c, a, [LF]);
  }

  /** A well-formed request that is written and parsed is accepted with its last byte, and is the same again. */
  lemma RoundTrip(req: Request, r: Request)
    requires Blank(req) && WellFormed(r)
    ensures Feed(Config(MethodStart, req), Render(r)) == Outcome(Config(ExpectingNewline3, r), Ok, |Render(r)|)
  {
    hide Plain, SpellingText, Feed;
    PlainWrites(r);
    SpellingRead(req, Plain(r));
  }

  // ---------------------------------------------------------------- what is accepted

  predicate BeforeVersion(s: State)
  {
    s in {MethodStart, Method, Uri, HttpVersionH, HttpVersionT1, HttpVersionT2, HttpVersionP, HttpVersionSlash}
  }

  /** What has been read so far can be part of a well-formed request. */
  predicate WellSoFar(c: Config)
  {
    && IsToken(c.req.verb) && (c.state != MethodStart ==> c.req.verb != [])
    && IsUri(c.req.uri) && AreHeaders(c.req.headers)
    && (!BeforeVersion(c.state) ==> c.req.major >= 0 && c.req.minor >= 0)
  }

  lemma StaysWell(c: Config, x: int)
    requires HasHeader(c) && WellSoFar(c) && Allowed(c, x)
    ensures WellSoFar(Next(c, x))
  {
  }

  lemma {:induction false} FeedStaysWell(c: Config, bytes: Text)
    requires HasHeader(c) && WellSoFar(c)
    ensures WellSoFar(Feed(c, bytes).config)
    ensures Feed(c, bytes).result == Ok ==> Feed(c, bytes).config.state == ExpectingNewline3
    decreases |bytes|
  {
    hide WellSoFar;
    if bytes != [] && Allowed(c, bytes[0]) {
      StaysWell(c, bytes[0]);
      if Result(c, bytes[0]) == Indeterminate { FeedStaysWell(Next(c, bytes[0]), bytes[1..]); }
    }
  }

  /**
   * Whatever is accepted, folded headers included, is a well-formed request, and writing it and parsing it
   * gives it again.
   */
  lemma ParseRenderParse(req: Request, bytes: Text)
    requires Blank(req) && Feed(Config(MethodStart, req), bytes).result == Ok
    ensures var r := Feed(Config(MethodStart, req), bytes).config.req;
      && WellFormed(r)
      && Feed(Config(MethodStart, req), Render(r)) == Outcome(Config(ExpectingNewline3, r), Ok, |Render(r)|)
  {
    hide Feed;
    FeedStaysWell(Config(MethodStart, req), bytes);
    RoundTrip(req, Feed(Config(MethodStart, req), bytes).config.req);
  }
}
