// The request of the opening handshake: its parts, what makes it well formed,
// and how it is written. Characters are signed codes, as in the source.

module RequestGrammar {

  const CR := 13
  const LF := 10
  const TAB := 9
  const SPACE := 32
  const DOT := 46
  const SLASH := 47
  const ZERO := 48
  const COLON := 58
  const LETTER_H := 72
  const LETTER_P := 80
  const LETTER_T := 84

  type Text = seq<int>

  datatype Header = Header(name: Text, value: Text)

  datatype Request = Request(verb: Text, uri: Text, major: int, minor: int, headers: seq<Header>)

  predicate IsChar(c: int)
  {
    0 <= c <= 127
  }

  predicate IsCtl(c: int)
  {
    0 <= c <= 31 || c == 127
  }

  /** ( ) < > @ , ; : \ " / [ ] ? = { } space tab */
  predicate IsTspecial(c: int)
  {
    c in {40, 41, 60, 62, 64, 44, 59, COLON, 92, 34, SLASH, 91, 93, 63, 61, 123, 125, SPACE, TAB}
  }

  predicate IsDigit(c: int)
  {
    ZERO <= c <= ZERO + 9
  }

  /** A character of a token, as in section 2.2 of RFC 2616. */
  predicate IsTokenChar(c: int)
  {
    IsChar(c) && !IsCtl(c) && !IsTspecial(c)
  }

  /** That leaves the letters, the digits and ! # $ % & ' * + - . ^ _ ` | ~, as in section 3.2.6 of RFC 7230. */
  lemma TokenChars(c: int)
    ensures IsTokenChar(c) <==>
      || 48 <= c <= 57 || 65 <= c <= 90 || 97 <= c <= 122
      || c in {33, 35, 36, 37, 38, 39, 42, 43, 45, 46, 94, 95, 96, 124, 126}
  {
  }

  predicate IsToken(t: Text)
  {
    forall i :: 0 <= i < |t| ==> IsTokenChar(t[i])
  }

  predicate IsUri(t: Text)
  {
    forall i :: 0 <= i < |t| ==> t[i] != SPACE && !IsCtl(t[i])
  }

  predicate IsValue(t: Text)
  {
    forall i :: 0 <= i < |t| ==> !IsCtl(t[i])
  }

  predicate IsHeader(h: Header)
  {
    h.name != [] && IsToken(h.name) && IsValue(h.value)
  }

  predicate AreHeaders(headers: seq<Header>)
  {
    forall i :: 0 <= i < |headers| ==> IsHeader(headers[i])
  }

  predicate WellFormed(r: Request)
  {
    && r.verb != [] && IsToken(r.verb) && IsUri(r.uri)
    && r.major >= 0 && r.minor >= 0 && AreHeaders(r.headers)
  }

  // -------------------------------------------------------------------- ways of writing

  predicate AreDigits(t: Text)
  {
    t != [] && forall i :: 0 <= i < |t| ==> IsDigit(t[i])
  }

  /** The number that digits write, leading zeros or not. */
  function NumberOf(t: Text): (n: int)
    requires forall i :: 0 <= i < |t| ==> IsDigit(t[i])
    ensures n >= 0
  {
    if t == [] then 0
    else
      assert IsDigit(t[|t| - 1]);
      NumberOf(t[..|t| - 1]) * 10 + (t[|t| - 1] - ZERO)
  }

  predicate AreBlanks(t: Text)
  {
    t != [] && forall i :: 0 <= i < |t| ==> t[i] == SPACE || t[i] == TAB
  }

  /** The lines of the headers: a line begins a header, or it goes on with the header of the line before it. */
  datatype Lines =
    | NoLines
    | Line(before: Lines, name: Text, value: Text)
    | Fold(before: Lines, blanks: Text, more: Text)

  predicate AreLines(l: Lines)
  {
    match l
    case NoLines => true
    case Line(before, name, value) => AreLines(before) && name != [] && IsToken(name) && IsValue(value)
    case Fold(before, blanks, more) =>
      AreLines(before) && before != NoLines && AreBlanks(blanks) && IsValue(more) && (more == [] || more[0] != SPACE)
  }

  /** The text of the lines, the last without its end. */
  function OpenText(l: Lines): Text
    decreases l, 0
  {
    match l
    case NoLines => []
    case Line(before, name, value) => LinesText(before) + name + [COLON, SPACE] + value
    case Fold(before, blanks, more) => LinesText(before) + blanks + more
  }

  function LinesText(l: Lines): Text
    decreases l, 1
  {
    if l == NoLines then [] else OpenText(l) + [CR, LF]
  }

  function MoreValue(headers: seq<Header>, more: Text): (longer: seq<Header>)
    ensures |longer| == |headers|
  {
    if headers == [] then []
    else
      var last := |headers| - 1;
      headers[last := Header(headers[last].name, headers[last].value + more)]
  }

  function HeadersOf(l: Lines): (headers: seq<Header>)
    ensures headers == [] <==> l == NoLines || (l.Fold? && HeadersOf(l.before) == [])
  {
    match l
    case NoLines => []
    case Line(before, name, value) => HeadersOf(before) + [Header(name, value)]
    case Fold(before, _, more) => MoreValue(HeadersOf(before), more)
  }

  /** A way to write a request: its digits may begin with zeros and its headers may be folded. */
  datatype Spelling = Spelling(verb: Text, uri: Text, major: Text, minor: Text, lines: Lines)

  predicate IsSpelling(s: Spelling)
  {
    && s.verb != [] && IsToken(s.verb) && IsUri(s.uri)
    && AreDigits(s.major) && AreDigits(s.minor) && AreLines(s.lines)
  }

  const HttpSlash := [LETTER_H, LETTER_T, LETTER_T, LETTER_P, SLASH]

  function LineText(s: Spelling): Text
  {
    s.verb + [SPACE] + s.uri + [SPACE] + HttpSlash + s.major + [DOT] + s.minor + [CR, LF]
  }

  function SpellingText(s: Spelling): Text
  {
    LineText(s) + LinesText(s.lines) + [CR, LF]
  }

  /** The request that is written. */
  function Meaning(s: Spelling): Request
    requires AreDigits(s.major) && AreDigits(s.minor)
  {
    Request(s.verb, s.uri, NumberOf(s.major), NumberOf(s.minor), HeadersOf(s.lines))
  }

  // ----------------------------------------------------------------- the plain way

  /** The decimal digits of a number. */
  function Digits(n: nat): (t: Text)
    ensures AreDigits(t)
  {
    if n < 10 then [ZERO + n] else Digits(n / 10) + [ZERO + n % 10]
  }

  lemma {:induction false} DigitsWrite(n: nat)
    ensures NumberOf(Digits(n)) == n
  {
    if n >= 10 {
      DigitsWrite(n / 10);
      assert Digits(n)[..|Digits(n)| - 1] == Digits(n / 10);
    } else {
      assert [ZERO + n][..0] == [];
    }
  }

  /** One line for each header. */
  function PlainLines(headers: seq<Header>): Lines
  {
    if headers == [] then NoLines
    else
      var last := |headers| - 1;
      Line(PlainLines(headers[..last]), headers[last].name, headers[last].value)
  }

  lemma {:induction false} PlainLinesWrite(headers: seq<Header>)
    requires AreHeaders(headers)
    ensures AreLines(PlainLines(headers)) && HeadersOf(PlainLines(headers)) == headers
  {
    if headers != [] {
      var last := |headers| - 1;
      PlainLinesWrite(headers[..last]);
      assert headers == headers[..last] + [headers[last]];
      assert IsHeader(headers[last]);
    }
  }

  function Plain(r: Request): (s: Spelling)
    requires r.major >= 0 && r.minor >= 0
  {
    Spelling(r.verb, r.uri, Digits(r.major), Digits(r.minor), PlainLines(r.headers))
  }

  function Render(r: Request): Text
    requires r.major >= 0 && r.minor >= 0
  {
    SpellingText(Plain(r))
  }

  lemma PlainWrites(r: Request)
    requires WellFormed(r)
    ensures IsSpelling(Plain(r)) && Meaning(Plain(r)) == r
  {
    hide Digits, PlainLines, NumberOf, HeadersOf;
    DigitsWrite(r.major);
    DigitsWrite(r.minor);
    PlainLinesWrite(r.headers);
  }

  /** Folded headers are headers too. */
  lemma {:induction false} LinesAreHeaders(l: Lines)
    requires AreLines(l)
    ensures AreHeaders(HeadersOf(l)) && (HeadersOf(l) == [] <==> l == NoLines)
  {
    if l != NoLines {
      LinesAreHeaders(l.before);
    }
  }
}
