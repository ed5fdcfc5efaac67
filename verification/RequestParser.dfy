// The parser of the opening handshake, a machine that takes one byte at a
// time, and the loop that feeds it.

module RequestParser {
  import opened RequestGrammar

  datatype State =
    | MethodStart
    | Method
    | Uri
    | HttpVersionH
    | HttpVersionT1
    | HttpVersionT2
    | HttpVersionP
    | HttpVersionSlash
    | HttpVersionMajorStart
    | HttpVersionMajor
    | HttpVersionMinorStart
    | HttpVersionMinor
    | ExpectingNewline1
    | HeaderLineStart
    | HeaderLws
    | HeaderName
    | SpaceBeforeHeaderValue
    | HeaderValue
    | ExpectingNewline2
    | ExpectingNewline3

  datatype ParseResult = Ok | Error | Indeterminate

  datatype Config = Config(state: State, req: Request)

  /** There is a header to add to in every state that adds to one. */
  predicate HasHeader(c: Config)
  {
    c.state in {HeaderLws, HeaderName, SpaceBeforeHeaderValue, HeaderValue, ExpectingNewline2} ==> c.req.headers != []
  }

  function ToName(req: Request, input: int): Request
    requires req.headers != []
  {
    var last := |req.headers| - 1;
    req.(headers := req.headers[last := req.headers[last].(name := req.headers[last].name + [input])])
  }

  function ToValue(req: Request, input: int): Request
    requires req.headers != []
  {
    var last := |req.headers| - 1;
    req.(headers := req.headers[last := req.headers[last].(value := req.headers[last].value + [input])])
  }

  /** Where a byte leads, if it does not end the parse. */
  function Next(c: Config, input: int): (n: Config)
    requires HasHeader(c)
    ensures HasHeader(n)
  {
    var req := c.req;
    match c.state
    case MethodStart | Method =>
      if c.state == Method && input == SPACE then Config(Uri, req)
      else Config(Method, req.(verb := req.verb + [input]))
    case Uri => if input == SPACE then Config(HttpVersionH, req) else Config(Uri, req.(uri := req.uri + [input]))
    case HttpVersionH => Config(HttpVersionT1, req)
    case HttpVersionT1 => Config(HttpVersionT2, req)
    case HttpVersionT2 => Config(HttpVersionP, req)
    case HttpVersionP => Config(HttpVersionSlash, req)
    case HttpVersionSlash => Config(HttpVersionMajorStart, req.(major := 0, minor := 0))
    case HttpVersionMajorStart | HttpVersionMajor =>
      if input == DOT then Config(HttpVersionMinorStart, req)
      else Config(HttpVersionMajor, req.(major := req.major * 10 + input - ZERO))
    case HttpVersionMinorStart | HttpVersionMinor =>
      if input == CR then Config(ExpectingNewline1, req)
      else Config(HttpVersionMinor, req.(minor := req.minor * 10 + input - ZERO))
    case ExpectingNewline1 | ExpectingNewline2 => Config(HeaderLineStart, req)
    case HeaderLineStart =>
      if input == CR then Config(ExpectingNewline3, req)
      else if req.headers != [] && (input == SPACE || input == TAB) then Config(HeaderLws, req)
      else Config(HeaderName, req.(headers := req.headers + [Header([input], [])]))
    case HeaderLws =>
      if input == CR then Config(ExpectingNewline2, req)
      else if input == SPACE || input == TAB then c
      else Config(HeaderValue, ToValue(req, input))
    case HeaderName =>
      if input == COLON then Config(SpaceBeforeHeaderValue, req) else Config(HeaderName, ToName(req, input))
    case SpaceBeforeHeaderValue => Config(HeaderValue, req)
    case HeaderValue => if input == CR then Config(ExpectingNewline2, req) else Config(HeaderValue, ToValue(req, input))
    case ExpectingNewline3 => c
  }

  /** Whether a byte is allowed here. */
  predicate Allowed(c: Config, input: int)
  {
    match c.state
    case MethodStart => IsTokenChar(input)
    case Method => input == SPACE || IsTokenChar(input)
    case Uri => input == SPACE || !IsCtl(input)
    case HttpVersionH => input == LETTER_H
    case HttpVersionT1 | HttpVersionT2 => input == LETTER_T
    case HttpVersionP => input == LETTER_P
    case HttpVersionSlash => input == SLASH
    case HttpVersionMajorStart | HttpVersionMinorStart => IsDigit(input)
    case HttpVersionMajor => input == DOT || IsDigit(input)
    case HttpVersionMinor => input == CR || IsDigit(input)
    case ExpectingNewline1 | ExpectingNewline2 | ExpectingNewline3 => input == LF
    case HeaderLineStart =>
      input == CR || (c.req.headers != [] && (input == SPACE || input == TAB)) || IsTokenChar(input)
    case HeaderLws => input == CR || input == SPACE || input == TAB || !IsCtl(input)
    case HeaderName => input == COLON || IsTokenChar(input)
    case SpaceBeforeHeaderValue => input == SPACE
    case HeaderValue => input == CR || !IsCtl(input)
  }

  function Result(c: Config, input: int): ParseResult
  {
    if !Allowed(c, input) then Error
    else if c.state == ExpectingNewline3 then Ok
    else Indeterminate
  }

  class WsRequestParser {
    var state: State

    constructor ()
      ensures state == MethodStart
    {
      state := MethodStart;
    }

    method Reset()
      modifies this
      ensures state == MethodStart
    {
      state := MethodStart;
    }

    /** Takes one byte; a byte that is not allowed changes nothing. */
    method Consume(req: Request, input: int) returns (result: ParseResult, r: Request)
      requires HasHeader(Config(state, req))
      modifies this
      ensures result == Result(Config(old(state), req), input)
      ensures Config(state, r) ==
        if Allowed(Config(old(state), req), input) then Next(Config(old(state), req), input)
        else Config(old(state), req)
      ensures HasHeader(Config(state, r))
    {
      r := req;
      match state {
        case MethodStart =>
          if !IsChar(input) || IsCtl(input) || IsTspecial(input) {
            return Error, r;
          } else {
            state := Method;
            r := r.(verb := r.verb + [input]);
            return Indeterminate, r;
          }
        case Method =>
          if input == SPACE {
            state := Uri;
            return Indeterminate, r;
          } else if !IsChar(input) || IsCtl(input) || IsTspecial(input) {
            return Error, r;
          } else {
            r := r.(verb := r.verb + [input]);
            return Indeterminate, r;
          }
        case Uri =>
          if input == SPACE {
            state := HttpVersionH;
            return Indeterminate, r;
          } else if IsCtl(input) {
            return Error, r;
          } else {
            r := r.(uri := r.uri + [input]);
            return Indeterminate, r;
          }
        case HttpVersionH =>
          if input == LETTER_H {
            state := HttpVersionT1;
            return Indeterminate, r;
          } else {
            return Error, r;
          }
        case HttpVersionT1 =>
          if input == LETTER_T {
            state := HttpVersionT2;
            return Indeterminate, r;
          } else {
            return Error, r;
          }
        case HttpVersionT2 =>
          if input == LETTER_T {
            state := HttpVersionP;
            return Indeterminate, r;
          } else {
            return Error, r;
          }
        case HttpVersionP =>
          if input == LETTER_P {
            state := HttpVersionSlash;
            return Indeterminate, r;
          } else {
            return Error, r;
          }
        case HttpVersionSlash =>
          if input == SLASH {
            r := r.(major := 0, minor := 0);
            state := HttpVersionMajorStart;
            return Indeterminate, r;
          } else {
            return Error, r;
          }
        case HttpVersionMajorStart =>
          if IsDigit(input) {
            r := r.(major := r.major * 10 + input - ZERO);
            state := HttpVersionMajor;
            return Indeterminate, r;
          } else {
            return Error, r;
          }
        case HttpVersionMajor =>
          if input == DOT {
            state := HttpVersionMinorStart;
            return Indeterminate, r;
          } else if IsDigit(input) {
            r := r.(major := r.major * 10 + input - ZERO);
            return Indeterminate, r;
          } else {
            return Error, r;
          }
        case HttpVersionMinorStart =>
          if IsDigit(input) {
            r := r.(minor := r.minor * 10 + input - ZERO);
            state := HttpVersionMinor;
            return Indeterminate, r;
          } else {
            return Error, r;
          }
        case HttpVersionMinor =>
          if input == CR {
            state := ExpectingNewline1;
            return Indeterminate, r;
          } else if IsDigit(input) {
            r := r.(minor := r.minor * 10 + input - ZERO);
            return Indeterminate, r;
          } else {
            return Error, r;
          }
        case ExpectingNewline1 =>
          if input == LF {
            state := HeaderLineStart;
            return Indeterminate, r;
          } else {
            return Error, r;
          }
        case HeaderLineStart =>
          if input == CR {
            state := ExpectingNewline3;
            return Indeterminate, r;
          } else if r.headers != [] && (input == SPACE || input == TAB) {
            state := HeaderLws;
            return Indeterminate, r;
          } else if !IsChar(input) || IsCtl(input) || IsTspecial(input) {
            return Error, r;
          } else {
            r := r.(headers := r.headers + [Header([], [])]);
            r := ToName(r, input);
            assert [] + [input] == [input];
            state := HeaderName;
            return Indeterminate, r;
          }
        case HeaderLws =>
          if input == CR {
            state := ExpectingNewline2;
            return Indeterminate, r;
          } else if input == SPACE || input == TAB {
            return Indeterminate, r;
          } else if IsCtl(input) {
            return Error, r;
          } else {
            state := HeaderValue;
            r := ToValue(r, input);
            return Indeterminate, r;
          }
        case HeaderName =>
          if input == COLON {
            state := SpaceBeforeHeaderValue;
            return Indeterminate, r;
          } else if !IsChar(input) || IsCtl(input) || IsTspecial(input) {
            return Error, r;
          } else {
            r := ToName(r, input);
            return Indeterminate, r;
          }
        case SpaceBeforeHeaderValue =>
          if input == SPACE {
            state := HeaderValue;
            return Indeterminate, r;
          } else {
            return Error, r;
          }
        case HeaderValue =>
          if input == CR {
            state := ExpectingNewline2;
            return Indeterminate, r;
          } else if IsCtl(input) {
            return Error, r;
          } else {
            r := ToValue(r, input);
            return Indeterminate, r;
          }
        case ExpectingNewline2 =>
          if input == LF {
            state := HeaderLineStart;
            return Indeterminate, r;
          } else {
            return Error, r;
          }
        case ExpectingNewline3 =>
          if input == LF {
            return Ok, r;
          }
          return Error, r;
      }
    }

    /** Feeds bytes until one decides, and tells how many it took. */
    method Parse(req: Request, bytes: Text) returns (result: ParseResult, r: Request, consumed: nat)
      requires HasHeader(Config(state, req))
      modifies this
      ensures Outcome(Config(state, r), result, consumed) == Feed(Config(old(state), req), bytes)
      ensures HasHeader(Config(state, r))
    {
      ghost var start := Config(state, req);
      result, r, consumed := Indeterminate, req, 0;
      while consumed < |bytes|
        invariant 0 <= consumed <= |bytes| && HasHeader(Config(state, r)) && result == Indeterminate
        invariant Feed(start, bytes) == Feed(Config(state, r), bytes[consumed..]).Later(consumed)
      {
        ghost var c := Config(state, r);
        FeedFirst(c, bytes, consumed);
        result, r := Consume(r, bytes[consumed]);
        consumed := consumed + 1;
        if result != Indeterminate {
          return;
        }
      }
      assert bytes[consumed..] == [];
    }
  }

  // --------------------------------------------------------------------------- feeding

  datatype Outcome = Outcome(config: Config, result: ParseResult, consumed: nat) {
    /** The outcome if `n` bytes were taken before. */
    function Later(n: nat): Outcome
    {
      this.(consumed := consumed + n)
    }
  }

  /** What comes of a string of bytes: the first byte that decides ends it. */
  function Feed(c: Config, bytes: Text): (o: Outcome)
    requires HasHeader(c)
    ensures HasHeader(o.config) && o.consumed <= |bytes|
    ensures o.result == Indeterminate ==> o.consumed == |bytes|
    decreases |bytes|
  {
    if bytes == [] then Outcome(c, Indeterminate, 0)
    else
      var n := if Allowed(c, bytes[0]) then Next(c, bytes[0]) else c;
      if Result(c, bytes[0]) == Indeterminate then Feed(n, bytes[1..]).Later(1) else Outcome(n, Result(c, bytes[0]), 1)
  }

  lemma FeedFirst(c: Config, bytes: Text, k: nat)
    requires HasHeader(c) && k < |bytes|
    ensures var n := if Allowed(c, bytes[k]) then Next(c, bytes[k]) else c;
      && HasHeader(n)
      && Feed(c, bytes[k..]) ==
         if Result(c, bytes[k]) == Indeterminate then Feed(n, bytes[k + 1..]).Later(1)
         else Outcome(n, Result(c, bytes[k]), 1)
  {
    assert bytes[k..][1..] == bytes[k + 1..];
  }

  /** Feeding two strings one after the other is feeding them joined. */
  lemma {:induction false} FeedJoined(c: Config, a: Text, b: Text)
    requires HasHeader(c)
    ensures var o := Feed(c, a);
      Feed(c, a + b) == if o.result == Indeterminate then Feed(o.config, b).Later(|a|) else o
    decreases |a|
  {
    hide Next, Allowed;
    if a == [] {
      assert a + b == b;
    } else {
      assert (a + b)[1..] == a[1..] + b;
      if Result(c, a[0]) == Indeterminate {
        FeedJoined(if Allowed(c, a[0]) then Next(c, a[0]) else c, a[1..], b);
      }
    }
  }

  /** The reads of a connection, fed one after another until one decides. */
  function FeedChunks(c: Config, chunks: seq<Text>): (o: Outcome)
    requires HasHeader(c)
    ensures HasHeader(o.config)
    decreases |chunks|
  {
    if chunks == [] then Outcome(c, Indeterminate, 0)
    else
      var o := Feed(c, chunks[0]);
      if o.result == Indeterminate then FeedChunks(o.config, chunks[1..]).Later(|chunks[0]|) else o
  }

  function Joined(chunks: seq<Text>): Text
  {
    if chunks == [] then [] else chunks[0] + Joined(chunks[1..])
  }

  /** However the bytes are split into reads, the verdict, the request and the number of bytes taken are the same. */
  lemma {:induction false} ChunksDoNotMatter(c: Config, chunks: seq<Text>)
    requires HasHeader(c)
    ensures FeedChunks(c, chunks) == Feed(c, Joined(chunks))
    decreases |chunks|
  {
    hide Next, Allowed, Feed;
    if chunks == [] {
      NothingFed(c);
    } else {
      FeedJoined(c, chunks[0], Joined(chunks[1..]));
      var o := Feed(c, chunks[0]);
      if o.result == Indeterminate { ChunksDoNotMatter(o.config, chunks[1..]); }
    }
  }

  lemma NothingFed(c: Config)
    requires HasHeader(c)
    ensures Feed(c, []) == Outcome(c, Indeterminate, 0)
  {
  }
}
