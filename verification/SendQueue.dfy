// What a connection has to send, as a queue of messages: which are taken, in
// what order they go out, and how a frame is told from the next.

module SendQueue {

  /** A pool of this many buffers is never exceeded. */
  const MAX_BUFFER_SEQUENCE_SIZE := 32

  type Message = seq<int>

  /** The messages sent, those being sent or waiting, and the number taken since there was none. */
  datatype Queue = Queue(delivered: seq<Message>, pending: seq<Message>, used: nat)

  datatype Event =
    | Send(message: Message)
    | Finished(error: bool)   // the write of the first pending message is over

  predicate Accepts(q: Queue)
  {
    q.used < MAX_BUFFER_SEQUENCE_SIZE
  }

  function Put(q: Queue, message: Message): Queue
  {
    if Accepts(q) then q.(pending := q.pending + [message], used := q.used + 1) else q
  }

  /** After an error everything that waits is dropped and the count of deliveries starts anew. */
  function Finish(q: Queue, error: bool): Queue
    requires q.pending != []
  {
    if error then Queue([], [], 0)
    else
      var rest := q.pending[1..];
      Queue(q.delivered + [q.pending[0]], rest, if rest == [] then 0 else q.used)
  }

  const Idle := Queue([], [], 0)

  /** The queue after an event; a write that is not under way cannot finish. */
  function Step(q: Queue, e: Event): Queue
  {
    match e
    case Send(message) => Put(q, message)
    case Finished(error) => if q.pending == [] then q else Finish(q, error)
  }

  function Run(es: seq<Event>): Queue
  {
    if es == [] then Idle else Step(Run(es[..|es| - 1]), es[|es| - 1])
  }

  lemma RunOn(es: seq<Event>, e: Event)
    ensures Run(es + [e]) == Step(Run(es), e)
  {
    assert (es + [e])[..|es|] == es;
  }

  /** The messages taken since the last error. */
  function Accepted(es: seq<Event>): seq<Message>
  {
    if es == [] then []
    else
      var init := es[..|es| - 1];
      var before := Run(init);
      match es[|es| - 1]
      case Send(message) => if Accepts(before) then Accepted(init) + [message] else Accepted(init)
      case Finished(error) => if error && before.pending != [] then [] else Accepted(init)
  }

  /** First in, first out: what was delivered, with what waits, is what was taken, in its order. */
  lemma {:induction false} FifoRun(es: seq<Event>)
    ensures Run(es).delivered + Run(es).pending == Accepted(es)
    ensures |Run(es).pending| <= Run(es).used <= MAX_BUFFER_SEQUENCE_SIZE
    ensures Run(es).pending == [] <==> Run(es).used == 0
  {
    if es != [] {
      var init := es[..|es| - 1];
      FifoRun(init);
      var before := Run(init);
      match es[|es| - 1] {
        case Send(message) =>
          assert (before.delivered + before.pending) + [message] == before.delivered + (before.pending + [message]);
        case Finished(error) =>
          if before.pending != [] {
            assert before.pending == [before.pending[0]] + before.pending[1..];
            assert before.delivered + before.pending == (before.delivered + [before.pending[0]]) + before.pending[1..];
          }
      }
    }
  }

  /** A message is refused only if 32 were taken since the queue was last empty. */
  lemma {:induction false} TakenSinceEmpty(es: seq<Event>) returns (k: nat)
    ensures k <= |es| && Run(es[..k]).pending == []
    ensures Run(es).used == Takings(es, k)
  {
    if es == [] || Run(es).pending == [] {
      k := |es|;
      assert es[..k] == es;
      FifoRun(es);
    } else {
      var init := es[..|es| - 1];
      k := TakenSinceEmpty(init);
      assert init[..k] == es[..k];
    }
  }

  /** The number of messages taken after the first `k` events. */
  function Takings(es: seq<Event>, k: nat): nat
    requires k <= |es|
  {
    if k == |es| then 0
    else
      var init := es[..|es| - 1];
      Takings(init, k) + if es[|es| - 1].Send? && Accepts(Run(init)) then 1 else 0
  }

  // ---------------------------------------------------------------------------- frames

  /** A payload up to here has its length in the second byte of its frame. */
  const SHORT_PAYLOAD := 126

  /** From here on the length does not fit two bytes. */
  const LONG_PAYLOAD := 65536

  /** No frame can have more than this. */
  const MAX_PAYLOAD := 0x1_0000_0000_0000_0000

  datatype Frame = Frame(fin: bool, opcode: int, payload: seq<int>)

  predicate IsFrame(f: Frame)
  {
    0 <= f.opcode < 16 && |f.payload| < MAX_PAYLOAD
  }

  function First(f: Frame): int
  {
    (if f.fin then 128 else 0) + f.opcode
  }

  /** The last `k` bytes of a number, most significant first. */
  function BigEndian(n: nat, k: nat): (bytes: seq<int>)
    ensures |bytes| == k
  {
    if k == 0 then [] else BigEndian(n / 256, k - 1) + [n % 256]
  }

  function Number(bytes: seq<int>): int
  {
    if bytes == [] then 0 else Number(bytes[..|bytes| - 1]) * 256 + bytes[|bytes| - 1]
  }

  /** The bytes of the length of an unmasked frame. */
  function Length(n: nat): (bytes: seq<int>)
    ensures bytes != []
  {
    if n < SHORT_PAYLOAD then [n] else if n < LONG_PAYLOAD then [126] + BigEndian(n, 2) else [127] + BigEndian(n, 8)
  }

  /** The bytes of an unmasked frame, as in section 5.2 of RFC 6455. */
  function Bytes(f: Frame): seq<int>
  {
    [First(f)] + Length(|f.payload|) + f.payload
  }

  /** Reads a length; the other result is what comes after it, and -1 means that it is not all there. */
  function ReadLength(wire: seq<int>): (r: (int, seq<int>))
  {
    if wire == [] then (-1, [])
    else if 0 <= wire[0] < SHORT_PAYLOAD then (wire[0], wire[1..])
    else if wire[0] == 126 && |wire| >= 3 then (Number(wire[1..3]), wire[3..])
    else if wire[0] == 127 && |wire| >= 9 then (Number(wire[1..9]), wire[9..])
    else (-1, [])
  }

  /** Reads one frame off the front of the bytes, if a whole one is there. */
  function ReadFrame(wire: seq<int>): (r: (Frame, seq<int>))
  {
    if wire == [] then (Frame(false, 0, []), wire)
    else
      var (n, rest) := ReadLength(wire[1..]);
      if n < 0 || |rest| < n then (Frame(false, 0, []), wire)
      else (Frame(wire[0] >= 128, wire[0] % 16, rest[..n]), rest[n..])
  }

  function Wire(frames: seq<Frame>): seq<int>
  {
    if frames == [] then [] else Bytes(frames[0]) + Wire(frames[1..])
  }

  /** All the frames that the bytes hold. */
  function ReadFrames(wire: seq<int>): seq<Frame>
    decreases |wire|
  {
    var (f, rest) := ReadFrame(wire);
    if |rest| < |wire| then [f] + ReadFrames(rest) else []
  }

  /** The number of values that `k` bytes have. */
  function Values(k: nat): nat
  {
    if k == 0 then 1 else 256 * Values(k - 1)
  }

  lemma {:induction false} NumberOfBytes(n: nat, k: nat)
    requires n < Values(k)
    ensures Number(BigEndian(n, k)) == n
  {
    if k > 0 {
      var bytes := BigEndian(n, k);
      assert bytes[..k - 1] == BigEndian(n / 256, k - 1);
      NumberOfBytes(n / 256, k - 1);
    }
  }

  lemma EightBytes()
    ensures Values(2) == LONG_PAYLOAD && Values(8) == MAX_PAYLOAD
  {
    assert Values(4) == 256 * Values(3) == 0x1_0000_0000;
  }

  lemma LengthRead(n: nat, rest: seq<int>)
    requires n < MAX_PAYLOAD
    ensures ReadLength(Length(n) + rest) == (n, rest)
  {
    hide Values, Number, BigEndian;
    EightBytes();
    var bytes := Length(n);
    assert (bytes + rest)[|bytes|..] == rest;
    if SHORT_PAYLOAD <= n < LONG_PAYLOAD {
      assert (bytes + rest)[1..3] == BigEndian(n, 2);
      NumberOfBytes(n, 2);
    } else if n >= LONG_PAYLOAD {
      assert (bytes + rest)[1..9] == BigEndian(n, 8);
      NumberOfBytes(n, 8);
    }
  }

  lemma FrameRead(f: Frame, rest: seq<int>)
    requires IsFrame(f)
    ensures ReadFrame(Bytes(f) + rest) == (f, rest)
  {
    hide ReadLength, Length;
    var wire := Bytes(f) + rest;
    assert wire[1..] == Length(|f.payload|) + (f.payload + rest);
    LengthRead(|f.payload|, f.payload + rest);
    assert (f.payload + rest)[..|f.payload|] == f.payload && (f.payload + rest)[|f.payload|..] == rest;
    assert First(f) % 16 == f.opcode;
  }

  /** Frames written one after another can be read back one after another. */
  lemma {:induction false} FramesRead(frames: seq<Frame>)
    requires forall i :: 0 <= i < |frames| ==> IsFrame(frames[i])
    ensures ReadFrames(Wire(frames)) == frames
  {
    if frames != [] {
      FramesRead(frames[1..]);
      FrameRead(frames[0], Wire(frames[1..]));
      assert |Wire(frames[1..])| < |Wire(frames)|;
      assert frames == [frames[0]] + frames[1..];
    }
  }
}
