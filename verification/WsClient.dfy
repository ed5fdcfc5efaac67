// The outgoing side of a connection: a pool of buffers that grows, two
// positions in it, and one write under way at a time.

module WsClient {
  import opened SendQueue

  const MAX_BUFFER_SIZE := 128

  /** The payload of a frame starts here, behind the room for its head. */
  const DATA_POS := 4

  /** A two-byte number with its bytes exchanged, as the conversion to network order leaves it. */
  function Exchanged(n: nat): nat
    requires n < LONG_PAYLOAD
  {
    n % 256 * 256 + n / 256
  }

  lemma ExchangedBytes(n: nat)
    requires n < LONG_PAYLOAD
    ensures Exchanged(n) % 256 == n / 256 && Exchanged(n) / 256 == n % 256
  {
  }

  // ------------------------------------------------------------- the bytes of a frame

  /** Where a frame with `n` bytes of payload starts in its buffer. */
  function Start(n: nat): nat
  {
    if n < SHORT_PAYLOAD then 2 else 0
  }

  /** How many bytes of the buffer are handed over for it. */
  function HandedOver(n: nat): nat
    requires n < LONG_PAYLOAD
  {
    if n < SHORT_PAYLOAD then n + 2 else Exchanged(n) + DATA_POS
  }

  /** What is put into the buffer; of a longer payload the byte 1 is not. */
  ghost predicate Written(buffer: seq<int>, f: Frame)
  {
    var n := |f.payload|;
    && n < LONG_PAYLOAD && |buffer| > n + DATA_POS
    && buffer[Start(n)] == First(f) && buffer[DATA_POS..DATA_POS + n] == f.payload
    && (n < SHORT_PAYLOAD ==> buffer[3] == n)
    && (n >= SHORT_PAYLOAD ==> buffer[2] == n / 256 && buffer[3] == n % 256)
  }

  /** The payload is short, or both bytes of its length are equal and the byte left alone happens to be right. */
  predicate SentRight(n: nat, stale: int)
  {
    n < SHORT_PAYLOAD || (n < LONG_PAYLOAD && n % 257 == 0 && stale == 126)
  }

  lemma EqualBytes(n: nat)
    requires n < LONG_PAYLOAD
    ensures Exchanged(n) == n <==> n % 257 == 0
  {
    var high, low := n / 256, n % 256;
    assert n == 257 * high + (low - high) == 257 * low + 256 * (high - low);
    if n % 257 == 0 { Multiple(high, low - high); }
  }

  lemma Multiple(high: int, d: int)
    requires (257 * high + d) % 257 == 0 && -257 < d < 257
    ensures d == 0
  {
  }

  lemma ShortHeld(buffer: seq<int>, f: Frame)
    requires Written(buffer, f) && |f.payload| < SHORT_PAYLOAD
    ensures buffer[2..4 + |f.payload|] == Bytes(f)
  {
    assert buffer[2..4 + |f.payload|] == [buffer[2], buffer[3]] + buffer[4..4 + |f.payload|];
  }

  lemma LongHeld(buffer: seq<int>, f: Frame)
    requires Written(buffer, f) && SHORT_PAYLOAD <= |f.payload|
    ensures buffer[..4 + |f.payload|] == Bytes(f) <==> buffer[1] == 126
  {
    var n := |f.payload|;
    assert BigEndian(n, 2) == [n / 256, n % 256] by {
      assert BigEndian(n, 2) == BigEndian(n / 256, 1) + [n % 256];
      assert BigEndian(n / 256, 1) == [n / 256];
    }
    assert buffer[..4 + n] == [buffer[0], buffer[1], buffer[2], buffer[3]] + buffer[4..4 + n];
    assert Bytes(f) == [First(f), 126, n / 256, n % 256] + f.payload;
    assert Bytes(f)[1] == 126;
  }

  /** What is handed over is the frame exactly if it is sent right. */
  lemma FrameExactly(buffer: seq<int>, f: Frame)
    requires Written(buffer, f)
    ensures var start, size := Start(|f.payload|), HandedOver(|f.payload|);
      start + size <= |buffer| && buffer[start..start + size] == Bytes(f) <==> SentRight(|f.payload|, buffer[1])
  {
    hide Exchanged, BigEndian;
    var n := |f.payload|;
    if n < SHORT_PAYLOAD {
      ShortHeld(buffer, f);
    } else {
      EqualBytes(n);
      LongHeld(buffer, f);
      LongLength(f);
      assert buffer[0..4 + n] == buffer[..4 + n];
    }
  }

  lemma LongLength(f: Frame)
    requires SHORT_PAYLOAD <= |f.payload| < LONG_PAYLOAD
    ensures |Bytes(f)| == |f.payload| + DATA_POS
  {
  }

  /** In a new buffer no longer frame is sent right, not even where the size is. */
  lemma NewBufferFails(f: Frame)
    requires |f.payload| == 257
    ensures HandedOver(257) == |Bytes(f)| && Written([First(f), 0, 1, 1] + f.payload + [0], f)
    ensures !SentRight(257, 0) && [First(f), 0, 1, 1] + f.payload != Bytes(f)
    ensures forall n :: n >= SHORT_PAYLOAD ==> !SentRight(n, 0)
  {
    var head := [First(f), 0, 1, 1];
    var buffer := head + f.payload + [0];
    LongLength(f);
    assert buffer[4..4 + 257] == f.payload;
    LongHeld(buffer, f);
    assert buffer[..4 + 257] == head + f.payload;
  }

  class BufferStream {
    var buffer: seq<int>
    var size: int
    var posStart: int

    constructor (capacity: nat)
      ensures buffer == seq(capacity, i => 0) && size == 0 && posStart == 0
    {
      buffer, size, posStart := seq(capacity, i => 0), 0, 0;
    }

    /** What a write of this buffer sends. */
    ghost predicate Filled()
      reads this
    {
      |buffer| >= MAX_BUFFER_SIZE && 0 <= posStart && 0 <= size && posStart + size <= |buffer|
    }

    function Content(): Message
      requires Filled()
      reads this
    {
      buffer[posStart..posStart + size]
    }

    ghost predicate Holds(m: Message)
      reads this
    {
      Filled() && Content() == m
    }

    /** Prints the text into the buffer from `pos` on, as far as it goes, with a zero after it. */
    method Print(pos: nat, text: seq<int>)
      requires pos < |buffer|
      modifies `buffer
      ensures |buffer| == old(|buffer|) && buffer[..pos] == old(buffer[..pos])
      ensures pos + |text| < |buffer| ==> buffer[pos..pos + |text|] == text
    {
      var room := |buffer| - pos;
      var count := if |text| < room then |text| else room - 1;
      buffer := buffer[..pos] + text[..count] + [0] + buffer[pos + count + 1..];
      assert pos + |text| < |buffer| ==> text[..count] == text;
    }

    /** Writes a text; 0 means that it does not fit. */
    method Write(text: seq<int>) returns (written: int)
      requires |buffer| > 0
      modifies this
      ensures |buffer| == old(|buffer|)
      ensures written == if |text| >= |buffer| then 0 else |text|
      ensures written == 0 <==> text == [] || |text| >= |buffer|
      ensures |text| < |buffer| ==> posStart == 0 && size == |text| && buffer[..size] == text
    {
      Print(0, text);
      if |text| >= |buffer| {
        return 0;
      }
      size := |text|;
      posStart := 0;
      return |text|;
    }

    /**
     * Writes a payload behind room for its head. A short one has its length before it, and a byte left free
     * before that; the length of a longer one is exchanged before it is used as the size.
     */
    method WriteFrame(payload: seq<int>) returns (written: int)
      requires |buffer| > DATA_POS
      modifies this
      ensures |buffer| == old(|buffer|) && buffer[1] == old(buffer[1])
      ensures written == 0 <==> |payload| >= |buffer| - DATA_POS
      ensures written < 0 <==> LONG_PAYLOAD <= |payload| < |buffer| - DATA_POS
      ensures written <= 0 ==> posStart == old(posStart) && size == old(size)
      ensures written > 0 ==>
        && posStart == Start(|payload|) && written == size == HandedOver(|payload|)
        && buffer[DATA_POS..DATA_POS + |payload|] == payload
        && if |payload| < SHORT_PAYLOAD then buffer[3] == |payload|
           else buffer[2] == |payload| / 256 && buffer[3] == |payload| % 256
    {
      hide Exchanged;
      Print(DATA_POS, payload);
      assert buffer[1] == buffer[..DATA_POS][1] == old(buffer[..DATA_POS])[1];
      if |payload| >= |buffer| - DATA_POS {
        return 0;
      }
      ghost var printed := buffer[DATA_POS..DATA_POS + |payload|];
      var length := |payload|;
      if |payload| < SHORT_PAYLOAD {
        buffer := buffer[3 := |payload|];
        posStart := 2;
      } else if |payload| < LONG_PAYLOAD {
        length := Exchanged(|payload|);
        ExchangedBytes(|payload|);
        buffer := buffer[2 := length % 256][3 := length / 256];
        posStart := 0;
      } else {
        return -1;
      }
      size := length + DATA_POS - posStart;
      assert buffer[DATA_POS..DATA_POS + |payload|] == printed;
      return size;
    }

    method DoubleSize()
      modifies `buffer
      ensures |buffer| == 2 * old(|buffer|) && buffer[..old(|buffer|)] == old(buffer)
    {
      buffer := buffer + seq(|buffer|, i => 0);
    }
  }

  /** A write handed to the socket: the memory it reads from and how much of it. */
  datatype AsyncWrite = AsyncWrite(source: BufferStream, start: int, length: int)

  class WsClient {
    var sendBufferSequence: seq<BufferStream>
    var readPos: int
    var writePos: int

    // the writes the socket is at
    var underWay: seq<AsyncWrite>

    // what it has sent since the last error, and what is being sent and waits
    ghost var delivered: seq<Message>
    ghost var pending: seq<Message>

    // all that has happened
    ghost var log: seq<Event>

    ghost predicate Pool()
      reads `sendBufferSequence, sendBufferSequence
    {
      && |sendBufferSequence| <= MAX_BUFFER_SEQUENCE_SIZE
      && (forall i, j :: 0 <= i < j < |sendBufferSequence| ==> sendBufferSequence[i] != sendBufferSequence[j])
      && (forall i :: 0 <= i < |sendBufferSequence| ==> |sendBufferSequence[i].buffer| >= MAX_BUFFER_SIZE)
    }

    /**
     * Idle, or busy with the buffers from `readPos` to `writePos`: then the first of them is what the
     * socket is at, and it is at nothing else.
     */
    ghost predicate InOrder()
      reads `sendBufferSequence, `readPos, `writePos, `underWay, `pending, sendBufferSequence
    {
      && Pool()
      && (if readPos == -1 then writePos == 0 && underWay == [] && pending == []
          else && 0 <= readPos < writePos <= |sendBufferSequence| && |pending| == writePos - readPos
               && (forall i :: readPos <= i < writePos ==> sendBufferSequence[i].Holds(pending[i - readPos]))
               && var first := sendBufferSequence[readPos];
                  underWay == [AsyncWrite(first, first.posStart, first.size)])
    }

    /** The queue that it shows is the one that all that has happened leads to. */
    ghost predicate Valid()
      reads this, sendBufferSequence
    {
      InOrder() && View() == Run(log)
    }

    /** First in, first out, on every run of a connection: what was delivered, with what waits, is what was taken. */
    lemma Fifo()
      requires Valid()
      ensures delivered + pending == Accepted(log) && |pending| <= MAX_BUFFER_SEQUENCE_SIZE
    {
      FifoRun(log);
    }

    /** The byte 1 of the buffer that the next message takes. */
    ghost function Stale(): int
      requires Pool() && 0 <= writePos
      reads `sendBufferSequence, `writePos, sendBufferSequence
    {
      if writePos < |sendBufferSequence| then sendBufferSequence[writePos].buffer[1] else 0
    }

    /** At most one write is under way; there is one exactly while a position is read. */
    lemma OneWrite()
      requires Valid()
      ensures |underWay| <= 1 && (underWay != [] <==> readPos != -1) && (underWay != [] <==> pending != [])
      ensures readPos != -1 ==> 0 <= readPos < writePos <= |sendBufferSequence| <= MAX_BUFFER_SEQUENCE_SIZE
      ensures readPos != -1 ==>
        underWay[0].source == sendBufferSequence[readPos] && underWay[0].source.Content() == pending[0]
    {
    }

    ghost function View(): Queue
      reads `delivered, `pending, `writePos
    {
      Queue(delivered, pending, if writePos < 0 then 0 else writePos)
    }

    constructor ()
      ensures Valid() && View() == Idle && fresh(sendBufferSequence) && |sendBufferSequence| == 8 && log == []
      ensures Stale() == 0
    {
      readPos, writePos, underWay, delivered, pending, log := -1, 0, [], [], [], [];
      var buffers: seq<BufferStream> := [];
      for i := 0 to 8
        invariant |buffers| == i && fresh(buffers)
        invariant forall j, k :: 0 <= j < k < i ==> buffers[j] != buffers[k]
        invariant forall j :: 0 <= j < i ==> |buffers[j].buffer| == MAX_BUFFER_SIZE && buffers[j].buffer[1] == 0
      {
        var bs := new BufferStream(MAX_BUFFER_SIZE);
        buffers := buffers + [bs];
      }
      sendBufferSequence := buffers;
    }

    /** Takes the next buffer of the pool, or a new one as long as there may be more. */
    method AllocAvailableBuffer() returns (ok: bool, buffer: BufferStream?)
      requires InOrder()
      modifies `sendBufferSequence, `writePos
      ensures ok <==> old(writePos) < MAX_BUFFER_SEQUENCE_SIZE
      ensures !ok ==> sendBufferSequence == old(sendBufferSequence) && writePos == old(writePos)
      ensures ok ==> Pool() && writePos == old(writePos) + 1 <= |sendBufferSequence|
      ensures ok ==> buffer == sendBufferSequence[old(writePos)] && |buffer.buffer| >= MAX_BUFFER_SIZE
      ensures ok ==> old(sendBufferSequence) <= sendBufferSequence
      ensures ok ==> buffer in old(sendBufferSequence) || fresh(buffer)
      ensures ok ==> buffer.buffer[1] == old(Stale())
      ensures forall b :: b in sendBufferSequence && b !in old(sendBufferSequence) ==> fresh(b)
    {
      if writePos < |sendBufferSequence| {
        buffer := sendBufferSequence[writePos];
        writePos := writePos + 1;
        return true, buffer;
      } else {
        if |sendBufferSequence| >= MAX_BUFFER_SEQUENCE_SIZE {
          return false, null;
        }
        var currBuffer := new BufferStream(MAX_BUFFER_SIZE);
        sendBufferSequence := sendBufferSequence + [currBuffer];
        buffer := sendBufferSequence[writePos];
        writePos := writePos + 1;
        return true, buffer;
      }
    }

    /** Hands the first filled buffer to the socket. */
    method AsyncWriteFirst()
      requires 0 <= readPos < |sendBufferSequence|
      modifies `underWay
      ensures underWay == old(underWay) +
        [AsyncWrite(sendBufferSequence[readPos], sendBufferSequence[readPos].posStart,
                    sendBufferSequence[readPos].size)]
    {
      var currBuffer := sendBufferSequence[readPos];
      underWay := underWay + [AsyncWrite(currBuffer, currBuffer.posStart, currBuffer.size)];
    }

    /** The buffers in use keep their place, their size and every byte. */
    twostate predicate InUseUntouched()
      reads this, sendBufferSequence
    {
      old(readPos) == -1 ||
      (0 <= old(readPos) <= old(writePos) <= |old(sendBufferSequence)| && old(writePos) <= |sendBufferSequence|
       && forall i :: old(readPos) <= i < old(writePos) ==>
            sendBufferSequence[i] == old(sendBufferSequence[i])
            && old(sendBufferSequence[i]).buffer == old(sendBufferSequence[i].buffer))
    }

    /** Writes a text into a buffer, which grows until it fits. */
    method FillText(currBuffer: BufferStream, text: seq<int>)
      requires |currBuffer.buffer| >= MAX_BUFFER_SIZE && text != []
      modifies currBuffer
      ensures currBuffer.Holds(text)
    {
      while true
        invariant |currBuffer.buffer| >= MAX_BUFFER_SIZE
        decreases |text| + MAX_BUFFER_SIZE - |currBuffer.buffer|
      {
        var bytesWrited := currBuffer.Write(text);
        if bytesWrited == 0 {
          currBuffer.DoubleSize();
          continue;
        } else if bytesWrited < 0 {
          return;
        }
        break;
      }
    }

    /**
     * Writes a frame into a buffer, which grows until it fits; the first byte comes last. One that is too long
     * is given up.
     */
    method FillFrame(currBuffer: BufferStream, f: Frame) returns (ok: bool)
      requires |currBuffer.buffer| >= MAX_BUFFER_SIZE && 0 <= f.opcode < 16
      modifies currBuffer
      ensures |currBuffer.buffer| >= MAX_BUFFER_SIZE && (ok <==> |f.payload| < LONG_PAYLOAD)
      ensures currBuffer.buffer[1] == old(currBuffer.buffer[1])
      ensures ok ==> Written(currBuffer.buffer, f)
      ensures ok ==> currBuffer.posStart == Start(|f.payload|) && currBuffer.size == HandedOver(|f.payload|)
      ensures ok ==> (currBuffer.Holds(Bytes(f)) <==> SentRight(|f.payload|, old(currBuffer.buffer[1])))
    {
      hide Exchanged, Bytes;
      while true
        invariant |currBuffer.buffer| >= MAX_BUFFER_SIZE && currBuffer.buffer[1] == old(currBuffer.buffer[1])
        decreases |f.payload| + MAX_BUFFER_SIZE - |currBuffer.buffer|
      {
        var bytesWrited := currBuffer.WriteFrame(f.payload);
        if bytesWrited == 0 {
          ghost var was := currBuffer.buffer;
          currBuffer.DoubleSize();
          assert currBuffer.buffer[1] == currBuffer.buffer[..|was|][1];
          continue;
        } else if bytesWrited < 0 {
          return false;
        }
        break;
      }
      ghost var printed := currBuffer.buffer[DATA_POS..DATA_POS + |f.payload|];
      var finByte := (if f.fin then 128 else 0) + f.opcode;
      currBuffer.buffer := currBuffer.buffer[currBuffer.posStart := finByte];
      assert currBuffer.buffer[DATA_POS..DATA_POS + |f.payload|] == printed;
      FrameExactly(currBuffer.buffer, f);
      ok := true;
    }

    /** The buffer is the last that was taken, and those before it are in use. */
    ghost predicate Behind(currBuffer: BufferStream)
      reads `sendBufferSequence, `readPos, `writePos, `underWay, `pending, sendBufferSequence
    {
      && Pool() && 0 < writePos <= |sendBufferSequence| && currBuffer == sendBufferSequence[writePos - 1]
      && (if readPos == -1 then writePos == 1 && underWay == [] && pending == []
          else && 0 <= readPos < writePos - 1 && |pending| == writePos - 1 - readPos
               && (forall i :: readPos <= i < writePos - 1 ==> sendBufferSequence[i].Holds(pending[i - readPos]))
               && var first := sendBufferSequence[readPos];
                  underWay == [AsyncWrite(first, first.posStart, first.size)])
    }

    /** A buffer is filled behind those in use: it waits, or the socket starts on it. */
    method Enqueue(currBuffer: BufferStream, ghost message: Message)
      requires Behind(currBuffer)
      modifies `readPos, `underWay, `pending
      ensures if currBuffer.Holds(message) then InOrder() && pending == old(pending) + [message]
              else pending == old(pending) && !InOrder()
      ensures old(readPos) != -1 ==> readPos == old(readPos) && underWay == old(underWay)
      ensures old(readPos) == -1 ==> underWay == [AsyncWrite(currBuffer, currBuffer.posStart, currBuffer.size)]
    {
      if currBuffer.Holds(message) {
        pending := pending + [message];
      }
      StartSending();
    }

    /** Sends a text; it is dropped if all buffers have been used. */
    method Write(text: seq<int>)
      requires Valid() && text != []
      modifies this, sendBufferSequence
      ensures Valid() && (forall b :: b in sendBufferSequence && b !in old(sendBufferSequence) ==> fresh(b))
      ensures View() == Put(old(View()), text)
      ensures InUseUntouched()
    {
      hide InOrder, Run, Put;
      TakeText(text);
      RunOn(log, Send(text));
      log := log + [Send(text)];
    }

    method TakeText(text: seq<int>)
      requires InOrder() && text != []
      modifies `sendBufferSequence, `readPos, `writePos, `underWay, `pending, sendBufferSequence
      ensures InOrder() && (forall b :: b in sendBufferSequence && b !in old(sendBufferSequence) ==> fresh(b))
      ensures View() == Put(old(View()), text)
      ensures InUseUntouched()
    {
      var ok, currBuffer := AllocAvailableBuffer();
      if ok {
        PutText(currBuffer, text);
      }
    }

    method PutText(currBuffer: BufferStream, text: seq<int>)
      requires Behind(currBuffer) && text != []
      modifies `readPos, `underWay, `pending, currBuffer
      ensures InOrder() && pending == old(pending) + [text]
    {
      FillText(currBuffer, text);
      Enqueue(currBuffer, text);
    }

    /**
     * Sends a frame; it is dropped if all buffers have been used. It is put at the end of the queue as its bytes
     * exactly if it is sent right; else its buffer holds something else, and if it is too long, the buffer is
     * taken with nothing to send.
     */
    method WriteFrame(f: Frame)
      requires Valid() && 0 <= f.opcode < 16
      modifies this, sendBufferSequence
      ensures forall b :: b in sendBufferSequence && b !in old(sendBufferSequence) ==> fresh(b)
      ensures Valid() && View() == Put(old(View()), Bytes(f)) <==>
              !Accepts(old(View())) || SentRight(|f.payload|, old(Stale()))
      ensures InUseUntouched()
      ensures Accepts(old(View())) ==> writePos == old(writePos) + 1 <= |sendBufferSequence|
      ensures Accepts(old(View())) && |f.payload| < LONG_PAYLOAD ==>
        Prepared(sendBufferSequence[old(writePos)], f, old(Stale()), old(readPos), old(underWay))
      ensures Accepts(old(View())) && |f.payload| >= LONG_PAYLOAD ==> underWay == old(underWay)
    {
      hide InOrder, Run, Put, Bytes, SentRight, HandedOver, Exchanged;
      InOrderPool();
      TakeFrame(f);
      RunOn(log, Send(Bytes(f)));
      log := log + [Send(Bytes(f))];
    }

    lemma InOrderPool()
      requires InOrder()
      ensures Pool() && 0 <= writePos
    {
    }

    method TakeFrame(f: Frame)
      requires InOrder() && 0 <= f.opcode < 16
      modifies `sendBufferSequence, `readPos, `writePos, `underWay, `pending, sendBufferSequence
      ensures forall b :: b in sendBufferSequence && b !in old(sendBufferSequence) ==> fresh(b)
      ensures InOrder() && View() == Put(old(View()), Bytes(f)) <==>
              !Accepts(old(View())) || SentRight(|f.payload|, old(Stale()))
      ensures InUseUntouched()
      ensures Accepts(old(View())) ==> writePos == old(writePos) + 1 <= |sendBufferSequence|
      ensures Accepts(old(View())) && |f.payload| < LONG_PAYLOAD ==>
        Prepared(sendBufferSequence[old(writePos)], f, old(Stale()), old(readPos), old(underWay))
      ensures Accepts(old(View())) && |f.payload| >= LONG_PAYLOAD ==> underWay == old(underWay)
    {
      hide Bytes, Exchanged, SentRight, HandedOver, Prepared;
      var ok, currBuffer := AllocAvailableBuffer();
      if ok {
        PutFrame(currBuffer, f, old(Stale()));
      }
    }

    /** The buffer has been filled with the frame, and is handed over if nothing was under way. */
    ghost predicate Prepared(buffer: BufferStream, f: Frame, stale: int, reading: int, writes: seq<AsyncWrite>)
      requires |f.payload| < LONG_PAYLOAD
      reads `underWay, buffer
    {
      && buffer.posStart == Start(|f.payload|) && buffer.size == HandedOver(|f.payload|)
      && (buffer.Holds(Bytes(f)) <==> SentRight(|f.payload|, stale))
      && underWay == if reading == -1 then [AsyncWrite(buffer, buffer.posStart, buffer.size)] else writes
    }

    /** Fills a buffer behind those in use with a frame, which is sent in its turn. */
    method PutFrame(currBuffer: BufferStream, f: Frame, ghost stale: int)
      requires Behind(currBuffer) && 0 <= f.opcode < 16 && stale == currBuffer.buffer[1]
      modifies `readPos, `underWay, `pending, currBuffer
      ensures InOrder() <==> SentRight(|f.payload|, stale)
      ensures pending == old(pending) + if SentRight(|f.payload|, stale) then [Bytes(f)] else []
      ensures |f.payload| < LONG_PAYLOAD ==> Prepared(currBuffer, f, stale, old(readPos), old(underWay))
      ensures |f.payload| >= LONG_PAYLOAD ==> underWay == old(underWay)
    {
      hide Bytes, Exchanged, HandedOver;
      var ok := FillFrame(currBuffer, f);
      if ok {
        Enqueue(currBuffer, Bytes(f));
      }
    }

    /** The socket starts on the first filled buffer, if it is at nothing. */
    method StartSending()
      requires readPos == -1 ==> sendBufferSequence != []
      modifies `readPos, `underWay
      ensures old(readPos) != -1 ==> readPos == old(readPos) && underWay == old(underWay)
      ensures old(readPos) == -1 ==>
        readPos == 0 && underWay == old(underWay) +
          [AsyncWrite(sendBufferSequence[0], sendBufferSequence[0].posStart, sendBufferSequence[0].size)]
    {
      if readPos == -1 {
        readPos := readPos + 1;
        AsyncWriteFirst();
      }
    }

    /**
     * The socket has finished its write, with or without an error: what it sent is what the buffer holds,
     * and it is asked for the next.
     */
    method SendHandle(error: bool) returns (ghost sent: Message)
      requires Valid() && underWay != []
      modifies `readPos, `writePos, `underWay, `delivered, `pending, `log
      ensures Valid() && View() == Finish(old(View()), error)
      ensures sent == old(pending)[0]
    {
      OneWrite();
      hide InOrder, Run, Finish;
      RunOn(log, Finished(error));
      sent := Handle(error);
      log := log + [Finished(error)];
    }

    method Handle(error: bool) returns (ghost sent: Message)
      requires InOrder() && underWay != []
      modifies `readPos, `writePos, `underWay, `delivered, `pending
      ensures old(pending) != [] && InOrder() && View() == Finish(old(View()), error)
      ensures sent == old(pending)[0]
    {
      var done := underWay[0];
      sent := done.source.buffer[done.start..done.start + done.length];
      underWay := underWay[1..];
      if error {
        delivered, pending := [], [];
        readPos := -1;
        writePos := 0;
        return;
      }
      delivered, pending := delivered + [sent], pending[1..];
      readPos := readPos + 1;
      if readPos >= writePos {
        readPos := -1;
        writePos := 0;
        return;
      } else {
        AsyncWriteFirst();
      }
    }
  }
}
