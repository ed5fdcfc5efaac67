// The accept key of the WebSocket handshake: section 4.2.2 of RFC 6455 over
// SHA-1 (RFC 3174) and Base64 (RFC 4648).

module AcceptKey {
  import opened Sha1
  import opened Base64

  // ------------------------------------------------ sections 4 and 6.1 of RFC 3174

  /** Four bytes as a word, the first byte on the left. */
  function Word(b0: bv8, b1: bv8, b2: bv8, b3: bv8): bv32
  {
    (b0 as bv32 << 24) | (b1 as bv32 << 16) | (b2 as bv32 << 8) | b3 as bv32
  }

  /** The words of some bytes, four bytes to a word. */
  function Words(bytes: seq<bv8>): seq<bv32>
    requires |bytes| % 4 == 0
  {
    if bytes == [] then []
    else [Word(bytes[0], bytes[1], bytes[2], bytes[3])] + Words(bytes[4..])
  }

  function WordBytes(w: bv32): seq<bv8>
  {
    [((w >> 24) & 0xff) as bv8, ((w >> 16) & 0xff) as bv8, ((w >> 8) & 0xff) as bv8, (w & 0xff) as bv8]
  }

  function BytesOf(words: seq<bv32>): (bytes: seq<bv8>)
    ensures |bytes| == 4 * |words|
  {
    if words == [] then [] else WordBytes(words[0]) + BytesOf(words[1..])
  }

  function Zeros(n: nat): (z: seq<bv8>)
    ensures |z| == n
  {
    seq(n, _ => 0)
  }

  /** A number as eight bytes, the most significant first. */
  function LengthBytes(n: nat): (bytes: seq<bv8>)
    ensures |bytes| == 8
  {
    [Digit(n, 0x100_0000_0000_0000), Digit(n, 0x1_0000_0000_0000), Digit(n, 0x100_0000_0000), Digit(n, 0x1_0000_0000),
     Digit(n, 0x100_0000), Digit(n, 0x1_0000), Digit(n, 0x100), Digit(n, 1)]
  }

  function Digit(n: nat, unit: nat): bv8
    requires unit > 0
  {
    DigitValue(n, unit) as bv8
  }

  function DigitValue(n: nat, unit: nat): (d: nat)
    requires unit > 0
    ensures d < 256
  {
    n / unit % 256
  }

  /** The number of zero bytes that leave eight bytes for the length in the last block. */
  function ZeroBytes(length: nat): (n: nat)
    ensures (length + 1 + n + 8) % 64 == 0 && n < 64
  {
    var r := length % 64;
    if r < 56 then
      assert length + 1 + (55 - r) + 8 == 64 * (length / 64 + 1);
      55 - r
    else
      assert length + 1 + (119 - r) + 8 == 64 * (length / 64 + 2);
      119 - r
  }

  /** A one bit, zeros, and the length in bits fill the message up to whole blocks of 64 bytes. */
  function Padded(message: seq<bv8>): (padded: seq<bv8>)
    ensures |padded| % 64 == 0
  {
    message + [0x80] + Zeros(ZeroBytes(|message|)) + LengthBytes(8 * |message|)
  }

  /** The hash value after all blocks. */
  function HashBlocks(h: seq<bv32>, bytes: seq<bv8>): (r: seq<bv32>)
    requires |h| == 5 && |bytes| % 64 == 0
    ensures |r| == 5
    decreases |bytes|
  {
    if bytes == [] then h
    else
      WordCount(bytes[..64]);
      HashBlocks(Compress(h, Words(bytes[..64])), bytes[64..])
  }

  lemma {:induction false} WordCount(bytes: seq<bv8>)
    requires |bytes| % 4 == 0
    ensures |Words(bytes)| == |bytes| / 4
  {
    if bytes != [] {
      WordCount(bytes[4..]);
    }
  }

  const InitialHash: seq<bv32> := [0x67452301, 0xefcdab89, 0x98badcfe, 0x10325476, 0xc3d2e1f0]

  /** The twenty bytes of the message digest. */
  function Sha1Digest(message: seq<bv8>): seq<bv8>
  {
    BytesOf(HashBlocks(InitialHash, Padded(message)))
  }

  // ----------------------------------------------------- section 4.2.2 of RFC 6455

  // "258EAFA5-E914-47DA-95CA-C5AB0DC85B11" in ASCII
  const GUID: seq<bv8> := [
    0x32, 0x35, 0x38, 0x45, 0x41, 0x46, 0x41, 0x35, 0x2d, 0x45, 0x39, 0x31,
    0x34, 0x2d, 0x34, 0x37, 0x44, 0x41, 0x2d, 0x39, 0x35, 0x43, 0x41, 0x2d,
    0x43, 0x35, 0x41, 0x42, 0x30, 0x44, 0x43, 0x38, 0x35, 0x42, 0x31, 0x31]

  /** The accept key for a client's key. */
  function Accept(key: seq<bv8>): seq<char>
  {
    Encode(Sha1Digest(key + GUID))
  }

  // ------------------------------------------------------------------ the blocks

  // The words of the first block after the key: the GUID and the one bit.
  const FirstBlockTail: seq<bv32> := [
    0x32353845, 0x41464135, 0x2d453931, 0x342d3437, 0x44412d39,
    0x3543412d, 0x43354142, 0x30444338, 0x35423131, 0x80000000]

  const LastBlock: seq<bv32> := [0, 0, 0, 0, 0, 0, 0, 0, 0, 0, 0, 0, 0, 0, 0, 480]

  lemma {:induction false} WordsAppend(a: seq<bv8>, b: seq<bv8>)
    requires |a| % 4 == 0 && |b| % 4 == 0
    ensures Words(a + b) == Words(a) + Words(b)
  {
    if a == [] {
      assert a + b == b;
    } else {
      assert (a + b)[4..] == a[4..] + b;
      WordsAppend(a[4..], b);
    }
  }

  /** The words are the bytes four by four. */
  lemma {:induction false} WordAt(bytes: seq<bv8>, i: nat)
    requires |bytes| % 4 == 0 && i < |bytes| / 4
    ensures |Words(bytes)| == |bytes| / 4
    ensures Words(bytes)[i] == Word(bytes[4 * i], bytes[4 * i + 1], bytes[4 * i + 2], bytes[4 * i + 3])
  {
    hide Word;
    WordCount(bytes);
    if i > 0 {
      WordAt(bytes[4..], i - 1);
    }
  }

  lemma GuidBytes(i: nat)
    requires i < 9
    ensures FirstBlockTail[i] == Word(GUID[4 * i], GUID[4 * i + 1], GUID[4 * i + 2], GUID[4 * i + 3])
  {
    if i < 3 {
      assert Word(0x32, 0x35, 0x38, 0x45) == 0x32353845;
      assert Word(0x41, 0x46, 0x41, 0x35) == 0x41464135;
      assert Word(0x2d, 0x45, 0x39, 0x31) == 0x2d453931;
    } else if i < 6 {
      assert Word(0x34, 0x2d, 0x34, 0x37) == 0x342d3437;
      assert Word(0x44, 0x41, 0x2d, 0x39) == 0x44412d39;
      assert Word(0x35, 0x43, 0x41, 0x2d) == 0x3543412d;
    } else {
      assert Word(0x43, 0x35, 0x41, 0x42) == 0x43354142;
      assert Word(0x30, 0x44, 0x43, 0x38) == 0x30444338;
      assert Word(0x35, 0x42, 0x31, 0x31) == 0x35423131;
    }
  }

  /** The fixed words of the first block are the GUID and the start of the padding. */
  lemma FirstBlockIsPadding()
    ensures Words(GUID + [0x80, 0, 0, 0]) == FirstBlockTail
  {
    var tail := GUID + [0x80, 0, 0, 0];
    WordCount(tail);
    forall i | 0 <= i < 10
      ensures Words(tail)[i] == FirstBlockTail[i]
    {
      WordAt(tail, i);
      if i < 9 {
        GuidBytes(i);
      } else {
        assert Word(0x80, 0, 0, 0) == 0x80000000;
      }
    }
  }

  lemma LengthIs480()
    ensures LengthBytes(480) == [0, 0, 0, 0, 0, 0, 1, 0xe0]
  {
    NoDigit(480, 0x100_0000_0000_0000);
    NoDigit(480, 0x1_0000_0000_0000);
    NoDigit(480, 0x100_0000_0000);
    NoDigit(480, 0x1_0000_0000);
    NoDigit(480, 0x100_0000);
    NoDigit(480, 0x1_0000);
    LastDigits();
    hide Digit;
  }

  lemma LastDigits()
    ensures Digit(480, 0x100) == 1 && Digit(480, 1) == 0xe0
  {
    LastValues();
    hide DigitValue;
  }

  lemma LastValues()
    ensures DigitValue(480, 0x100) == 1 && DigitValue(480, 1) == 0xe0
  {
  }

  lemma NoDigit(n: nat, unit: nat)
    requires n < unit
    ensures Digit(n, unit) == 0
  {
    NoValue(n, unit);
    hide DigitValue;
  }

  lemma NoValue(n: nat, unit: nat)
    requires n < unit
    ensures DigitValue(n, unit) == 0
  {
    assert n / unit == 0;
  }

  /** The second block is the rest of the padding and the length of 480 bits. */
  lemma LastBlockIsPadding()
    ensures Words(Zeros(56) + LengthBytes(480)) == LastBlock
  {
    hide Word, Words;
    var bytes := Zeros(56) + LengthBytes(480);
    LastBytes(bytes);
    hide Zeros, LengthBytes;
    WordCount(bytes);
    LastWords();
    forall i | 0 <= i < 16
      ensures Words(bytes)[i] == LastBlock[i]
    {
      WordAt(bytes, i);
    }
  }

  lemma LastBytes(bytes: seq<bv8>)
    requires bytes == Zeros(56) + LengthBytes(480)
    ensures |bytes| == 64 && bytes[62] == 1 && bytes[63] == 0xe0 && forall i :: 0 <= i < 62 ==> bytes[i] == 0
  {
    LengthIs480();
    hide LengthBytes;
  }

  lemma LastWords()
    ensures Word(0, 0, 0, 0) == 0 && Word(0, 0, 1, 0xe0) == 480
  {
  }

  lemma PaddedSixty(message: seq<bv8>)
    requires |message| == 60
    ensures Padded(message) == message + [0x80, 0, 0, 0] + (Zeros(56) + LengthBytes(480))
  {
    hide LengthBytes;
    assert Zeros(59) == [0, 0, 0] + Zeros(56);
  }

  /** For a key of 24 bytes the padded message is the two blocks. */
  lemma TwoBlocks(key: seq<bv8>)
    requires |key| == 24
    ensures |Words(key)| == 6
    ensures HashBlocks(InitialHash, Padded(key + GUID)) ==
      Compress(Compress(InitialHash, Words(key) + FirstBlockTail), LastBlock)
  {
    hide Compress, Words, LengthBytes, Zeros, Padded, HashBlocks;
    FirstBlockIsPadding();
    LastBlockIsPadding();
    PaddedSixty(key + GUID);
    KeyBlocks(InitialHash, key, GUID, Zeros(56) + LengthBytes(480), FirstBlockTail, LastBlock);
  }

  lemma KeyBlocks(h: seq<bv32>, key: seq<bv8>, guid: seq<bv8>, last: seq<bv8>, t: seq<bv32>, l: seq<bv32>)
    requires |h| == 5 && |key| == 24 && |guid| == 36 && |last| == 64
    requires Words(guid + [0x80, 0, 0, 0]) == t && Words(last) == l
    ensures |Words(key)| == 6 && |t| == 10 && |l| == 16
    ensures HashBlocks(h, key + guid + [0x80, 0, 0, 0] + last) == Compress(Compress(h, Words(key) + t), l)
  {
    hide Compress, Words, HashBlocks;
    var tail := guid + [0x80, 0, 0, 0];
    assert key + guid + [0x80, 0, 0, 0] + last == (key + tail) + last;
    WordsAppend(key, tail);
    WordCount(key);
    WordCount(tail);
    WordCount(last);
    BlocksOfTwo(h, key + tail, last);
  }

  lemma BlocksOfTwo(h: seq<bv32>, first: seq<bv8>, last: seq<bv8>)
    requires |h| == 5 && |first| == 64 && |last| == 64
    requires |Words(first)| == 16 && |Words(last)| == 16
    ensures HashBlocks(h, first + last) == Compress(Compress(h, Words(first)), Words(last))
  {
    hide Compress, Words;
    assert (first + last)[..64] == first && (first + last)[64..] == last;
    var next := Compress(h, Words(first));
    assert HashBlocks(h, first + last) == HashBlocks(next, last);
    assert last[..64] == last && last[64..] == [];
    assert HashBlocks(next, last) == HashBlocks(Compress(next, Words(last)), []);
  }

  lemma WordOrder(b0: bv8, b1: bv8, b2: bv8, b3: bv8)
    ensures (b3 as bv32) | (b2 as bv32 << 8) | (b1 as bv32 << 16) | (b0 as bv32 << 24) == Word(b0, b1, b2, b3)
  {
  }

  // ------------------------------------------------------------------- the generator

  /** The accept key of a 24-byte key, with both blocks prepared but for the key. */
  method Generate(input: array<bv8>, output: array<char>)
    requires input.Length == 24 && output.Length == 28
    modifies output
    ensures output[..] == Accept(input[..])
  {
    hide Word, Words, Compress, HashBlocks, Padded, Encode, BytesOf, WordBytes;
    ghost var key := input[..];
    var bOutput := new bv32[5] [0x67452301, 0xefcdab89, 0x98badcfe, 0x10325476, 0xc3d2e1f0];
    var bInput := new bv32[16] [
      0, 0, 0, 0, 0, 0, 0x32353845, 0x41464135, 0x2d453931, 0x342d3437, 0x44412d39,
      0x3543412d, 0x43354142, 0x30444338, 0x35423131, 0x80000000];
    TwoBlocks(key);
    assert bOutput[..] == InitialHash && bInput[6..] == FirstBlockTail;
    FillKey(input, bInput);
    CompressBlock(bOutput, bInput);
    var lastB := new bv32[16] [0, 0, 0, 0, 0, 0, 0, 0, 0, 0, 0, 0, 0, 0, 0, 480];
    assert lastB[..] == LastBlock;
    CompressBlock(bOutput, lastB);
    var src := new bv8[20];
    WriteBytes(bOutput, src);
    EncodeTwenty(src, output);
  }

  /** The first six words are the key. */
  method FillKey(input: array<bv8>, bInput: array<bv32>)
    requires input.Length == 24 && bInput.Length == 16
    modifies bInput
    ensures |Words(input[..])| == 6
    ensures bInput[..] == Words(input[..]) + old(bInput[6..])
  {
    hide Word, Words;
    ghost var key := input[..];
    WordCount(key);
    var i := 0;
    while i < 6
      invariant 0 <= i <= 6
      invariant forall j :: 0 <= j < i ==> bInput[j] == Words(key)[j]
      invariant forall j :: 6 <= j < 16 ==> bInput[j] == old(bInput[j])
    {
      KeyWord(key, i);
      bInput[i] := (input[4 * i + 3] as bv32) | (input[4 * i + 2] as bv32 << 8)
                   | (input[4 * i + 1] as bv32 << 16) | (input[4 * i] as bv32 << 24);
      i := i + 1;
    }
  }

  lemma KeyWord(key: seq<bv8>, i: nat)
    requires |key| == 24 && i < 6
    ensures |Words(key)| == 6
    ensures Words(key)[i] == (key[4 * i + 3] as bv32) | (key[4 * i + 2] as bv32 << 8)
                             | (key[4 * i + 1] as bv32 << 16) | (key[4 * i] as bv32 << 24)
  {
    hide Words;
    WordCount(key);
    WordAt(key, i);
    WordOrder(key[4 * i], key[4 * i + 1], key[4 * i + 2], key[4 * i + 3]);
  }

  lemma {:induction false} BytesAt(words: seq<bv32>, i: nat)
    requires i < |words|
    ensures BytesOf(words)[4 * i..4 * i + 4] == WordBytes(words[i])
  {
    hide WordBytes;
    WordBytesFour(words[0]);
    if i > 0 {
      BytesAt(words[1..], i - 1);
      assert BytesOf(words)[4..] == BytesOf(words[1..]);
    }
  }

  lemma WordBytesFour(w: bv32)
    ensures |WordBytes(w)| == 4
  {
  }

  /** The bytes of the words, the most significant first. */
  method WriteBytes(words: array<bv32>, bytes: array<bv8>)
    requires words.Length == 5 && bytes.Length == 20
    modifies bytes
    ensures bytes[..] == BytesOf(words[..])
  {
    hide BytesOf, WordBytes;
    ghost var all := BytesOf(words[..]);
    var i := 0;
    while i < 5
      invariant 0 <= i <= 5
      invariant bytes[..4 * i] == all[..4 * i]
    {
      BytesAt(words[..], i);
      assert all[..4 * i + 4] == all[..4 * i] + all[4 * i..4 * i + 4];
      WriteWord(words[i], bytes, 4 * i);
      assert bytes[..4 * i + 4] == all[..4 * i] + WordBytes(words[i]);
      i := i + 1;
    }
    assert bytes[..20] == bytes[..] && all[..20] == all;
  }

  /** The four bytes of a word, written where the word is kept. */
  method WriteWord(tmp: bv32, bytes: array<bv8>, at: nat)
    requires at + 4 <= bytes.Length
    modifies bytes
    ensures |WordBytes(tmp)| == 4
    ensures bytes[..at] == old(bytes[..at]) && bytes[at..at + 4] == WordBytes(tmp)
  {
    bytes[at + 3] := (tmp & 0xff) as bv8;
    bytes[at + 2] := ((tmp >> 8) & 0xff) as bv8;
    bytes[at + 1] := ((tmp >> 16) & 0xff) as bv8;
    bytes[at] := ((tmp >> 24) & 0xff) as bv8;
  }

  /** The accept key has 28 characters, and decoding it gives the 20 bytes of the digest back. */
  lemma AcceptDecodes(key: seq<bv8>)
    ensures |Accept(key)| == 28
    ensures Decode(Accept(key)) == Sha1Digest(key + GUID)
  {
    hide Padded, HashBlocks, Decode, Encode;
    EncodeLength(Sha1Digest(key + GUID));
    DecodeEncode(Sha1Digest(key + GUID));
  }
}
