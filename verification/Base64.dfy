// Base64 as section 4 of RFC 4648 defines it, and its form for twenty bytes.

module Base64 {

  const UPPER := "ABCDEFGHIJKLMNOPQRSTUVWXYZ"
  const LOWER := "abcdefghijklmnopqrstuvwxyz"
  const DIGITS := "0123456789"
  const ALPHABET := UPPER + LOWER + DIGITS + "+/"
  const PAD := '='

  // ------------------------------------------------------------ section 4 of RFC 4648

  /** The character of a group of six bits. */
  function Letter(sextet: bv8): char
    requires sextet < 64
  {
    ALPHABET[sextet as int]
  }

  /** Three bytes in a row as 24 bits. */
  function Group(b0: bv8, b1: bv8, b2: bv8): bv32
  {
    (b0 as bv32 << 16) | (b1 as bv32 << 8) | b2 as bv32
  }

  /** The four groups of six bits of 24 bits, from the left. */
  function Sextets(g: bv32): (s: (bv8, bv8, bv8, bv8))
    ensures s.0 < 64 && s.1 < 64 && s.2 < 64 && s.3 < 64
  {
    (((g >> 18) & 63) as bv8, ((g >> 12) & 63) as bv8, ((g >> 6) & 63) as bv8, (g & 63) as bv8)
  }

  /** The text of some bytes: missing bits are zeros, missing characters are padding. */
  function Encode(bytes: seq<bv8>): (text: seq<char>)
  {
    if |bytes| == 0 then []
    else if |bytes| == 1 then
      var s := Sextets(Group(bytes[0], 0, 0));
      [Letter(s.0), Letter(s.1), PAD, PAD]
    else if |bytes| == 2 then
      var s := Sextets(Group(bytes[0], bytes[1], 0));
      [Letter(s.0), Letter(s.1), Letter(s.2), PAD]
    else
      var s := Sextets(Group(bytes[0], bytes[1], bytes[2]));
      [Letter(s.0), Letter(s.1), Letter(s.2), Letter(s.3)] + Encode(bytes[3..])
  }

  /** The six bits a character stands for. */
  function Sextet(c: char): bv8
  {
    var code := c as int;
    if 65 <= code <= 90 then (code - 65) as bv8
    else if 97 <= code <= 122 then (code - 71) as bv8
    else if 48 <= code <= 57 then (code + 4) as bv8
    else if code == 43 then 62
    else if code == 47 then 63
    else 0
  }

  /** The three bytes of four groups of six bits. */
  function Bytes(s0: bv8, s1: bv8, s2: bv8, s3: bv8): (bv8, bv8, bv8)
  {
    ((s0 << 2) | (s1 >> 4), (s1 << 4) | (s2 >> 2), (s2 << 6) | s3)
  }

  function Decode(text: seq<char>): seq<bv8>
  {
    if |text| < 4 then []
    else
      var b := Bytes(Sextet(text[0]), Sextet(text[1]), Sextet(text[2]), Sextet(text[3]));
      if text[2] == PAD then [b.0]
      else if text[3] == PAD then [b.0, b.1]
      else [b.0, b.1, b.2] + Decode(text[4..])
  }

  lemma AlphabetCodes(i: nat)
    requires i < 64
    ensures |ALPHABET| == 64
    ensures ALPHABET[i] as int == if i < 26 then 65 + i
                                  else if i < 52 then 71 + i
                                  else if i < 62 then i - 4
                                  else if i == 62 then 43 else 47
  {
    if i < 26 { UpperCodes(i); } else if i < 52 { LowerCodes(i - 26); } else if i < 62 { DigitCodes(i - 52); }
  }

  lemma UpperCodes(i: nat)
    requires i < 26
    ensures UPPER[i] as int == 65 + i
  {
  }

  lemma LowerCodes(i: nat)
    requires i < 26
    ensures LOWER[i] as int == 97 + i
  {
  }

  lemma DigitCodes(i: nat)
    requires i < 10
    ensures DIGITS[i] as int == 48 + i
  {
  }

  /** Every group of six bits can be read off its character, which is not the padding. */
  lemma SextetOfLetter(sextet: bv8)
    requires sextet < 64
    ensures Sextet(Letter(sextet)) == sextet && Letter(sextet) != PAD
  {
    var i := sextet as int;
    AlphabetCodes(i);
    IntAndBack(sextet);
  }

  lemma IntAndBack(x: bv8)
    ensures (x as int) as bv8 == x
  {
  }

  lemma BytesOfSextets(b0: bv8, b1: bv8, b2: bv8)
    ensures var s := Sextets(Group(b0, b1, b2)); Bytes(s.0, s.1, s.2, s.3) == (b0, b1, b2)
  {
  }

  lemma LastSextets(b0: bv8, b1: bv8)
    ensures Sextets(Group(b0, b1, 0)).3 == 0
    ensures Sextets(Group(b0, 0, 0)).2 == 0 && Sextets(Group(b0, 0, 0)).3 == 0
  {
  }

  lemma PadIsZero()
    ensures Sextet(PAD) == 0
  {
  }

  /** Decoding gives every byte string back. */
  lemma {:induction false} DecodeEncode(bytes: seq<bv8>)
    ensures Decode(Encode(bytes)) == bytes
  {
    hide Sextet, Letter, Bytes, Sextets, Group;
    PadIsZero();
    if |bytes| > 0 {
      var b0 := bytes[0];
      var b1 := if |bytes| > 1 then bytes[1] else 0;
      var b2 := if |bytes| > 2 then bytes[2] else 0;
      var s := Sextets(Group(b0, b1, b2));
      BytesOfSextets(b0, b1, b2);
      LastSextets(b0, b1);
      SextetOfLetter(s.0);
      SextetOfLetter(s.1);
      SextetOfLetter(s.2);
      SextetOfLetter(s.3);
      if |bytes| >= 3 {
        DecodeEncode(bytes[3..]);
        assert Encode(bytes)[4..] == Encode(bytes[3..]);
        assert bytes == [b0, b1, b2] + bytes[3..];
      }
    }
  }

  lemma {:induction false} EncodeLength(bytes: seq<bv8>)
    ensures |Encode(bytes)| == (|bytes| + 2) / 3 * 4
  {
    if |bytes| >= 3 {
      EncodeLength(bytes[3..]);
    }
  }

  // ------------------------------------------------------------------- twenty bytes

  lemma SextetBits(b0: bv8, b1: bv8, b2: bv8)
    ensures Sextets(Group(b0, b1, b2)) ==
      ((b0 >> 2) & 63, ((b0 & 3) << 4) | ((b1 & 240) >> 4), ((b1 & 15) << 2) | ((b2 & 192) >> 6), b2 & 63)
    ensures ((b1 & 15) << 2) | ((0 & 192) >> 6) == (b1 & 15) << 2
  {
  }

  /** Writes the four characters of three bytes. */
  method WriteGroup(b0: bv8, b1: bv8, b2: bv8, dst: array<char>, at: nat)
    requires at + 4 <= dst.Length
    modifies dst
    ensures var s := Sextets(Group(b0, b1, b2));
            dst[..] == old(dst[..at]) + [Letter(s.0), Letter(s.1), Letter(s.2), Letter(s.3)] + old(dst[at + 4..])
  {
    hide Letter, Sextets, Group;
    SextetBits(b0, b1, b2);
    dst[at] := Letter((b0 >> 2) & 63);
    dst[at + 1] := Letter(((b0 & 3) << 4) | ((b1 & 240) >> 4));
    dst[at + 2] := Letter(((b1 & 15) << 2) | ((b2 & 192) >> 6));
    dst[at + 3] := Letter(b2 & 63);
  }

  /** The text so far and the text of the bytes to come make up the text of all bytes. */
  ghost predicate Written(text: seq<char>, bytes: seq<bv8>, i: nat)
    requires i <= |bytes|
  {
    text + Encode(bytes[i..]) == Encode(bytes)
  }

  lemma WrittenNext(text: seq<char>, bytes: seq<bv8>, i: nat)
    requires i + 3 <= |bytes| && Written(text, bytes, i)
    ensures var s := Sextets(Group(bytes[i], bytes[i + 1], bytes[i + 2]));
            Written(text + [Letter(s.0), Letter(s.1), Letter(s.2), Letter(s.3)], bytes, i + 3)
  {
    hide Letter, Sextets, Group;
    var s := Sextets(Group(bytes[i], bytes[i + 1], bytes[i + 2]));
    var four := [Letter(s.0), Letter(s.1), Letter(s.2), Letter(s.3)];
    assert bytes[i..][3..] == bytes[i + 3..];
    assert Encode(bytes[i..]) == four + Encode(bytes[i + 3..]);
    assert text + (four + Encode(bytes[i + 3..])) == (text + four) + Encode(bytes[i + 3..]);
  }

  /** The text of twenty bytes, 28 characters with one of padding. */
  method EncodeTwenty(src: array<bv8>, dst: array<char>)
    requires src.Length == 20 && dst.Length == 28
    modifies dst
    ensures dst[..] == Encode(src[..])
  {
    hide Letter, Sextets, Group, Encode, Written;
    ghost var bytes := src[..];
    NothingWritten(bytes);
    assert dst[..0] == [];
    var i, d := 0, 0;
    while i < 18
      invariant 0 <= i <= 18 && i % 3 == 0 && d == i / 3 * 4
      invariant Written(dst[..d], bytes, i)
    {
      ghost var before := dst[..d];
      WriteGroup(src[i], src[i + 1], src[i + 2], dst, d);
      WrittenNext(before, bytes, i);
      ghost var s := Sextets(Group(src[i], src[i + 1], src[i + 2]));
      assert dst[..d + 4] == before + [Letter(s.0), Letter(s.1), Letter(s.2), Letter(s.3)];
      i := i + 3;
      d := d + 4;
    }
    WrittenLast(dst[..24], bytes);
    WriteLast(src[18], src[19], dst);
  }

  lemma NothingWritten(bytes: seq<bv8>)
    ensures Written([], bytes, 0)
  {
    hide Encode;
    assert bytes[0..] == bytes;
  }

  lemma WrittenLast(text: seq<char>, bytes: seq<bv8>)
    requires |bytes| == 20 && Written(text, bytes, 18)
    ensures Encode(bytes) == text + Encode([bytes[18], bytes[19]])
  {
    hide Encode;
    assert bytes[18..] == [bytes[18], bytes[19]];
  }

  /** Writes the characters of the last two of twenty bytes. */
  method WriteLast(b0: bv8, b1: bv8, dst: array<char>)
    requires dst.Length == 28
    modifies dst
    ensures dst[..] == old(dst[..24]) + Encode([b0, b1])
  {
    hide Letter, Encode;
    LastTwo(b0, b1);
    dst[24] := Letter((b0 >> 2) & 63);
    dst[25] := Letter(((b0 & 3) << 4) | ((b1 & 240) >> 4));
    dst[26] := Letter((b1 & 15) << 2);
    dst[27] := PAD;
  }

  lemma LastTwo(b0: bv8, b1: bv8)
    ensures (b0 >> 2) & 63 < 64 && ((b0 & 3) << 4) | ((b1 & 240) >> 4) < 64 && (b1 & 15) << 2 < 64
    ensures Encode([b0, b1]) ==
      [Letter((b0 >> 2) & 63), Letter(((b0 & 3) << 4) | ((b1 & 240) >> 4)), Letter((b1 & 15) << 2), PAD]
  {
    hide Letter;
    SextetBits(b0, b1, 0);
  }
}
