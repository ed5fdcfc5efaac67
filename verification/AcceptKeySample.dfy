// The handshake of section 1.3 of RFC 6455: its key, worked through step by step,
// comes to the accept key printed there.

module AcceptKeySample {
  import opened Sha1
  import opened Base64
  import opened AcceptKey

  // ------------------------------------------------------------ sixteen steps in a row

  /** Sixteen words of the schedule. */
  datatype Words16 = Words16(w0: bv32, w1: bv32, w2: bv32, w3: bv32, w4: bv32, w5: bv32, w6: bv32, w7: bv32,
                             w8: bv32, w9: bv32, w10: bv32, w11: bv32, w12: bv32, w13: bv32, w14: bv32, w15: bv32)

  /** The words from W(t) on. */
  ghost predicate Holds(m: seq<bv32>, t: nat, w: Words16)
    requires |m| == 16
  {
    Low(m, t, w) && High(m, t, w)
  }

  ghost predicate Low(m: seq<bv32>, t: nat, w: Words16)
    requires |m| == 16
  {
    && W(m, t) == w.w0 && W(m, t + 1) == w.w1 && W(m, t + 2) == w.w2 && W(m, t + 3) == w.w3
    && W(m, t + 4) == w.w4 && W(m, t + 5) == w.w5 && W(m, t + 6) == w.w6 && W(m, t + 7) == w.w7
  }

  ghost predicate High(m: seq<bv32>, t: nat, w: Words16)
    requires |m| == 16
  {
    && W(m, t + 8) == w.w8 && W(m, t + 9) == w.w9 && W(m, t + 10) == w.w10 && W(m, t + 11) == w.w11
    && W(m, t + 12) == w.w12 && W(m, t + 13) == w.w13 && W(m, t + 14) == w.w14 && W(m, t + 15) == w.w15
  }

  /** Sixteen words and the next sixteen, four by four. */
  predicate Follow(w: Words16, n: Words16)
  {
    Follow4(w, n) && Follow8(w, n) && Follow12(w, n) && Follow16(w, n)
  }

  predicate Follow4(w: Words16, n: Words16)
  {
    && n.w0 == Mix(w.w13, w.w8, w.w2, w.w0)
    && n.w1 == Mix(w.w14, w.w9, w.w3, w.w1)
    && n.w2 == Mix(w.w15, w.w10, w.w4, w.w2)
    && n.w3 == Mix(n.w0, w.w11, w.w5, w.w3)
  }

  predicate Follow8(w: Words16, n: Words16)
  {
    && n.w4 == Mix(n.w1, w.w12, w.w6, w.w4)
    && n.w5 == Mix(n.w2, w.w13, w.w7, w.w5)
    && n.w6 == Mix(n.w3, w.w14, w.w8, w.w6)
    && n.w7 == Mix(n.w4, w.w15, w.w9, w.w7)
  }

  predicate Follow12(w: Words16, n: Words16)
  {
    && n.w8 == Mix(n.w5, n.w0, w.w10, w.w8)
    && n.w9 == Mix(n.w6, n.w1, w.w11, w.w9)
    && n.w10 == Mix(n.w7, n.w2, w.w12, w.w10)
    && n.w11 == Mix(n.w8, n.w3, w.w13, w.w11)
  }

  predicate Follow16(w: Words16, n: Words16)
  {
    && n.w12 == Mix(n.w9, n.w4, w.w14, w.w12)
    && n.w13 == Mix(n.w10, n.w5, w.w15, w.w13)
    && n.w14 == Mix(n.w11, n.w6, n.w0, w.w14)
    && n.w15 == Mix(n.w12, n.w7, n.w1, w.w15)
  }

  lemma HoldsNext(m: seq<bv32>, t: nat, w: Words16, n: Words16)
    requires |m| == 16 && Holds(m, t, w) && Follow(w, n)
    ensures Holds(m, t + 16, n)
  {
    hide Mix, W, Low, High;
    LowNext(m, t, w, n);
    HighNext(m, t, w, n);
  }

  lemma LowNext(m: seq<bv32>, t: nat, w: Words16, n: Words16)
    requires |m| == 16 && Holds(m, t, w) && Follow4(w, n) && Follow8(w, n)
    ensures Low(m, t + 16, n)
  {
    hide Mix, W;
    LaterWord(m, t + 16);
    LaterWord(m, t + 17);
    LaterWord(m, t + 18);
    LaterWord(m, t + 19);
    LaterWord(m, t + 20);
    LaterWord(m, t + 21);
    LaterWord(m, t + 22);
    LaterWord(m, t + 23);
  }

  lemma HighNext(m: seq<bv32>, t: nat, w: Words16, n: Words16)
    requires |m| == 16 && Holds(m, t, w) && Low(m, t + 16, n) && Follow12(w, n) && Follow16(w, n)
    ensures High(m, t + 16, n)
  {
    hide Mix, W;
    LaterWord(m, t + 24);
    LaterWord(m, t + 25);
    LaterWord(m, t + 26);
    LaterWord(m, t + 27);
    LaterWord(m, t + 28);
    LaterWord(m, t + 29);
    LaterWord(m, t + 30);
    LaterWord(m, t + 31);
  }

  function SixteenSteps(r: Registers, t: nat, w: Words16): Registers
  {
    var r4 := Step(Step(Step(Step(r, t, w.w0), t + 1, w.w1), t + 2, w.w2), t + 3, w.w3);
    var r8 := Step(Step(Step(Step(r4, t + 4, w.w4), t + 5, w.w5), t + 6, w.w6), t + 7, w.w7);
    var r12 := Step(Step(Step(Step(r8, t + 8, w.w8), t + 9, w.w9), t + 10, w.w10), t + 11, w.w11);
    Step(Step(Step(Step(r12, t + 12, w.w12), t + 13, w.w13), t + 14, w.w14), t + 15, w.w15)
  }

  lemma RoundsNext(start: Registers, m: seq<bv32>, t: nat, w: Words16)
    requires |m| == 16 && Holds(m, t, w)
    ensures Rounds(start, m, t + 16) == SixteenSteps(Rounds(start, m, t), t, w)
  {
    hide Step, W;
    assert Rounds(start, m, t + 1) == Step(Rounds(start, m, t), t, w.w0);
    assert Rounds(start, m, t + 2) == Step(Rounds(start, m, t + 1), t + 1, w.w1);
    assert Rounds(start, m, t + 3) == Step(Rounds(start, m, t + 2), t + 2, w.w2);
    assert Rounds(start, m, t + 4) == Step(Rounds(start, m, t + 3), t + 3, w.w3);
    assert Rounds(start, m, t + 5) == Step(Rounds(start, m, t + 4), t + 4, w.w4);
    assert Rounds(start, m, t + 6) == Step(Rounds(start, m, t + 5), t + 5, w.w5);
    assert Rounds(start, m, t + 7) == Step(Rounds(start, m, t + 6), t + 6, w.w6);
    assert Rounds(start, m, t + 8) == Step(Rounds(start, m, t + 7), t + 7, w.w7);
    assert Rounds(start, m, t + 9) == Step(Rounds(start, m, t + 8), t + 8, w.w8);
    assert Rounds(start, m, t + 10) == Step(Rounds(start, m, t + 9), t + 9, w.w9);
    assert Rounds(start, m, t + 11) == Step(Rounds(start, m, t + 10), t + 10, w.w10);
    assert Rounds(start, m, t + 12) == Step(Rounds(start, m, t + 11), t + 11, w.w11);
    assert Rounds(start, m, t + 13) == Step(Rounds(start, m, t + 12), t + 12, w.w12);
    assert Rounds(start, m, t + 14) == Step(Rounds(start, m, t + 13), t + 13, w.w13);
    assert Rounds(start, m, t + 15) == Step(Rounds(start, m, t + 14), t + 14, w.w14);
    assert Rounds(start, m, t + 16) == Step(Rounds(start, m, t + 15), t + 15, w.w15);
  }

  const FirstWords0 := Words16(
    0x6447686c, 0x49484e68, 0x62584273, 0x5a534275, 0x6232356a, 0x5a513d3d, 0x32353845, 0x41464135, 0x2d453931,
    0x342d3437, 0x44412d39, 0x3543412d, 0x43354142, 0x30444338, 0x35423131, 0x80000000)

  const FirstWords16 := Words16(
    0x363ca02c, 0x24e81236, 0x8856b441, 0x06fb3c92, 0x6fb4bcb6, 0x460b16e3, 0x599219ae, 0x35bf9369, 0x3267458e,
    0xf828fd04, 0x753a96a7, 0x6336f612, 0xc3d66383, 0x06eb86f9, 0x73b4fd42, 0xa503c5b8)

  const FirstWords32 := Words16(
    0x15cdae35, 0x531e5dc5, 0x6fb6b7d0, 0x6c16e4ac, 0x4ddd36bd, 0x35d36946, 0xe8ae8b9c, 0x4a933ad0, 0xce8628b4,
    0x415dba9e, 0x2792f049, 0x8e9b79e7, 0x79c425c5, 0x6353b49d, 0x00994218, 0x8a950ed1)

  const FirstWords48 := Words16(
    0xaf5d0b99, 0xfd9883de, 0x1ed8ffeb, 0xf007ff28, 0x425e3674, 0x059631c0, 0xad6c3c31, 0x860b71d7, 0x87bfc548,
    0x3e64f92d, 0x8d0ab761, 0x34e1ee35, 0x0acf5108, 0xc2b479da, 0x6c93370a, 0xf7935ba1)

  const FirstWords64 := Words16(
    0xe91c91c1, 0xbed165a2, 0x4c3e4abe, 0x50d96238, 0xb6587dde, 0x1a2ee6e6, 0x2d335896, 0xf3495d0b, 0xf30e0a1d,
    0x32ce5459, 0x7165e3b8, 0xab05ff94, 0xc5949f0b, 0xbcd84e4a, 0x07720392, 0xff3ff806)

  lemma FirstTo16()
    ensures SixteenSteps(Registers(0x67452301, 0xefcdab89, 0x98badcfe, 0x10325476, 0xc3d2e1f0), 0, FirstWords0) ==
      Registers(0xa004c468, 0xe922cc9d, 0xab86825b, 0xd86f6caf, 0x8d33ae61)
    ensures Follow(FirstWords0, FirstWords16)
  {
  }

  lemma FirstTo32()
    ensures SixteenSteps(Registers(0xa004c468, 0xe922cc9d, 0xab86825b, 0xd86f6caf, 0x8d33ae61), 16, FirstWords16) ==
      Registers(0xa6680a1f, 0xb7dabc8b, 0x4206d8f9, 0xc6aec70d, 0x95c7df60)
    ensures Follow(FirstWords16, FirstWords32)
  {
  }

  lemma FirstTo48()
    ensures SixteenSteps(Registers(0xa6680a1f, 0xb7dabc8b, 0x4206d8f9, 0xc6aec70d, 0x95c7df60), 32, FirstWords32) ==
      Registers(0xabe1748a, 0xdee4b7a8, 0x5cbfccd3, 0x97d7cd14, 0xdb71a8f5)
    ensures Follow(FirstWords32, FirstWords48)
  {
  }

  lemma FirstTo64()
    ensures SixteenSteps(Registers(0xabe1748a, 0xdee4b7a8, 0x5cbfccd3, 0x97d7cd14, 0xdb71a8f5), 48, FirstWords48) ==
      Registers(0x685e2ff6, 0x840054d3, 0xe43c0363, 0x3350802e, 0x921cb616)
    ensures Follow(FirstWords48, FirstWords64)
  {
  }

  lemma FirstTo80()
    ensures SixteenSteps(Registers(0x685e2ff6, 0x840054d3, 0xe43c0363, 0x3350802e, 0x921cb616), 64, FirstWords64) ==
      Registers(0xf48a5426, 0x835995e1, 0x25c11efb, 0x4a45c402, 0x9a73c2f2)
  {
  }

  const LastWords0 := Words16(
    0x00000000, 0x00000000, 0x00000000, 0x00000000, 0x00000000, 0x00000000, 0x00000000, 0x00000000, 0x00000000,
    0x00000000, 0x00000000, 0x00000000, 0x00000000, 0x00000000, 0x00000000, 0x000001e0)

  const LastWords16 := Words16(
    0x00000000, 0x00000000, 0x000003c0, 0x00000000, 0x00000000, 0x00000780, 0x00000000, 0x000003c0, 0x00000f00,
    0x00000000, 0x00000000, 0x00001e00, 0x00000000, 0x00000cc0, 0x00003c00, 0x00000440)

  const LastWords32 := Words16(
    0x00000000, 0x00007800, 0x00000f00, 0x00003300, 0x0000f000, 0x00000f00, 0x00000000, 0x0001ef00, 0x00000000,
    0x0000cc00, 0x0003c000, 0x00004380, 0x00000000, 0x00078f00, 0x0000ff00, 0x00032680)

  const LastWords48 := Words16(
    0x000f0000, 0x0000f000, 0x00003300, 0x001eff00, 0x00000000, 0x000cb800, 0x003c0000, 0x00040b00, 0x0000f000,
    0x0078ff00, 0x000ff000, 0x00338700, 0x00f00000, 0x000fc300, 0x0000f000, 0x01efbb00)

  const LastWords64 := Words16(
    0x00000000, 0x00cc0000, 0x03c0f000, 0x00438000, 0x00000000, 0x078f0000, 0x00ff0000, 0x03269e00, 0x0f000000,
    0x00f0f000, 0x00333c00, 0x1eff8800, 0x00000000, 0x0cb88800, 0x3c00f000, 0x040a4a00)

  lemma LastTo16()
    ensures SixteenSteps(Registers(0x5bcf7727, 0x7327416a, 0xbe7bfbf9, 0x5a781878, 0x5e46a4e2), 0, LastWords0) ==
      Registers(0x986df268, 0x990b7be7, 0xab50fce7, 0x195db4b7, 0x4941806b)
    ensures Follow(LastWords0, LastWords16)
  {
  }

  lemma LastTo32()
    ensures SixteenSteps(Registers(0x986df268, 0x990b7be7, 0xab50fce7, 0x195db4b7, 0x4941806b), 16, LastWords16) ==
      Registers(0x3cf6eb58, 0xf4ddd7b7, 0xc90fb815, 0xbd5f2d4f, 0xe4c9f7db)
    ensures Follow(LastWords16, LastWords32)
  {
  }

  lemma LastTo48()
    ensures SixteenSteps(Registers(0x3cf6eb58, 0xf4ddd7b7, 0xc90fb815, 0xbd5f2d4f, 0xe4c9f7db), 32, LastWords32) ==
      Registers(0xa3ef857e, 0xc8cda3da, 0xcef6480e, 0xff1ef4d7, 0xc7a4d2b3)
    ensures Follow(LastWords32, LastWords48)
  {
  }

  lemma LastTo64()
    ensures SixteenSteps(Registers(0xa3ef857e, 0xc8cda3da, 0xcef6480e, 0xff1ef4d7, 0xc7a4d2b3), 48, LastWords48) ==
      Registers(0xa5937450, 0xd5ef1ed7, 0xc444cbe3, 0xddd22788, 0x558467c6)
    ensures Follow(LastWords48, LastWords64)
  {
  }

  lemma LastTo80()
    ensures SixteenSteps(Registers(0xa5937450, 0xd5ef1ed7, 0xc444cbe3, 0xddd22788, 0x558467c6), 64, LastWords64) ==
      Registers(0x57aad805, 0x4d3b0dac, 0xd27a4a0d, 0x74c040cd, 0x54782008)
  {
  }

  // ------------------------------------------------------------------- the sample key

  // "dGhlIHNhbXBsZSBub25jZQ==" in ASCII
  const SampleKey: seq<bv8> := [
    0x64, 0x47, 0x68, 0x6c, 0x49, 0x48, 0x4e, 0x68, 0x62, 0x58, 0x42, 0x73, 0x5a, 0x53, 0x42, 0x75, 0x62, 0x32, 0x35,
    0x6a, 0x5a, 0x51, 0x3d, 0x3d]

  const SampleAccept := "s3pPLMBiTxaQ9kYGzzhZRbK+xOo="

  lemma KeyWords()
    ensures Words(SampleKey) == [0x6447686c, 0x49484e68, 0x62584273, 0x5a534275, 0x6232356a, 0x5a513d3d]
  {
    hide Word, Words;
    WordCount(SampleKey);
    SampleWords();
    WordAt(SampleKey, 0);
    WordAt(SampleKey, 1);
    WordAt(SampleKey, 2);
    WordAt(SampleKey, 3);
    WordAt(SampleKey, 4);
    WordAt(SampleKey, 5);
  }

  lemma SampleWords()
    ensures Word(0x64, 0x47, 0x68, 0x6c) == 0x6447686c
    ensures Word(0x49, 0x48, 0x4e, 0x68) == 0x49484e68
    ensures Word(0x62, 0x58, 0x42, 0x73) == 0x62584273
    ensures Word(0x5a, 0x53, 0x42, 0x75) == 0x5a534275
    ensures Word(0x62, 0x32, 0x35, 0x6a) == 0x6232356a
    ensures Word(0x5a, 0x51, 0x3d, 0x3d) == 0x5a513d3d
  {
  }

  /** The first block. */
  lemma FirstCompressed(m: seq<bv32>)
    requires |m| == 16 && Holds(m, 0, FirstWords0)
    ensures Compress([0x67452301, 0xefcdab89, 0x98badcfe, 0x10325476, 0xc3d2e1f0], m) ==
      [0x5bcf7727, 0x7327416a, 0xbe7bfbf9, 0x5a781878, 0x5e46a4e2]
  {
    var start := Registers(0x67452301, 0xefcdab89, 0x98badcfe, 0x10325476, 0xc3d2e1f0);
    assert Rounds(start, m, 0) == start;
    FirstRounds(start, m);
    FirstSum();
    hide Rounds, Add, Holds;
  }

  lemma FirstRounds(start: Registers, m: seq<bv32>)
    requires |m| == 16 && Holds(m, 0, FirstWords0) && Rounds(start, m, 0) == start
    requires start == Registers(0x67452301, 0xefcdab89, 0x98badcfe, 0x10325476, 0xc3d2e1f0)
    ensures Rounds(start, m, 80) == Registers(0xf48a5426, 0x835995e1, 0x25c11efb, 0x4a45c402, 0x9a73c2f2)
  {
    hide Holds, Rounds, SixteenSteps, Follow;
    FirstTo16();
    RoundsNext(start, m, 0, FirstWords0);
    HoldsNext(m, 0, FirstWords0, FirstWords16);
    FirstTo32();
    RoundsNext(start, m, 16, FirstWords16);
    HoldsNext(m, 16, FirstWords16, FirstWords32);
    FirstTo48();
    RoundsNext(start, m, 32, FirstWords32);
    HoldsNext(m, 32, FirstWords32, FirstWords48);
    FirstTo64();
    RoundsNext(start, m, 48, FirstWords48);
    HoldsNext(m, 48, FirstWords48, FirstWords64);
    FirstTo80();
    RoundsNext(start, m, 64, FirstWords64);
  }

  lemma FirstSum()
    ensures Add(0x67452301, 0xf48a5426) == 0x5bcf7727
    ensures Add(0xefcdab89, 0x835995e1) == 0x7327416a
    ensures Add(0x98badcfe, 0x25c11efb) == 0xbe7bfbf9
    ensures Add(0x10325476, 0x4a45c402) == 0x5a781878
    ensures Add(0xc3d2e1f0, 0x9a73c2f2) == 0x5e46a4e2
  {
  }

  /** The last block. */
  lemma LastCompressed(m: seq<bv32>)
    requires |m| == 16 && Holds(m, 0, LastWords0)
    ensures Compress([0x5bcf7727, 0x7327416a, 0xbe7bfbf9, 0x5a781878, 0x5e46a4e2], m) ==
      [0xb37a4f2c, 0xc0624f16, 0x90f64606, 0xcf385945, 0xb2bec4ea]
  {
    var start := Registers(0x5bcf7727, 0x7327416a, 0xbe7bfbf9, 0x5a781878, 0x5e46a4e2);
    assert Rounds(start, m, 0) == start;
    LastRounds(start, m);
    LastSum();
    hide Rounds, Add, Holds;
  }

  lemma LastRounds(start: Registers, m: seq<bv32>)
    requires |m| == 16 && Holds(m, 0, LastWords0) && Rounds(start, m, 0) == start
    requires start == Registers(0x5bcf7727, 0x7327416a, 0xbe7bfbf9, 0x5a781878, 0x5e46a4e2)
    ensures Rounds(start, m, 80) == Registers(0x57aad805, 0x4d3b0dac, 0xd27a4a0d, 0x74c040cd, 0x54782008)
  {
    hide Holds, Rounds, SixteenSteps, Follow;
    LastTo16();
    RoundsNext(start, m, 0, LastWords0);
    HoldsNext(m, 0, LastWords0, LastWords16);
    LastTo32();
    RoundsNext(start, m, 16, LastWords16);
    HoldsNext(m, 16, LastWords16, LastWords32);
    LastTo48();
    RoundsNext(start, m, 32, LastWords32);
    HoldsNext(m, 32, LastWords32, LastWords48);
    LastTo64();
    RoundsNext(start, m, 48, LastWords48);
    HoldsNext(m, 48, LastWords48, LastWords64);
    LastTo80();
    RoundsNext(start, m, 64, LastWords64);
  }

  lemma LastSum()
    ensures Add(0x5bcf7727, 0x57aad805) == 0xb37a4f2c
    ensures Add(0x7327416a, 0x4d3b0dac) == 0xc0624f16
    ensures Add(0xbe7bfbf9, 0xd27a4a0d) == 0x90f64606
    ensures Add(0x5a781878, 0x74c040cd) == 0xcf385945
    ensures Add(0x5e46a4e2, 0x54782008) == 0xb2bec4ea
  {
  }

  const SampleDigest: seq<bv8> := [
    0xb3, 0x7a, 0x4f, 0x2c, 0xc0, 0x62, 0x4f, 0x16, 0x90, 0xf6, 0x46, 0x06, 0xcf, 0x38, 0x59, 0x45, 0xb2, 0xbe, 0xc4,
    0xea]

  lemma DigestBytes()
    ensures BytesOf([0xb37a4f2c, 0xc0624f16, 0x90f64606, 0xcf385945, 0xb2bec4ea]) == SampleDigest
  {
    var h: seq<bv32> := [0xb37a4f2c, 0xc0624f16, 0x90f64606, 0xcf385945, 0xb2bec4ea];
    DigestWords();
    hide WordBytes;
    assert h[1..] == [0xc0624f16, 0x90f64606, 0xcf385945, 0xb2bec4ea];
    assert h[1..][1..] == [0x90f64606, 0xcf385945, 0xb2bec4ea];
    assert h[1..][1..][1..] == [0xcf385945, 0xb2bec4ea];
    assert h[1..][1..][1..][1..] == [0xb2bec4ea];
  }

  lemma DigestWords()
    ensures WordBytes(0xb37a4f2c) == [0xb3, 0x7a, 0x4f, 0x2c]
    ensures WordBytes(0xc0624f16) == [0xc0, 0x62, 0x4f, 0x16]
    ensures WordBytes(0x90f64606) == [0x90, 0xf6, 0x46, 0x06]
    ensures WordBytes(0xcf385945) == [0xcf, 0x38, 0x59, 0x45]
    ensures WordBytes(0xb2bec4ea) == [0xb2, 0xbe, 0xc4, 0xea]
  {
  }

  // ------------------------------------------------------------------- its characters

  /** The four characters of three bytes. */
  function Quad(b0: bv8, b1: bv8, b2: bv8): seq<char>
  {
    var s := Sextets(Group(b0, b1, b2));
    [Letter(s.0), Letter(s.1), Letter(s.2), Letter(s.3)]
  }

  lemma QuadIs(b0: bv8, b1: bv8, b2: bv8, s: (bv8, bv8, bv8, bv8))
    requires Sextets(Group(b0, b1, b2)) == s
    ensures |Quad(b0, b1, b2)| == 4 && |ALPHABET| == 64
    ensures s.0 < 64 && Quad(b0, b1, b2)[0] == ALPHABET[s.0 as int]
    ensures s.1 < 64 && Quad(b0, b1, b2)[1] == ALPHABET[s.1 as int]
    ensures s.2 < 64 && Quad(b0, b1, b2)[2] == ALPHABET[s.2 as int]
    ensures s.3 < 64 && Quad(b0, b1, b2)[3] == ALPHABET[s.3 as int]
  {
    hide Sextets;
  }

  lemma SampleSextets()
    ensures Sextets(Group(0xb3, 0x7a, 0x4f)) == (44, 55, 41, 15)
    ensures Sextets(Group(0x2c, 0xc0, 0x62)) == (11, 12, 1, 34)
    ensures Sextets(Group(0x4f, 0x16, 0x90)) == (19, 49, 26, 16)
    ensures Sextets(Group(0xf6, 0x46, 0x06)) == (61, 36, 24, 6)
    ensures Sextets(Group(0xcf, 0x38, 0x59)) == (51, 51, 33, 25)
    ensures Sextets(Group(0x45, 0xb2, 0xbe)) == (17, 27, 10, 62)
    ensures Sextets(Group(0xc4, 0xea, 0x00)) == (49, 14, 40, 0)
  {
  }

  lemma SampleQuads()
    ensures Quad(0xb3, 0x7a, 0x4f) == "s3pP"
    ensures Quad(0x2c, 0xc0, 0x62) == "LMBi"
    ensures Quad(0x4f, 0x16, 0x90) == "TxaQ"
    ensures Quad(0xf6, 0x46, 0x06) == "9kYG"
    ensures Quad(0xcf, 0x38, 0x59) == "zzhZ"
    ensures Quad(0x45, 0xb2, 0xbe) == "RbK+"
    ensures Quad(0xc4, 0xea, 0x00) == "xOoA"
  {
    SampleSextets();
    hide Sextets, Group, Quad;
    QuadIs(0xb3, 0x7a, 0x4f, (44, 55, 41, 15));
    QuadIs(0x2c, 0xc0, 0x62, (11, 12, 1, 34));
    QuadIs(0x4f, 0x16, 0x90, (19, 49, 26, 16));
    QuadIs(0xf6, 0x46, 0x06, (61, 36, 24, 6));
    QuadIs(0xcf, 0x38, 0x59, (51, 51, 33, 25));
    QuadIs(0x45, 0xb2, 0xbe, (17, 27, 10, 62));
    QuadIs(0xc4, 0xea, 0x00, (49, 14, 40, 0));
  }

  lemma QuadWritten(text: seq<char>, bytes: seq<bv8>, i: nat, more: seq<char>)
    requires i + 3 <= |bytes| && Base64.Written(text, bytes, i) && Quad(bytes[i], bytes[i + 1], bytes[i + 2]) == more
    ensures Base64.Written(text + more, bytes, i + 3)
  {
    hide Base64.Written, Letter, Sextets, Group;
    WrittenNext(text, bytes, i);
  }

  lemma LastQuad(b0: bv8, b1: bv8)
    ensures Encode([b0, b1]) == Quad(b0, b1, 0)[..3] + [PAD]
  {
    hide Letter, Sextets, Group;
  }

  lemma SampleText()
    ensures Encode(SampleDigest) == SampleAccept
  {
    hide Quad, Encode, Base64.Written;
    SampleQuads();
    NothingWritten(SampleDigest);
    QuadWritten([], SampleDigest, 0, "s3pP");
    QuadWritten([] + "s3pP", SampleDigest, 3, "LMBi");
    QuadWritten([] + "s3pP" + "LMBi", SampleDigest, 6, "TxaQ");
    QuadWritten([] + "s3pP" + "LMBi" + "TxaQ", SampleDigest, 9, "9kYG");
    QuadWritten([] + "s3pP" + "LMBi" + "TxaQ" + "9kYG", SampleDigest, 12, "zzhZ");
    QuadWritten([] + "s3pP" + "LMBi" + "TxaQ" + "9kYG" + "zzhZ", SampleDigest, 15, "RbK+");
    WrittenLast([] + "s3pP" + "LMBi" + "TxaQ" + "9kYG" + "zzhZ" + "RbK+", SampleDigest);
    LastQuad(0xc4, 0xea);
    Joined();
  }

  lemma Joined()
    ensures [] + "s3pP" + "LMBi" + "TxaQ" + "9kYG" + "zzhZ" + "RbK+" + ("xOoA"[..3] + [PAD]) == SampleAccept
  {
  }

  /** The first sixteen words are the block. */
  lemma StartHolds(m: seq<bv32>, w: Words16)
    requires |m| == 16
    requires m[0] == w.w0 && m[1] == w.w1 && m[2] == w.w2 && m[3] == w.w3
    requires m[4] == w.w4 && m[5] == w.w5 && m[6] == w.w6 && m[7] == w.w7
    requires m[8] == w.w8 && m[9] == w.w9 && m[10] == w.w10 && m[11] == w.w11
    requires m[12] == w.w12 && m[13] == w.w13 && m[14] == w.w14 && m[15] == w.w15
    ensures Holds(m, 0, w)
  {
    BlockWords(m);
    hide W;
  }

  lemma BlockWords(m: seq<bv32>)
    requires |m| == 16
    ensures forall j :: 0 <= j < 16 ==> W(m, j) == m[j]
  {
  }

  lemma FirstHolds(m: seq<bv32>)
    requires m == Words(SampleKey) + FirstBlockTail
    ensures |m| == 16 && Holds(m, 0, FirstWords0)
  {
    hide Words, Holds;
    KeyWords();
    StartHolds(m, FirstWords0);
  }

  lemma LastHolds()
    ensures Holds(LastBlock, 0, LastWords0)
  {
    hide Holds;
    StartHolds(LastBlock, LastWords0);
  }

  /** The accept key of section 1.3 of RFC 6455. */
  lemma SampleComesOut()
    ensures Accept(SampleKey) == SampleAccept
  {
    hide Words, HashBlocks, Padded, Compress, BytesOf, Holds, Encode;
    TwoBlocks(SampleKey);
    FirstHolds(Words(SampleKey) + FirstBlockTail);
    FirstCompressed(Words(SampleKey) + FirstBlockTail);
    LastHolds();
    LastCompressed(LastBlock);
    DigestBytes();
    SampleText();
  }

}
