// SHA-1: the compression of one block as section 6.1 of RFC 3174 writes it,
// and the in-place form with rotating register indices and a schedule of
// sixteen words.

module Sha1 {

  // --------------------------------------------- sections 3 to 6.1 of RFC 3174

  /** The circular left shift. */
  function Rol(value: bv32, bits: bv32): bv32
    requires bits <= 32
  {
    (value << bits) | (value >> (32 - bits))
  }

  lemma RotatedBits(x: bv32, i: bv32)
    requires i < 32
    ensures (((x << 1) | (x >> 31)) >> i) & 1 == (x >> ((i + 31) % 32)) & 1
    ensures (((x << 5) | (x >> 27)) >> i) & 1 == (x >> ((i + 27) % 32)) & 1
    ensures (((x << 30) | (x >> 2)) >> i) & 1 == (x >> ((i + 2) % 32)) & 1
  {
  }

  lemma RotatedNumbers(x: bv32)
    ensures (x << 1) | (x >> 31) == x * 2 + x / 0x8000_0000
    ensures (x << 5) | (x >> 27) == x * 32 + x / 0x800_0000
    ensures (x << 30) | (x >> 2) == x * 0x4000_0000 + x / 4
  {
  }

  /** Bit by bit: what is `i` places from the right comes from n places further right, in a circle. */
  lemma RolBits(x: bv32, i: bv32)
    requires i < 32
    ensures (Rol(x, 1) >> i) & 1 == (x >> ((i + 31) % 32)) & 1
    ensures (Rol(x, 5) >> i) & 1 == (x >> ((i + 27) % 32)) & 1
    ensures (Rol(x, 30) >> i) & 1 == (x >> ((i + 2) % 32)) & 1
  {
    RotatedBits(x, i);
    assert Rol(x, 1) == (x << 1) | (x >> 31);
    assert Rol(x, 5) == (x << 5) | (x >> 27);
    assert Rol(x, 30) == (x << 30) | (x >> 2);
  }

  /** As numbers modulo 2^32: the value times 2^n, and the part that leaves on the left. */
  lemma RolNumbers(x: bv32)
    ensures Rol(x, 1) == x * 2 + x / 0x8000_0000
    ensures Rol(x, 5) == x * 32 + x / 0x800_0000
    ensures Rol(x, 30) == x * 0x4000_0000 + x / 4
  {
    RotatedNumbers(x);
    assert Rol(x, 1) == (x << 1) | (x >> 31);
    assert Rol(x, 5) == (x << 5) | (x >> 27);
    assert Rol(x, 30) == (x << 30) | (x >> 2);
  }

  /** The functions f(t; B, C, D). */
  function F(t: nat, b: bv32, c: bv32, d: bv32): bv32
  {
    if t < 20 then (b & c) | (!b & d)
    else if 40 <= t < 60 then (b & c) | (b & d) | (c & d)
    else b ^ c ^ d
  }

  function K(t: nat): bv32
  {
    if t < 20 then 0x5a827999
    else if t < 40 then 0x6ed9eba1
    else if t < 60 then 0x8f1bbcdc
    else 0xca62c1d6
  }

  /** Four words of the schedule make a further one. */
  function Mix(p: bv32, q: bv32, r: bv32, s: bv32): bv32
  {
    Rol(p ^ q ^ r ^ s, 1)
  }

  /** The words W(0), ..., W(79) of a block. */
  function W(m: seq<bv32>, t: nat): bv32
    requires |m| == 16
  {
    if t < 16 then m[t]
    else Mix(W(m, t - 3), W(m, t - 8), W(m, t - 14), W(m, t - 16))
  }

  datatype Registers = Registers(a: bv32, b: bv32, c: bv32, d: bv32, e: bv32)

  function Temp(r: Registers, t: nat, w: bv32): bv32
  {
    Total(Rol(r.a, 5), F(t, r.b, r.c, r.d), r.e, w, K(t))
  }

  function Total(rotated: bv32, f: bv32, e: bv32, w: bv32, k: bv32): bv32
  {
    rotated + f + e + w + k
  }

  function Step(r: Registers, t: nat, w: bv32): Registers
  {
    Registers(Temp(r, t, w), r.a, Rol(r.b, 30), r.c, r.d)
  }

  /** The registers after the first `t` steps. */
  function Rounds(start: Registers, m: seq<bv32>, t: nat): Registers
    requires |m| == 16
  {
    if t == 0 then start else Step(Rounds(start, m, t - 1), t - 1, W(m, t - 1))
  }

  /** Addition modulo 2^32. */
  function Add(x: bv32, y: bv32): bv32
  {
    x + y
  }

  /** The hash value after a block. */
  function Compress(h: seq<bv32>, m: seq<bv32>): (r: seq<bv32>)
    requires |h| == 5 && |m| == 16
    ensures |r| == 5
  {
    var out := Rounds(Registers(h[0], h[1], h[2], h[3], h[4]), m, 80);
    [Add(h[0], out.a), Add(h[1], out.b), Add(h[2], out.c), Add(h[3], out.d), Add(h[4], out.e)]
  }

  // ----------------------------------------------------------- the in-place form

  /** Where step `t` keeps the five registers. */
  ghost function Held(a: seq<bv32>, t: nat): Registers
    requires |a| == 5
  {
    Registers(a[(t + 4) % 5], a[(t + 3) % 5], a[(t + 2) % 5], a[(t + 1) % 5], a[t % 5])
  }

  /** Before step `t` the sixteen slots hold the sixteen latest words. */
  ghost predicate Scheduled(b: seq<bv32>, m: seq<bv32>, t: nat)
    requires |m| == 16
  {
    |b| == 16 && forall j: nat :: t <= j + 16 && j < (if t < 16 then 16 else t) ==> b[j % 16] == W(m, j)
  }

  lemma Choose(b: bv32, c: bv32, d: bv32)
    ensures (b & (c ^ d)) ^ d == (b & c) | (!b & d)
  {
  }

  lemma Majority(b: bv32, c: bv32, d: bv32)
    ensures ((b | c) & d) | (b & c) == (b & c) | (b & d) | (c & d)
  {
  }

  /** What a step adds to E, in the order of the code. */
  function Sum(e: bv32, f: bv32, w: bv32, k: bv32, rotated: bv32): bv32
  {
    e + (f + w + k + rotated)
  }

  lemma SumIsTemp(r: Registers, t: nat, w: bv32)
    ensures Sum(r.e, F(t, r.b, r.c, r.d), w, K(t), Rol(r.a, 5)) == Temp(r, t, w)
  {
    hide F, K, Rol, Sum, Total;
    SumOrder(r.e, F(t, r.b, r.c, r.d), w, K(t), Rol(r.a, 5));
  }

  lemma SumOrder(e: bv32, f: bv32, w: bv32, k: bv32, rotated: bv32)
    ensures Sum(e, f, w, k, rotated) == Total(rotated, f, e, w, k)
  {
  }

  /** One step on the array: a new value in the slot of E, and B rotated where it is. */
  ghost function Stepped(a: seq<bv32>, t: nat, f: bv32, w: bv32): (next: seq<bv32>)
    requires |a| == 5
    ensures |next| == 5
  {
    a[t % 5 := Sum(a[t % 5], f, w, K(t), Rol(a[(t + 4) % 5], 5))][(t + 3) % 5 := Rol(a[(t + 3) % 5], 30)]
  }

  lemma SteppedRefines(a: seq<bv32>, t: nat, w: bv32)
    requires |a| == 5
    ensures var r := Held(a, t);
            Held(Stepped(a, t, F(t, r.b, r.c, r.d), w), t + 1) == Step(r, t, w)
  {
    hide F, K, Rol, Sum, Temp;
    var r := Held(a, t);
    SumIsTemp(r, t, w);
    RegistersMove(a, t, Temp(r, t, w));
  }

  /** A new value for E and B rotated in place is a step of the registers. */
  lemma RegistersMove(a: seq<bv32>, t: nat, v: bv32)
    requires |a| == 5
    ensures var r := Held(a, t);
            Held(a[t % 5 := v][(t + 3) % 5 := Rol(a[(t + 3) % 5], 30)], t + 1)
              == Registers(v, r.a, Rol(r.b, 30), r.c, r.d)
  {
    hide Rol;
    Slots(t);
  }

  /** The slots of the five registers differ, and each moves on by one. */
  lemma Slots(t: nat)
    ensures t % 5 != (t + 3) % 5
    ensures (t + 5) % 5 == t % 5
    ensures (t + 4) % 5 != t % 5 && (t + 4) % 5 != (t + 3) % 5
    ensures (t + 2) % 5 != t % 5 && (t + 2) % 5 != (t + 3) % 5
    ensures (t + 1) % 5 != t % 5 && (t + 1) % 5 != (t + 3) % 5
  {
  }

  /** The word a slot gets before step `t`. */
  lemma NextWord(b: seq<bv32>, m: seq<bv32>, t: nat)
    requires |m| == 16 && 16 <= t && Scheduled(b, m, t)
    ensures Blk(b, t % 16) == W(m, t)
  {
    hide Mix, Scheduled, W;
    SlotHolds(b, m, t, t - 3);
    SlotHolds(b, m, t, t - 8);
    SlotHolds(b, m, t, t - 14);
    SlotHolds(b, m, t, t - 16);
    SlotsBack(t);
    LaterWord(m, t);
  }

  lemma LaterWord(m: seq<bv32>, t: nat)
    requires |m| == 16 && 16 <= t
    ensures W(m, t) == Mix(W(m, t - 3), W(m, t - 8), W(m, t - 14), W(m, t - 16))
  {
    hide Mix;
  }

  lemma SlotsBack(t: nat)
    requires 16 <= t
    ensures (t % 16 + 13) % 16 == (t - 3) % 16
    ensures (t % 16 + 8) % 16 == (t - 8) % 16
    ensures (t % 16 + 2) % 16 == (t - 14) % 16
    ensures t % 16 == (t - 16) % 16
  {
    var q, r := t / 16, t % 16;
    SlotBack(q, r, 3);
    SlotBack(q, r, 8);
    SlotBack(q, r, 14);
    SlotBack(q, r, 16);
  }

  lemma SlotBack(q: nat, r: nat, k: nat)
    requires 1 <= q && r < 16 && k <= 16
    ensures (16 * q + r - k) % 16 == (r + 16 - k) % 16
  {
    if k <= r {
      Mod16(16 * q + r - k, r - k, q);
      Mod16(r + 16 - k, r - k, 1);
    } else {
      Mod16(16 * q + r - k, r + 16 - k, q - 1);
    }
  }

  lemma SlotHolds(b: seq<bv32>, m: seq<bv32>, t: nat, j: nat)
    requires |m| == 16 && 16 <= t && Scheduled(b, m, t) && t - 16 <= j < t
    ensures b[j % 16] == W(m, j)
  {
    hide W;
  }

  lemma ScheduleMoves(b: seq<bv32>, m: seq<bv32>, t: nat)
    requires |m| == 16 && 16 <= t && Scheduled(b, m, t)
    ensures Scheduled(b[t % 16 := W(m, t)], m, t + 1)
  {
    hide W;
    var next := b[t % 16 := W(m, t)];
    forall j: nat | t + 1 <= j + 16 && j < t + 1
      ensures next[j % 16] == W(m, j)
    {
      if j < t { assert j % 16 != t % 16; }
    }
  }

  function Blk(b: seq<bv32>, i: nat): bv32
    requires |b| == 16 && i < 16
  {
    Mix(b[(i + 13) % 16], b[(i + 8) % 16], b[(i + 2) % 16], b[i])
  }

  // ------------------------------------------------------------ the unrolled steps

  /** The registers and the schedule before step `t` of a block. */
  ghost predicate AtStep(a: seq<bv32>, b: seq<bv32>, start: Registers, m: seq<bv32>, t: nat)
  {
    |a| == 5 && |m| == 16 && Held(a, t) == Rounds(start, m, t) && Scheduled(b, m, t)
  }

  lemma StepDone(a: seq<bv32>, b: seq<bv32>, start: Registers, m: seq<bv32>, t: nat, f: bv32)
    requires AtStep(a, b, start, m, t) && t < 80
    requires f == F(t, a[(t + 3) % 5], a[(t + 2) % 5], a[(t + 1) % 5])
    ensures t < 16 ==> b[t] == W(m, t) && AtStep(Stepped(a, t, f, b[t]), b, start, m, t + 1)
    ensures 16 <= t ==>
      var next := b[t % 16 := Blk(b, t % 16)];
      Blk(b, t % 16) == W(m, t) && AtStep(Stepped(a, t, f, next[t % 16]), next, start, m, t + 1)
  {
    hide F, K, Rol, Sum, Temp, W, Stepped;
    SteppedRefines(a, t, W(m, t));
    if t < 16 {
      FirstWord(b, m, t);
    } else {
      NextWord(b, m, t);
      ScheduleMoves(b, m, t);
    }
  }

  lemma FirstWord(b: seq<bv32>, m: seq<bv32>, t: nat)
    requires |m| == 16 && t < 16 && Scheduled(b, m, t)
    ensures b[t] == W(m, t) && Scheduled(b, m, t + 1)
  {
    hide W;
    assert b[t % 16] == W(m, t);
  }

  lemma F1Is(t: nat, b: bv32, c: bv32, d: bv32)
    requires t < 20
    ensures (b & (c ^ d)) ^ d == F(t, b, c, d)
  {
    Choose(b, c, d);
  }

  lemma KIs(t: nat)
    requires t < 80
    ensures K(t) ==
      if t < 20 then 0x5a827999 else if t < 40 then 0x6ed9eba1 else if t < 60 then 0x8f1bbcdc else 0xca62c1d6
  {
  }

  lemma Mod5(x: nat, y: nat, q: nat)
    requires x == y + 5 * q
    ensures x % 5 == y % 5
  {
  }

  lemma Mod16(x: nat, y: nat, q: nat)
    requires x == y + 16 * q
    ensures x % 16 == y % 16
  {
  }

  /** The five slots of a step, named by the registers they hold. */
  ghost predicate AreSlots(t: nat, e: nat, d: nat, c: nat, b: nat, a: nat)
  {
    e == t % 5 && d == (t + 1) % 5 && c == (t + 2) % 5 && b == (t + 3) % 5 && a == (t + 4) % 5
  }

  lemma SlotsFrom20(i: nat)
    ensures AreSlots(20 + i, i % 5, (1 + i) % 5, (2 + i) % 5, (3 + i) % 5, (4 + i) % 5)
    ensures (20 + i) % 16 == (i + 4) % 16
  {
    Mod5(20 + i, i, 4);
    Mod5(20 + i + 1, 1 + i, 4);
    Mod5(20 + i + 2, 2 + i, 4);
    Mod5(20 + i + 3, 3 + i, 4);
    Mod5(20 + i + 4, 4 + i, 4);
    Mod16(20 + i, i + 4, 1);
  }

  lemma SlotsFrom40(i: nat)
    ensures AreSlots(40 + i, i % 5, (1 + i) % 5, (2 + i) % 5, (3 + i) % 5, (4 + i) % 5)
    ensures (40 + i) % 16 == (i + 8) % 16
  {
    Mod5(40 + i, i, 8);
    Mod5(40 + i + 1, 1 + i, 8);
    Mod5(40 + i + 2, 2 + i, 8);
    Mod5(40 + i + 3, 3 + i, 8);
    Mod5(40 + i + 4, 4 + i, 8);
    Mod16(40 + i, i + 8, 2);
  }

  lemma SlotsFrom60(i: nat)
    ensures AreSlots(60 + i, i % 5, (1 + i) % 5, (2 + i) % 5, (3 + i) % 5, (4 + i) % 5)
    ensures (60 + i) % 16 == (i + 12) % 16
  {
    Mod5(60 + i, i, 12);
    Mod5(60 + i + 1, 1 + i, 12);
    Mod5(60 + i + 2, 2 + i, 12);
    Mod5(60 + i + 3, 3 + i, 12);
    Mod5(60 + i + 4, 4 + i, 12);
    Mod16(60 + i, i + 12, 3);
  }

  lemma SlotsFrom16(i: nat)
    requires i < 4
    ensures AreSlots(16 + i, (1 + i) % 5, (2 + i) % 5, (3 + i) % 5, (4 + i) % 5, (5 + i) % 5)
    ensures (16 + i) % 16 == i
  {
    Mod5(16 + i, 1 + i, 3);
    Mod5(16 + i + 1, 2 + i, 3);
    Mod5(16 + i + 2, 3 + i, 3);
    Mod5(16 + i + 3, 4 + i, 3);
    Mod5(16 + i + 4, 5 + i, 3);
  }

  lemma SlotsFrom0(i: nat)
    ensures AreSlots(i, i % 5, (1 + i) % 5, (2 + i) % 5, (3 + i) % 5, (4 + i) % 5)
  {
  }

  lemma SlotsDiffer(t: nat, e: nat, d: nat, c: nat, b: nat, a: nat)
    requires AreSlots(t, e, d, c, b, a)
    ensures e < 5 && d < 5 && c < 5 && b < 5 && a < 5 && e != b && b != a && e != a
  {
    Slots(t);
  }

  /** Writing the new value and rotating B in its slot is the step on the array. */
  lemma Written(was: seq<bv32>, t: nat, f: bv32, w: bv32, e: nat, d: nat, c: nat, b: nat, a: nat)
    requires |was| == 5 && t < 80 && AreSlots(t, e, d, c, b, a)
    ensures was[e := Sum(was[e], f, w, K(t), Rol(was[a], 5))][b := Rol(was[b], 30)] == Stepped(was, t, f, w)
  {
    hide Sum, K, Rol;
  }

  /** A step in terms of the slots of its registers. */
  lemma StepAt(was: seq<bv32>, words: seq<bv32>, start: Registers, m: seq<bv32>, t: nat, f: bv32,
               e: nat, d: nat, c: nat, b: nat, a: nat)
    requires AtStep(was, words, start, m, t) && t < 80 && AreSlots(t, e, d, c, b, a)
    requires |was| == 5 && |words| == 16 && e < 5 && d < 5 && c < 5 && b < 5 && a < 5
    requires f == F(t, was[b], was[c], was[d])
    ensures t < 16 ==>
      AtStep(was[e := Sum(was[e], f, words[t], K(t), Rol(was[a], 5))][b := Rol(was[b], 30)], words, start, m, t + 1)
    ensures 16 <= t ==>
      var next := words[t % 16 := Blk(words, t % 16)];
      AtStep(was[e := Sum(was[e], f, next[t % 16], K(t), Rol(was[a], 5))][b := Rol(was[b], 30)], next, start, m, t + 1)
  {
    hide F, Sum, K, Rol, Blk, AtStep, Stepped;
    StepDone(was, words, start, m, t, f);
    Written(was, t, f, if t < 16 then words[t] else Blk(words, t % 16), e, d, c, b, a);
  }

  /** The two writes of a step: the new value goes to the slot of E, and B is rotated in its slot. */
  method Update(a: array<bv32>, f: bv32, w: bv32, k: bv32, slotE: nat, slotB: nat, slotA: nat)
    requires a.Length == 5 && slotE < 5 && slotB < 5 && slotA < 5 && slotE != slotB
    modifies a
    ensures a[..] == old(a[..])[slotE := Sum(old(a[slotE]), f, w, k, Rol(old(a[slotA]), 5))]
                               [slotB := Rol(old(a[slotB]), 30)]
  {
    hide Sum, Rol;
    a[slotE] := Sum(a[slotE], f, w, k, Rol(a[slotA], 5));
    a[slotB] := Rol(a[slotB], 30);
  }

  method F1(i: nat, a: array<bv32>, b: array<bv32>, ghost start: Registers, ghost m: seq<bv32>)
    requires a != b && a.Length == 5 && b.Length == 16 && i < 16
    requires AtStep(a[..], b[..], start, m, i)
    modifies a
    ensures AtStep(a[..], b[..], start, m, i + 1)
  {
    hide F, K, Rol, Sum, Temp, W, AtStep, Blk, AreSlots, Stepped;
    ghost var was, words := a[..], b[..];
    var slotE, slotD, slotC, slotB, slotA := i % 5, (1 + i) % 5, (2 + i) % 5, (3 + i) % 5, (4 + i) % 5;
    SlotsFrom0(i);
    SlotsDiffer(i, slotE, slotD, slotC, slotB, slotA);
    var f := (a[slotB] & (a[slotC] ^ a[slotD])) ^ a[slotD];
    F1Is(i, a[slotB], a[slotC], a[slotD]);
    StepAt(was, words, start, m, i, f, slotE, slotD, slotC, slotB, slotA);
    Update(a, f, b[i], 0x5a827999, slotE, slotB, slotA);
    KIs(i);
  }

  method F2(i: nat, a: array<bv32>, b: array<bv32>, ghost start: Registers, ghost m: seq<bv32>)
    requires a != b && a.Length == 5 && b.Length == 16 && i < 4
    requires AtStep(a[..], b[..], start, m, 16 + i)
    modifies a, b
    ensures AtStep(a[..], b[..], start, m, 16 + i + 1)
  {
    hide F, K, Rol, Sum, Temp, W, AtStep, Blk, AreSlots, Stepped;
    ghost var was, words := a[..], b[..];
    var slotE, slotD, slotC, slotB, slotA := (1 + i) % 5, (2 + i) % 5, (3 + i) % 5, (4 + i) % 5, (5 + i) % 5;
    SlotsFrom16(i);
    SlotsDiffer(16 + i, slotE, slotD, slotC, slotB, slotA);
    var f := (a[slotB] & (a[slotC] ^ a[slotD])) ^ a[slotD];
    F1Is(16 + i, a[slotB], a[slotC], a[slotD]);
    StepAt(was, words, start, m, 16 + i, f, slotE, slotD, slotC, slotB, slotA);
    b[i] := Blk(b[..], i);
    Update(a, f, b[i], 0x5a827999, slotE, slotB, slotA);
    KIs(16 + i);
    assert b[..] == words[i := Blk(words, i)];
  }

  method F3(i: nat, a: array<bv32>, b: array<bv32>, ghost start: Registers, ghost m: seq<bv32>)
    requires a != b && a.Length == 5 && b.Length == 16 && i < 20
    requires AtStep(a[..], b[..], start, m, 20 + i)
    modifies a, b
    ensures AtStep(a[..], b[..], start, m, 20 + i + 1)
  {
    hide F, K, Rol, Sum, Temp, W, AtStep, Blk, AreSlots, Stepped;
    ghost var was, words := a[..], b[..];
    var slotE, slotD, slotC, slotB, slotA := i % 5, (1 + i) % 5, (2 + i) % 5, (3 + i) % 5, (4 + i) % 5;
    SlotsFrom20(i);
    SlotsDiffer(20 + i, slotE, slotD, slotC, slotB, slotA);
    var f := a[slotB] ^ a[slotC] ^ a[slotD];
    F3Is(20 + i, a[slotB], a[slotC], a[slotD]);
    StepAt(was, words, start, m, 20 + i, f, slotE, slotD, slotC, slotB, slotA);
    b[(i + 4) % 16] := Blk(b[..], (i + 4) % 16);
    Update(a, f, b[(i + 4) % 16], 0x6ed9eba1, slotE, slotB, slotA);
    KIs(20 + i);
    assert b[..] == words[(i + 4) % 16 := Blk(words, (i + 4) % 16)];
  }

  method F4(i: nat, a: array<bv32>, b: array<bv32>, ghost start: Registers, ghost m: seq<bv32>)
    requires a != b && a.Length == 5 && b.Length == 16 && i < 20
    requires AtStep(a[..], b[..], start, m, 40 + i)
    modifies a, b
    ensures AtStep(a[..], b[..], start, m, 40 + i + 1)
  {
    hide F, K, Rol, Sum, Temp, W, AtStep, Blk, AreSlots, Stepped;
    ghost var was, words := a[..], b[..];
    var slotE, slotD, slotC, slotB, slotA := i % 5, (1 + i) % 5, (2 + i) % 5, (3 + i) % 5, (4 + i) % 5;
    SlotsFrom40(i);
    SlotsDiffer(40 + i, slotE, slotD, slotC, slotB, slotA);
    var f := ((a[slotB] | a[slotC]) & a[slotD]) | (a[slotB] & a[slotC]);
    F4Is(40 + i, a[slotB], a[slotC], a[slotD]);
    StepAt(was, words, start, m, 40 + i, f, slotE, slotD, slotC, slotB, slotA);
    b[(i + 8) % 16] := Blk(b[..], (i + 8) % 16);
    Update(a, f, b[(i + 8) % 16], 0x8f1bbcdc, slotE, slotB, slotA);
    KIs(40 + i);
    assert b[..] == words[(i + 8) % 16 := Blk(words, (i + 8) % 16)];
  }

  method F5(i: nat, a: array<bv32>, b: array<bv32>, ghost start: Registers, ghost m: seq<bv32>)
    requires a != b && a.Length == 5 && b.Length == 16 && i < 20
    requires AtStep(a[..], b[..], start, m, 60 + i)
    modifies a, b
    ensures AtStep(a[..], b[..], start, m, 60 + i + 1)
  {
    hide F, K, Rol, Sum, Temp, W, AtStep, Blk, AreSlots, Stepped;
    ghost var was, words := a[..], b[..];
    var slotE, slotD, slotC, slotB, slotA := i % 5, (1 + i) % 5, (2 + i) % 5, (3 + i) % 5, (4 + i) % 5;
    SlotsFrom60(i);
    SlotsDiffer(60 + i, slotE, slotD, slotC, slotB, slotA);
    var f := a[slotB] ^ a[slotC] ^ a[slotD];
    F3Is(60 + i, a[slotB], a[slotC], a[slotD]);
    StepAt(was, words, start, m, 60 + i, f, slotE, slotD, slotC, slotB, slotA);
    b[(i + 12) % 16] := Blk(b[..], (i + 12) % 16);
    Update(a, f, b[(i + 12) % 16], 0xca62c1d6, slotE, slotB, slotA);
    KIs(60 + i);
    assert b[..] == words[(i + 12) % 16 := Blk(words, (i + 12) % 16)];
  }

  lemma F3Is(t: nat, b: bv32, c: bv32, d: bv32)
    requires 20 <= t && !(40 <= t < 60)
    ensures b ^ c ^ d == F(t, b, c, d)
  {
  }

  lemma F4Is(t: nat, b: bv32, c: bv32, d: bv32)
    requires 40 <= t < 60
    ensures ((b | c) & d) | (b & c) == F(t, b, c, d)
  {
    Majority(b, c, d);
  }

  lemma AtStart(a: seq<bv32>, b: seq<bv32>, h: seq<bv32>)
    requires |h| == 5 && |b| == 16 && a == [h[4], h[3], h[2], h[1], h[0]]
    ensures AtStep(a, b, Registers(h[0], h[1], h[2], h[3], h[4]), b, 0)
  {
  }

  /** The eighty steps. */
  method EightyRounds(a: array<bv32>, b: array<bv32>, ghost start: Registers, ghost m: seq<bv32>)
    requires a != b && a.Length == 5 && b.Length == 16
    requires AtStep(a[..], b[..], start, m, 0)
    modifies a, b
    ensures AtStep(a[..], b[..], start, m, 80)
  {
    hide AtStep;
    for i := 0 to 16
      invariant AtStep(a[..], b[..], start, m, i)
    {
      F1(i, a, b, start, m);
    }
    for i := 0 to 4
      invariant AtStep(a[..], b[..], start, m, 16 + i)
    {
      F2(i, a, b, start, m);
    }
    for i := 0 to 20
      invariant AtStep(a[..], b[..], start, m, 20 + i)
    {
      F3(i, a, b, start, m);
    }
    for i := 0 to 20
      invariant AtStep(a[..], b[..], start, m, 40 + i)
    {
      F4(i, a, b, start, m);
    }
    for i := 0 to 20
      invariant AtStep(a[..], b[..], start, m, 60 + i)
    {
      F5(i, a, b, start, m);
    }
  }

  /** The hash value takes in one block, in place. */
  method CompressBlock(hash: array<bv32>, b: array<bv32>)
    requires hash != b && hash.Length == 5 && b.Length == 16
    modifies hash, b
    ensures hash[..] == Compress(old(hash[..]), old(b[..]))
  {
    hide AtStep, Rounds, Add;
    ghost var h, m := hash[..], b[..];
    ghost var start := Registers(h[0], h[1], h[2], h[3], h[4]);
    var a := new bv32[5] [hash[4], hash[3], hash[2], hash[1], hash[0]];
    AtStart(a[..], m, h);
    EightyRounds(a, b, start, m);
    AtEnd(a[..], b[..], start, m);
    AddRegisters(a, hash);
  }

  /** The registers are added to the hash value. */
  method AddRegisters(a: array<bv32>, hash: array<bv32>)
    requires a != hash && a.Length == 5 && hash.Length == 5
    modifies hash
    ensures hash[..] == [Add(old(hash[0]), a[4]), Add(old(hash[1]), a[3]), Add(old(hash[2]), a[2]),
                         Add(old(hash[3]), a[1]), Add(old(hash[4]), a[0])]
  {
    hide Add;
    for i := 0 to 5
      invariant forall j :: 0 <= j < i ==> hash[j] == Add(old(hash[j]), a[4 - j])
      invariant forall j :: i <= j < 5 ==> hash[j] == old(hash[j])
    {
      hash[i] := Add(hash[i], a[4 - i]);
    }
    assert hash[..] == [hash[0], hash[1], hash[2], hash[3], hash[4]];
  }

  lemma AtEnd(a: seq<bv32>, b: seq<bv32>, start: Registers, m: seq<bv32>)
    requires AtStep(a, b, start, m, 80)
    ensures Rounds(start, m, 80) == Registers(a[4], a[3], a[2], a[1], a[0])
  {
    hide Rounds;
  }
}
