/** tool/json-generator/web/jquery.md5.js against RFC 1321.  A JavaScript number that only bitwise operators read stands
    for its value modulo 2^32, a `bv32`; a hole in an array reads as zero. */
module Md5 {
  import opened Bytes

  type Word = bv32
  type Byte = bv8

  // ----- words

  function RotateLeft(x: Word, s: nat): Word
    requires 0 < s < 32
  {
    (x << s) | (x >> (32 - s))
  }

  // Addition from 30-bit pieces, because a number holds 53 bits and an operator keeps 32.

  /** Both words have bit 30. */
  predicate BothMid(x: Word, y: Word) { (x & 0x4000_0000) & (y & 0x4000_0000) != 0 }

  predicate AnyMid(x: Word, y: Word) { (x & 0x4000_0000) | (y & 0x4000_0000) != 0 }

  /** The sum of the lower bits, with the exclusive or of `flip` and the highest bits. */
  function Joined(x: Word, y: Word, flip: Word): Word {
    ((x & 0x3FFF_FFFF) + (y & 0x3FFF_FFFF)) ^ flip ^ (x & 0x8000_0000) ^ (y & 0x8000_0000)
  }

  /** The sum of the lower bits reaches bit 30. */
  predicate LowCarries(x: Word, y: Word) { ((x & 0x3FFF_FFFF) + (y & 0x3FFF_FFFF)) & 0x4000_0000 != 0 }

  function AddUnsigned(x: Word, y: Word): Word {
    if BothMid(x, y) then Joined(x, y, 0x8000_0000)
    else if AnyMid(x, y) then if LowCarries(x, y) then Joined(x, y, 0xC000_0000) else Joined(x, y, 0x4000_0000)
    else Joined(x, y, 0)
  }

  lemma JoinBoth(x: Word, y: Word)
    requires BothMid(x, y)
    ensures Joined(x, y, 0x8000_0000) == x + y
  {
  }

  lemma JoinOn(x: Word, y: Word)
    requires !BothMid(x, y) && AnyMid(x, y) && LowCarries(x, y)
    ensures Joined(x, y, 0xC000_0000) == x + y
  {
  }

  lemma JoinOne(x: Word, y: Word)
    requires !BothMid(x, y) && AnyMid(x, y) && !LowCarries(x, y)
    ensures Joined(x, y, 0x4000_0000) == x + y
  {
  }

  lemma JoinNone(x: Word, y: Word)
    requires !BothMid(x, y) && !AnyMid(x, y)
    ensures Joined(x, y, 0) == x + y
  {
  }

  /** The pieces make addition modulo 2^32. */
  lemma AddIsAdd(x: Word, y: Word)
    ensures AddUnsigned(x, y) == x + y
  {
    hide BothMid, AnyMid, LowCarries, Joined;
    if BothMid(x, y) {
      JoinBoth(x, y);
    } else if !AnyMid(x, y) {
      JoinNone(x, y);
    } else if LowCarries(x, y) {
      JoinOn(x, y);
    } else {
      JoinOne(x, y);
    }
  }

  function F(x: Word, y: Word, z: Word): Word { (x & y) | (!x & z) }

  function G(x: Word, y: Word, z: Word): Word { (x & z) | (y & !z) }

  function H(x: Word, y: Word, z: Word): Word { x ^ y ^ z }

  function I(x: Word, y: Word, z: Word): Word { y ^ (x | !z) }

  /** FF, GG, HH and II, given the value `f` of the auxiliary function. */
  function Op(a: Word, b: Word, f: Word, x: Word, s: nat, ac: Word): Word
    requires 0 < s < 32
  {
    var a := AddUnsigned(a, AddUnsigned(AddUnsigned(f, x), ac));
    AddUnsigned(RotateLeft(a, s), b)
  }

  function FF(a: Word, b: Word, c: Word, d: Word, x: Word, s: nat, ac: Word): Word
    requires 0 < s < 32
  {
    Op(a, b, F(b, c, d), x, s, ac)
  }

  function GG(a: Word, b: Word, c: Word, d: Word, x: Word, s: nat, ac: Word): Word
    requires 0 < s < 32
  {
    Op(a, b, G(b, c, d), x, s, ac)
  }

  function HH(a: Word, b: Word, c: Word, d: Word, x: Word, s: nat, ac: Word): Word
    requires 0 < s < 32
  {
    Op(a, b, H(b, c, d), x, s, ac)
  }

  function II(a: Word, b: Word, c: Word, d: Word, x: Word, s: nat, ac: Word): Word
    requires 0 < s < 32
  {
    Op(a, b, I(b, c, d), x, s, ac)
  }

  // ----- RFC 1321 section 3.4

  /** The table T, from the sine function, in four parts. */
  function T(i: nat): Word
    requires i < 64
  {
    if i < 16 then Sines1(i) else if i < 32 then Sines2(i - 16) else if i < 48 then Sines3(i - 32) else Sines4(i - 48)
  }

  function Sines1(i: nat): Word {
    match i
    case 0 => 0xd76aa478 case 1 => 0xe8c7b756 case 2 => 0x242070db case 3 => 0xc1bdceee
    case 4 => 0xf57c0faf case 5 => 0x4787c62a case 6 => 0xa8304613 case 7 => 0xfd469501
    case 8 => 0x698098d8 case 9 => 0x8b44f7af case 10 => 0xffff5bb1 case 11 => 0x895cd7be
    case 12 => 0x6b901122 case 13 => 0xfd987193 case 14 => 0xa679438e case _ => 0x49b40821
  }

  function Sines2(i: nat): Word {
    match i
    case 0 => 0xf61e2562 case 1 => 0xc040b340 case 2 => 0x265e5a51 case 3 => 0xe9b6c7aa
    case 4 => 0xd62f105d case 5 => 0x02441453 case 6 => 0xd8a1e681 case 7 => 0xe7d3fbc8
    case 8 => 0x21e1cde6 case 9 => 0xc33707d6 case 10 => 0xf4d50d87 case 11 => 0x455a14ed
    case 12 => 0xa9e3e905 case 13 => 0xfcefa3f8 case 14 => 0x676f02d9 case _ => 0x8d2a4c8a
  }

  function Sines3(i: nat): Word {
    match i
    case 0 => 0xfffa3942 case 1 => 0x8771f681 case 2 => 0x6d9d6122 case 3 => 0xfde5380c
    case 4 => 0xa4beea44 case 5 => 0x4bdecfa9 case 6 => 0xf6bb4b60 case 7 => 0xbebfbc70
    case 8 => 0x289b7ec6 case 9 => 0xeaa127fa case 10 => 0xd4ef3085 case 11 => 0x04881d05
    case 12 => 0xd9d4d039 case 13 => 0xe6db99e5 case 14 => 0x1fa27cf8 case _ => 0xc4ac5665
  }

  function Sines4(i: nat): Word {
    match i
    case 0 => 0xf4292244 case 1 => 0x432aff97 case 2 => 0xab9423a7 case 3 => 0xfc93a039
    case 4 => 0x655b59c3 case 5 => 0x8f0ccc92 case 6 => 0xffeff47d case 7 => 0x85845dd1
    case 8 => 0x6fa87e4f case 9 => 0xfe2ce6e0 case 10 => 0xa3014314 case 11 => 0x4e0811a1
    case 12 => 0xf7537e82 case 13 => 0xbd3af235 case 14 => 0x2ad7d2bb case _ => 0xeb86d391
  }

  /** The buffer A, B, C, D. */
  datatype Buffer = Buffer(a: Word, b: Word, c: Word, d: Word)

  /** The auxiliary function of step `i`. */
  function Auxiliary(i: nat, x: Word, y: Word, z: Word): Word {
    if i < 16 then F(x, y, z) else if i < 32 then G(x, y, z) else if i < 48 then H(x, y, z) else I(x, y, z)
  }

  /** Which word of the block step `i` reads. */
  function Index(i: nat): (k: nat)
    ensures k < 16
  {
    if i < 16 then i % 16 else if i < 32 then (5 * i + 1) % 16 else if i < 48 then (3 * i + 5) % 16 else (7 * i) % 16
  }

  /** How far step `i` rotates. */
  function Shift(i: nat): (s: nat)
    ensures 0 < s < 32
  {
    var j := i % 4;
    if i < 16 then (if j == 0 then 7 else if j == 1 then 12 else if j == 2 then 17 else 22)
    else if i < 32 then (if j == 0 then 5 else if j == 1 then 9 else if j == 2 then 14 else 20)
    else if i < 48 then (if j == 0 then 4 else if j == 1 then 11 else if j == 2 then 16 else 23)
    else (if j == 0 then 6 else if j == 1 then 10 else if j == 2 then 15 else 21)
  }

  function Rotated(x: Word, s: nat): Word
    requires s < 32
  {
    x.RotateLeft(s)
  }

  /** Addition modulo 2^32. */
  function Plus(x: Word, y: Word): Word { x + y }

  /** a = b + ((a + f(b, c, d) + X[k] + T(i)) <<< s), and the letters move on by one. */
  function Step(m: Buffer, x: seq<Word>, i: nat): Buffer
    requires i < 64 && |x| == 16
  {
    Buffer(m.d, Plus(Rotated(Plus(m.a, Plus(Plus(Auxiliary(i, m.b, m.c, m.d), x[Index(i)]), T(i))), Shift(i)), m.b),
        m.b, m.c)
  }

  function Steps(m: Buffer, x: seq<Word>, n: nat): Buffer
    requires n <= 64 && |x| == 16
  {
    if n == 0 then m else Step(Steps(m, x, n - 1), x, n - 1)
  }

  function AddBuffers(m: Buffer, n: Buffer): Buffer {
    Buffer(Plus(m.a, n.a), Plus(m.b, n.b), Plus(m.c, n.c), Plus(m.d, n.d))
  }

  function Block(m: Buffer, x: seq<Word>): Buffer
    requires |x| == 16
  {
    AddBuffers(Steps(m, x, 64), m)
  }

  const START := Buffer(0x67452301, 0xefcdab89, 0x98badcfe, 0x10325476)

  /** The buffer after the first `n` blocks. */
  function Blocks(x: seq<Word>, n: nat): Buffer
    requires 16 * n <= |x|
  {
    if n == 0 then START else Block(Blocks(x, n - 1), x[16 * n - 16..16 * n])
  }

  // ----- a step of the code is a step of the RFC

  lemma RotateLiterals(x: Word)
    ensures RotateLeft(x, 4) == Rotated(x, 4) && RotateLeft(x, 5) == Rotated(x, 5) && RotateLeft(x, 6) == Rotated(x, 6)
    ensures RotateLeft(x, 7) == Rotated(x, 7) && RotateLeft(x, 9) == Rotated(x, 9)
            && RotateLeft(x, 10) == Rotated(x, 10)
    ensures RotateLeft(x, 11) == Rotated(x, 11) && RotateLeft(x, 12) == Rotated(x, 12)
            && RotateLeft(x, 14) == Rotated(x, 14)
    ensures RotateLeft(x, 15) == Rotated(x, 15) && RotateLeft(x, 16) == Rotated(x, 16)
            && RotateLeft(x, 17) == Rotated(x, 17)
    ensures RotateLeft(x, 20) == Rotated(x, 20) && RotateLeft(x, 21) == Rotated(x, 21)
            && RotateLeft(x, 22) == Rotated(x, 22)
    ensures RotateLeft(x, 23) == Rotated(x, 23)
  {
  }

  lemma RotateIsRotate(x: Word, i: nat)
    ensures RotateLeft(x, Shift(i)) == Rotated(x, Shift(i))
  {
    hide RotateLeft, Rotated;
    RotateLiterals(x);
  }

  lemma AddIsPlus(x: Word, y: Word)
    ensures AddUnsigned(x, y) == Plus(x, y)
  {
    AddIsAdd(x, y);
    hide AddUnsigned;
  }

  /** The value that step `i` computes. */
  function Value(i: nat, a: Word, b: Word, c: Word, d: Word, x: seq<Word>): Word
    requires i < 64 && |x| == 16
  {
    Op(a, b, Auxiliary(i, b, c, d), x[Index(i)], Shift(i), T(i))
  }

  lemma ValueIsStep(m: Buffer, x: seq<Word>, i: nat)
    requires i < 64 && |x| == 16
    ensures Step(m, x, i) == Buffer(m.d, Value(i, m.a, m.b, m.c, m.d, x), m.b, m.c)
  {
    hide AddUnsigned, Plus, RotateLeft, Rotated, Auxiliary, Index, Shift;
    var f, w, t := Auxiliary(i, m.b, m.c, m.d), x[Index(i)], T(i);
    AddIsPlus(f, w);
    AddIsPlus(Plus(f, w), t);
    AddIsPlus(m.a, Plus(Plus(f, w), t));
    var a := Plus(m.a, Plus(Plus(f, w), t));
    RotateIsRotate(a, i);
    AddIsPlus(Rotated(a, Shift(i)), m.b);
  }

  /** Four steps bring the letters back to their places. */
  lemma Four(m: Buffer, x: seq<Word>, i: nat)
    requires i + 4 <= 64 && |x| == 16
    ensures var n := Steps(m, x, i);
            var a := Value(i, n.a, n.b, n.c, n.d, x);
            var d := Value(i + 1, n.d, a, n.b, n.c, x);
            var c := Value(i + 2, n.c, d, a, n.b, x);
            var b := Value(i + 3, n.b, c, d, a, x);
            Steps(m, x, i + 4) == Buffer(a, b, c, d)
  {
    hide Step, Value;
    var n := Steps(m, x, i);
    var a := Value(i, n.a, n.b, n.c, n.d, x);
    var d := Value(i + 1, n.d, a, n.b, n.c, x);
    var c := Value(i + 2, n.c, d, a, n.b, x);
    ValueIsStep(n, x, i);
    assert Steps(m, x, i + 1) == Buffer(n.d, a, n.b, n.c);
    ValueIsStep(Buffer(n.d, a, n.b, n.c), x, i + 1);
    assert Steps(m, x, i + 2) == Buffer(n.c, d, a, n.b);
    ValueIsStep(Buffer(n.c, d, a, n.b), x, i + 2);
    assert Steps(m, x, i + 3) == Buffer(n.b, c, d, a);
    ValueIsStep(Buffer(n.b, c, d, a), x, i + 3);
  }

  lemma FFSteps(m: Buffer, x: seq<Word>, i: nat)
    requires |x| == 16 && i in {0, 4, 8, 12}
    ensures var n := Steps(m, x, i);
            var a := FF(n.a, n.b, n.c, n.d, x[Index(i)], 7, T(i));
            var d := FF(n.d, a, n.b, n.c, x[Index(i + 1)], 12, T(i + 1));
            var c := FF(n.c, d, a, n.b, x[Index(i + 2)], 17, T(i + 2));
            var b := FF(n.b, c, d, a, x[Index(i + 3)], 22, T(i + 3));
            Steps(m, x, i + 4) == Buffer(a, b, c, d)
  {
    hide Steps, Op, F, G, H, I, T, Index;
    Four(m, x, i);
  }

  lemma GGSteps(m: Buffer, x: seq<Word>, i: nat)
    requires |x| == 16 && i in {16, 20, 24, 28}
    ensures var n := Steps(m, x, i);
            var a := GG(n.a, n.b, n.c, n.d, x[Index(i)], 5, T(i));
            var d := GG(n.d, a, n.b, n.c, x[Index(i + 1)], 9, T(i + 1));
            var c := GG(n.c, d, a, n.b, x[Index(i + 2)], 14, T(i + 2));
            var b := GG(n.b, c, d, a, x[Index(i + 3)], 20, T(i + 3));
            Steps(m, x, i + 4) == Buffer(a, b, c, d)
  {
    hide Steps, Op, F, G, H, I, T, Index;
    Four(m, x, i);
  }

  lemma HHSteps(m: Buffer, x: seq<Word>, i: nat)
    requires |x| == 16 && i in {32, 36, 40, 44}
    ensures var n := Steps(m, x, i);
            var a := HH(n.a, n.b, n.c, n.d, x[Index(i)], 4, T(i));
            var d := HH(n.d, a, n.b, n.c, x[Index(i + 1)], 11, T(i + 1));
            var c := HH(n.c, d, a, n.b, x[Index(i + 2)], 16, T(i + 2));
            var b := HH(n.b, c, d, a, x[Index(i + 3)], 23, T(i + 3));
            Steps(m, x, i + 4) == Buffer(a, b, c, d)
  {
    hide Steps, Op, F, G, H, I, T, Index;
    Four(m, x, i);
  }

  lemma IISteps(m: Buffer, x: seq<Word>, i: nat)
    requires |x| == 16 && i in {48, 52, 56, 60}
    ensures var n := Steps(m, x, i);
            var a := II(n.a, n.b, n.c, n.d, x[Index(i)], 6, T(i));
            var d := II(n.d, a, n.b, n.c, x[Index(i + 1)], 10, T(i + 1));
            var c := II(n.c, d, a, n.b, x[Index(i + 2)], 15, T(i + 2));
            var b := II(n.b, c, d, a, x[Index(i + 3)], 21, T(i + 3));
            Steps(m, x, i + 4) == Buffer(a, b, c, d)
  {
    hide Steps, Op, F, G, H, I, T, Index;
    Four(m, x, i);
  }

  lemma Table1a()
    ensures T(0) == 0xd76aa478 && T(1) == 0xe8c7b756 && T(2) == 0x242070db && T(3) == 0xc1bdceee
    ensures T(4) == 0xf57c0faf && T(5) == 0x4787c62a && T(6) == 0xa8304613 && T(7) == 0xfd469501
  {
  }

  lemma Table1b()
    ensures T(8) == 0x698098d8 && T(9) == 0x8b44f7af && T(10) == 0xffff5bb1 && T(11) == 0x895cd7be
    ensures T(12) == 0x6b901122 && T(13) == 0xfd987193 && T(14) == 0xa679438e && T(15) == 0x49b40821
  {
  }

  lemma Entries1()
    ensures Index(0) == 0 && Index(1) == 1 && Index(2) == 2 && Index(3) == 3
    ensures Index(4) == 4 && Index(5) == 5 && Index(6) == 6 && Index(7) == 7
    ensures Index(8) == 8 && Index(9) == 9 && Index(10) == 10 && Index(11) == 11
    ensures Index(12) == 12 && Index(13) == 13 && Index(14) == 14 && Index(15) == 15
  {
  }

  lemma Table2a()
    ensures T(16) == 0xf61e2562 && T(17) == 0xc040b340 && T(18) == 0x265e5a51 && T(19) == 0xe9b6c7aa
    ensures T(20) == 0xd62f105d && T(21) == 0x02441453 && T(22) == 0xd8a1e681 && T(23) == 0xe7d3fbc8
  {
  }

  lemma Table2b()
    ensures T(24) == 0x21e1cde6 && T(25) == 0xc33707d6 && T(26) == 0xf4d50d87 && T(27) == 0x455a14ed
    ensures T(28) == 0xa9e3e905 && T(29) == 0xfcefa3f8 && T(30) == 0x676f02d9 && T(31) == 0x8d2a4c8a
  {
  }

  lemma Entries2()
    ensures Index(16) == 1 && Index(17) == 6 && Index(18) == 11 && Index(19) == 0
    ensures Index(20) == 5 && Index(21) == 10 && Index(22) == 15 && Index(23) == 4
    ensures Index(24) == 9 && Index(25) == 14 && Index(26) == 3 && Index(27) == 8
    ensures Index(28) == 13 && Index(29) == 2 && Index(30) == 7 && Index(31) == 12
  {
  }

  lemma Table3a()
    ensures T(32) == 0xfffa3942 && T(33) == 0x8771f681 && T(34) == 0x6d9d6122 && T(35) == 0xfde5380c
    ensures T(36) == 0xa4beea44 && T(37) == 0x4bdecfa9 && T(38) == 0xf6bb4b60 && T(39) == 0xbebfbc70
  {
  }

  lemma Table3b()
    ensures T(40) == 0x289b7ec6 && T(41) == 0xeaa127fa && T(42) == 0xd4ef3085 && T(43) == 0x04881d05
    ensures T(44) == 0xd9d4d039 && T(45) == 0xe6db99e5 && T(46) == 0x1fa27cf8 && T(47) == 0xc4ac5665
  {
  }

  lemma Entries3()
    ensures Index(32) == 5 && Index(33) == 8 && Index(34) == 11 && Index(35) == 14
    ensures Index(36) == 1 && Index(37) == 4 && Index(38) == 7 && Index(39) == 10
    ensures Index(40) == 13 && Index(41) == 0 && Index(42) == 3 && Index(43) == 6
    ensures Index(44) == 9 && Index(45) == 12 && Index(46) == 15 && Index(47) == 2
  {
  }

  lemma Table4a()
    ensures T(48) == 0xf4292244 && T(49) == 0x432aff97 && T(50) == 0xab9423a7 && T(51) == 0xfc93a039
    ensures T(52) == 0x655b59c3 && T(53) == 0x8f0ccc92 && T(54) == 0xffeff47d && T(55) == 0x85845dd1
  {
  }

  lemma Table4b()
    ensures T(56) == 0x6fa87e4f && T(57) == 0xfe2ce6e0 && T(58) == 0xa3014314 && T(59) == 0x4e0811a1
    ensures T(60) == 0xf7537e82 && T(61) == 0xbd3af235 && T(62) == 0x2ad7d2bb && T(63) == 0xeb86d391
  {
  }

  lemma Entries4()
    ensures Index(48) == 0 && Index(49) == 7 && Index(50) == 14 && Index(51) == 5
    ensures Index(52) == 12 && Index(53) == 3 && Index(54) == 10 && Index(55) == 1
    ensures Index(56) == 8 && Index(57) == 15 && Index(58) == 6 && Index(59) == 13
    ensures Index(60) == 4 && Index(61) == 11 && Index(62) == 2 && Index(63) == 9
  {
  }

  method Round1(x: seq<Word>, k: nat, a0: Word, b0: Word, c0: Word, d0: Word, ghost m: Buffer)
    returns (a: Word, b: Word, c: Word, d: Word)
    requires k + 16 <= |x| && Buffer(a0, b0, c0, d0) == Steps(m, x[k..k + 16], 0)
    ensures Buffer(a, b, c, d) == Steps(m, x[k..k + 16], 16)
  {
    hide FF, GG, HH, II, Steps, Index, T;
    Entries1();
    Table1a();
    Table1b();
    a, b, c, d := a0, b0, c0, d0;
    a := FF(a, b, c, d, x[k + 0], 7, 0xD76AA478);
    d := FF(d, a, b, c, x[k + 1], 12, 0xE8C7B756);
    c := FF(c, d, a, b, x[k + 2], 17, 0x242070DB);
    b := FF(b, c, d, a, x[k + 3], 22, 0xC1BDCEEE);
    FFSteps(m, x[k..k + 16], 0);
    assert Buffer(a, b, c, d) == Steps(m, x[k..k + 16], 4);
    a := FF(a, b, c, d, x[k + 4], 7, 0xF57C0FAF);
    d := FF(d, a, b, c, x[k + 5], 12, 0x4787C62A);
    c := FF(c, d, a, b, x[k + 6], 17, 0xA8304613);
    b := FF(b, c, d, a, x[k + 7], 22, 0xFD469501);
    FFSteps(m, x[k..k + 16], 4);
    assert Buffer(a, b, c, d) == Steps(m, x[k..k + 16], 8);
    a := FF(a, b, c, d, x[k + 8], 7, 0x698098D8);
    d := FF(d, a, b, c, x[k + 9], 12, 0x8B44F7AF);
    c := FF(c, d, a, b, x[k + 10], 17, 0xFFFF5BB1);
    b := FF(b, c, d, a, x[k + 11], 22, 0x895CD7BE);
    FFSteps(m, x[k..k + 16], 8);
    assert Buffer(a, b, c, d) == Steps(m, x[k..k + 16], 12);
    a := FF(a, b, c, d, x[k + 12], 7, 0x6B901122);
    d := FF(d, a, b, c, x[k + 13], 12, 0xFD987193);
    c := FF(c, d, a, b, x[k + 14], 17, 0xA679438E);
    b := FF(b, c, d, a, x[k + 15], 22, 0x49B40821);
    FFSteps(m, x[k..k + 16], 12);
    assert Buffer(a, b, c, d) == Steps(m, x[k..k + 16], 16);
  }

  method Round2(x: seq<Word>, k: nat, a0: Word, b0: Word, c0: Word, d0: Word, ghost m: Buffer)
    returns (a: Word, b: Word, c: Word, d: Word)
    requires k + 16 <= |x| && Buffer(a0, b0, c0, d0) == Steps(m, x[k..k + 16], 16)
    ensures Buffer(a, b, c, d) == Steps(m, x[k..k + 16], 32)
  {
    hide FF, GG, HH, II, Steps, Index, T;
    Entries2();
    Table2a();
    Table2b();
    a, b, c, d := a0, b0, c0, d0;
    a := GG(a, b, c, d, x[k + 1], 5, 0xF61E2562);
    d := GG(d, a, b, c, x[k + 6], 9, 0xC040B340);
    c := GG(c, d, a, b, x[k + 11], 14, 0x265E5A51);
    b := GG(b, c, d, a, x[k + 0], 20, 0xE9B6C7AA);
    GGSteps(m, x[k..k + 16], 16);
    assert Buffer(a, b, c, d) == Steps(m, x[k..k + 16], 20);
    a := GG(a, b, c, d, x[k + 5], 5, 0xD62F105D);
    d := GG(d, a, b, c, x[k + 10], 9, 0x2441453);
    c := GG(c, d, a, b, x[k + 15], 14, 0xD8A1E681);
    b := GG(b, c, d, a, x[k + 4], 20, 0xE7D3FBC8);
    GGSteps(m, x[k..k + 16], 20);
    assert Buffer(a, b, c, d) == Steps(m, x[k..k + 16], 24);
    a := GG(a, b, c, d, x[k + 9], 5, 0x21E1CDE6);
    d := GG(d, a, b, c, x[k + 14], 9, 0xC33707D6);
    c := GG(c, d, a, b, x[k + 3], 14, 0xF4D50D87);
    b := GG(b, c, d, a, x[k + 8], 20, 0x455A14ED);
    GGSteps(m, x[k..k + 16], 24);
    assert Buffer(a, b, c, d) == Steps(m, x[k..k + 16], 28);
    a := GG(a, b, c, d, x[k + 13], 5, 0xA9E3E905);
    d := GG(d, a, b, c, x[k + 2], 9, 0xFCEFA3F8);
    c := GG(c, d, a, b, x[k + 7], 14, 0x676F02D9);
    b := GG(b, c, d, a, x[k + 12], 20, 0x8D2A4C8A);
    GGSteps(m, x[k..k + 16], 28);
    assert Buffer(a, b, c, d) == Steps(m, x[k..k + 16], 32);
  }

  method Round3(x: seq<Word>, k: nat, a0: Word, b0: Word, c0: Word, d0: Word, ghost m: Buffer)
    returns (a: Word, b: Word, c: Word, d: Word)
    requires k + 16 <= |x| && Buffer(a0, b0, c0, d0) == Steps(m, x[k..k + 16], 32)
    ensures Buffer(a, b, c, d) == Steps(m, x[k..k + 16], 48)
  {
    hide FF, GG, HH, II, Steps, Index, T;
    Entries3();
    Table3a();
    Table3b();
    a, b, c, d := a0, b0, c0, d0;
    a := HH(a, b, c, d, x[k + 5], 4, 0xFFFA3942);
    d := HH(d, a, b, c, x[k + 8], 11, 0x8771F681);
    c := HH(c, d, a, b, x[k + 11], 16, 0x6D9D6122);
    b := HH(b, c, d, a, x[k + 14], 23, 0xFDE5380C);
    HHSteps(m, x[k..k + 16], 32);
    assert Buffer(a, b, c, d) == Steps(m, x[k..k + 16], 36);
    a := HH(a, b, c, d, x[k + 1], 4, 0xA4BEEA44);
    d := HH(d, a, b, c, x[k + 4], 11, 0x4BDECFA9);
    c := HH(c, d, a, b, x[k + 7], 16, 0xF6BB4B60);
    b := HH(b, c, d, a, x[k + 10], 23, 0xBEBFBC70);
    HHSteps(m, x[k..k + 16], 36);
    assert Buffer(a, b, c, d) == Steps(m, x[k..k + 16], 40);
    a := HH(a, b, c, d, x[k + 13], 4, 0x289B7EC6);
    d := HH(d, a, b, c, x[k + 0], 11, 0xEAA127FA);
    c := HH(c, d, a, b, x[k + 3], 16, 0xD4EF3085);
    b := HH(b, c, d, a, x[k + 6], 23, 0x4881D05);
    HHSteps(m, x[k..k + 16], 40);
    assert Buffer(a, b, c, d) == Steps(m, x[k..k + 16], 44);
    a := HH(a, b, c, d, x[k + 9], 4, 0xD9D4D039);
    d := HH(d, a, b, c, x[k + 12], 11, 0xE6DB99E5);
    c := HH(c, d, a, b, x[k + 15], 16, 0x1FA27CF8);
    b := HH(b, c, d, a, x[k + 2], 23, 0xC4AC5665);
    HHSteps(m, x[k..k + 16], 44);
    assert Buffer(a, b, c, d) == Steps(m, x[k..k + 16], 48);
  }

  method Round4(x: seq<Word>, k: nat, a0: Word, b0: Word, c0: Word, d0: Word, ghost m: Buffer)
    returns (a: Word, b: Word, c: Word, d: Word)
    requires k + 16 <= |x| && Buffer(a0, b0, c0, d0) == Steps(m, x[k..k + 16], 48)
    ensures Buffer(a, b, c, d) == Steps(m, x[k..k + 16], 64)
  {
    hide FF, GG, HH, II, Steps, Index, T;
    Entries4();
    Table4a();
    Table4b();
    a, b, c, d := a0, b0, c0, d0;
    a := II(a, b, c, d, x[k + 0], 6, 0xF4292244);
    d := II(d, a, b, c, x[k + 7], 10, 0x432AFF97);
    c := II(c, d, a, b, x[k + 14], 15, 0xAB9423A7);
    b := II(b, c, d, a, x[k + 5], 21, 0xFC93A039);
    IISteps(m, x[k..k + 16], 48);
    assert Buffer(a, b, c, d) == Steps(m, x[k..k + 16], 52);
    a := II(a, b, c, d, x[k + 12], 6, 0x655B59C3);
    d := II(d, a, b, c, x[k + 3], 10, 0x8F0CCC92);
    c := II(c, d, a, b, x[k + 10], 15, 0xFFEFF47D);
    b := II(b, c, d, a, x[k + 1], 21, 0x85845DD1);
    IISteps(m, x[k..k + 16], 52);
    assert Buffer(a, b, c, d) == Steps(m, x[k..k + 16], 56);
    a := II(a, b, c, d, x[k + 8], 6, 0x6FA87E4F);
    d := II(d, a, b, c, x[k + 15], 10, 0xFE2CE6E0);
    c := II(c, d, a, b, x[k + 6], 15, 0xA3014314);
    b := II(b, c, d, a, x[k + 13], 21, 0x4E0811A1);
    IISteps(m, x[k..k + 16], 56);
    assert Buffer(a, b, c, d) == Steps(m, x[k..k + 16], 60);
    a := II(a, b, c, d, x[k + 4], 6, 0xF7537E82);
    d := II(d, a, b, c, x[k + 11], 10, 0xBD3AF235);
    c := II(c, d, a, b, x[k + 2], 15, 0x2AD7D2BB);
    b := II(b, c, d, a, x[k + 9], 21, 0xEB86D391);
    IISteps(m, x[k..k + 16], 60);
    assert Buffer(a, b, c, d) == Steps(m, x[k..k + 16], 64);
  }

  // ----- RFC 1321 sections 3.1 and 3.2: padding

  function ByteAt(s: seq<Byte>, k: nat): Byte { if k < |s| then s[k] else 0 }

  /** A word is four bytes, the low-order byte first; bytes past the end are zero. */
  function WordOf(a: Byte, b: Byte, c: Byte, d: Byte): Word {
    (a as Word) | (b as Word << 8) | (c as Word << 16) | (d as Word << 24)
  }

  function WordAt(s: seq<Byte>, w: nat): Word {
    WordOf(ByteAt(s, 4 * w), ByteAt(s, 4 * w + 1), ByteAt(s, 4 * w + 2), ByteAt(s, 4 * w + 3))
  }

  /** How many zero bytes follow the byte 0x80: as few as make the length 56 modulo 64. */
  function ZeroBytes(n: nat): (k: nat)
    ensures k < 64 && (n + 1 + k) % 64 == 56
  {
    (119 - n % 64) % 64
  }

  function Zeros(k: nat): (z: seq<Byte>)
    ensures |z| == k && forall i :: 0 <= i < k ==> z[i] == 0
  {
    if k == 0 then [] else Zeros(k - 1) + [0]
  }

  /** The message, a one bit, and zero bits. */
  function PaddedBytes(msg: seq<Byte>): seq<Byte> { msg + [0x80] + Zeros(ZeroBytes(|msg|)) }

  /** The number of bits of `n` bytes, in 64 bits. */
  function BitLength(n: Word): bv64 { (n as bv64) << 3 }

  /** The length of a message as a number. */
  function Length(msg: seq<Byte>): Word
    requires |msg| < TWO_32
  {
    |msg| as Word
  }

  function LowWord(n: bv64): Word { (n & 0xFFFF_FFFF) as Word }

  function HighWord(n: bv64): Word { (n >> 32) as Word }

  const TWO_32: nat := 0x1_0000_0000

  function Words(s: seq<Byte>, n: nat): (r: seq<Word>)
    ensures |r| == n && forall w :: 0 <= w < n ==> r[w] == WordAt(s, w)
  {
    if n == 0 then [] else Words(s, n - 1) + [WordAt(s, n - 1)]
  }

  /** The padded message with its length, as words. */
  function PaddedWords(msg: seq<Byte>): seq<Word>
    requires |msg| < TWO_32
  {
    var s := PaddedBytes(msg);
    Words(s, |s| / 4) + [LowWord(BitLength(Length(msg))), HighWord(BitLength(Length(msg)))]
  }

  lemma LengthWords(n: Word)
    ensures n << 3 == LowWord(BitLength(n)) && n >> 29 == HighWord(BitLength(n))
  {
  }

  /** What the loop adds to a word. */
  function Placed(b: Byte, position: nat): Word
    requires position < 32
  {
    (b as Word) << position
  }

  lemma PlacedLiterals(b: Byte)
    ensures Placed(b, 0) == b as Word && Placed(b, 8) == b as Word << 8 && Placed(b, 16) == b as Word << 16
    ensures Placed(b, 24) == b as Word << 24
  {
  }

  lemma FewBytes(a: Byte, b: Byte, c: Byte)
    ensures WordOf(0, 0, 0, 0) == 0 && WordOf(a, 0, 0, 0) == a as Word
    ensures WordOf(a, b, 0, 0) == a as Word | (b as Word << 8)
    ensures WordOf(a, b, c, 0) == a as Word | (b as Word << 8) | (c as Word << 16)
  {
  }

  function Or(x: Word, y: Word): Word { x | y }

  lemma OrFirst(a: Byte)
    ensures Or(WordOf(0, 0, 0, 0), Placed(a, 0)) == WordOf(a, 0, 0, 0)
  {
    FewBytes(a, 0, 0);
    PlacedLiterals(a);
    hide WordOf, Placed;
  }

  lemma OrSecond(a: Byte, b: Byte)
    ensures Or(WordOf(a, 0, 0, 0), Placed(b, 8)) == WordOf(a, b, 0, 0)
  {
    FewBytes(a, b, 0);
    PlacedLiterals(b);
    hide WordOf, Placed;
  }

  lemma OrThird(a: Byte, b: Byte, c: Byte)
    ensures Or(WordOf(a, b, 0, 0), Placed(c, 16)) == WordOf(a, b, c, 0)
  {
    FewBytes(a, b, c);
    PlacedLiterals(c);
    hide WordOf, Placed;
  }

  lemma OrFourth(a: Byte, b: Byte, c: Byte, d: Byte)
    ensures Or(WordOf(a, b, c, 0), Placed(d, 24)) == WordOf(a, b, c, d)
  {
    FewBytes(a, b, c);
    PlacedLiterals(d);
    hide Placed;
  }

  lemma ByteSnoc(s: seq<Byte>, b: Byte, k: nat)
    ensures ByteAt(s + [b], k) == if k == |s| then b else ByteAt(s, k)
    ensures k >= |s| ==> ByteAt(s, k) == 0
  {
  }

  /** One more byte changes one word. */
  lemma NextByte(s: seq<Byte>, b: Byte, w: nat)
    ensures WordAt(s + [b], w) == if w == |s| / 4 then Or(WordAt(s, w), Placed(b, |s| % 4 * 8)) else WordAt(s, w)
  {
    hide WordOf, Placed, ByteAt, Or;
    ByteSnoc(s, b, 4 * w);
    ByteSnoc(s, b, 4 * w + 1);
    ByteSnoc(s, b, 4 * w + 2);
    ByteSnoc(s, b, 4 * w + 3);
    var x, y, z := ByteAt(s, 4 * w), ByteAt(s, 4 * w + 1), ByteAt(s, 4 * w + 2);
    OrFirst(b);
    OrSecond(x, b);
    OrThird(x, y, b);
    OrFourth(x, y, z, b);
  }

  lemma ZerosAreHoles(s: seq<Byte>, k: nat, w: nat)
    ensures WordAt(s + Zeros(k), w) == WordAt(s, w)
  {
    hide WordOf;
    assert forall i: nat :: ByteAt(s + Zeros(k), i) == ByteAt(s, i);
  }

  lemma NoBytes(w: nat)
    ensures WordAt([], w) == 0
  {
  }

  lemma WordCount(n: nat)
    ensures ((n + 8 - (n + 8) % 64) / 64 + 1) * 16 == (n + 1 + ZeroBytes(n)) / 4 + 2
    ensures n / 4 < (n + 1 + ZeroBytes(n)) / 4
  {
    var q, r := n / 64, n % 64;
    var k := ZeroBytes(n);
    hide ZeroBytes;
    assert k == if r < 56 then 55 - r else 119 - r;
    SixtyFours(q, r);
  }

  lemma SixtyFours(q: nat, r: nat)
    requires r < 64
    ensures var n, k := 64 * q + r, if r < 56 then 55 - r else 119 - r;
            ((n + 8 - (n + 8) % 64) / 64 + 1) * 16 == (n + 1 + k) / 4 + 2 && n / 4 < (n + 1 + k) / 4
  {
    var n := 64 * q + r;
    if r < 56 {
      assert (n + 8) % 64 == r + 8 && (n + 1 + (55 - r)) / 4 == 16 * q + 14;
    } else {
      assert (n + 8) % 64 == r - 56 && (n + 1 + (119 - r)) / 4 == 16 * q + 30;
    }
  }

  /** The loop of convertToWordArray, and the byte 0x80. */
  method PlaceBytes(msg: seq<Byte>, count: nat) returns (words: array<Word>)
    requires |msg| / 4 < count
    ensures fresh(words) && words.Length == count
    ensures forall w :: 0 <= w < count ==> words[w] == WordAt(PaddedBytes(msg), w)
  {
    hide WordAt, Placed, ZeroBytes, Or;
    var length := |msg|;
    words := new Word[count](i => 0);
    var i := 0;
    assert msg[..0] == [];
    forall w | 0 <= w < count
      ensures words[w] == WordAt(msg[..0], w)
    {
      NoBytes(w);
    }
    while i < length
      invariant 0 <= i <= length && fresh(words) && words.Length == count
      invariant forall w :: 0 <= w < count ==> words[w] == WordAt(msg[..i], w)
    {
      var word := (i - i % 4) / 4;
      assert word == i / 4;
      var position := i % 4 * 8;
      assert msg[..i + 1] == msg[..i] + [msg[i]];
      forall w | 0 <= w < count
        ensures WordAt(msg[..i + 1], w)
             == if w == i / 4 then Or(WordAt(msg[..i], w), Placed(msg[i], position)) else WordAt(msg[..i], w)
      {
        NextByte(msg[..i], msg[i], w);
      }
      words[word] := Or(words[word], Placed(msg[i], position));
      i := i + 1;
    }
    assert msg[..i] == msg;
    var word := (i - i % 4) / 4;
    assert word == i / 4;
    var position := i % 4 * 8;
    words[word] := Or(words[word], Placed(0x80, position));
    forall w | 0 <= w < count
      ensures words[w] == WordAt(PaddedBytes(msg), w)
    {
      NextByte(msg, 0x80, w);
      ZerosAreHoles(msg + [0x80], ZeroBytes(length), w);
    }
  }

  /** convertToWordArray. */
  method ConvertToWordArray(msg: seq<Byte>) returns (words: array<Word>)
    requires |msg| < TWO_32
    ensures fresh(words) && words[..] == PaddedWords(msg)
  {
    hide WordAt, ZeroBytes, LowWord, HighWord, BitLength, Length;
    var length := |msg|;
    var temp1 := length + 8;
    var temp2 := (temp1 - temp1 % 64) / 64;
    var count := (temp2 + 1) * 16;
    WordCount(length);
    words := PlaceBytes(msg, count);
    var low, high := Lengths(Length(msg));
    Finish(words, low, high, msg);
  }

  /** The length in bits, from 32-bit shifts. */
  method Lengths(n: Word) returns (low: Word, high: Word)
    ensures low == LowWord(BitLength(n)) && high == HighWord(BitLength(n))
  {
    LengthWords(n);
    low, high := n << 3, n >> 29;
  }

  method Finish(words: array<Word>, low: Word, high: Word, ghost msg: seq<Byte>)
    requires |msg| < TWO_32 && words.Length == |PaddedBytes(msg)| / 4 + 2
    requires forall w :: 0 <= w < words.Length ==> words[w] == WordAt(PaddedBytes(msg), w)
    requires low == LowWord(BitLength(Length(msg))) && high == HighWord(BitLength(Length(msg)))
    modifies words
    ensures words[..] == PaddedWords(msg)
  {
    hide WordAt, LowWord, HighWord, BitLength, PaddedBytes, Length;
    words[words.Length - 2] := low;
    words[words.Length - 1] := high;
    Assemble(msg, words[..]);
  }

  lemma Assemble(msg: seq<Byte>, all: seq<Word>)
    requires |msg| < TWO_32 && |all| == |PaddedBytes(msg)| / 4 + 2
    requires forall w :: 0 <= w < |all| - 2 ==> all[w] == WordAt(PaddedBytes(msg), w)
    requires all[|all| - 2] == LowWord(BitLength(Length(msg))) && all[|all| - 1] == HighWord(BitLength(Length(msg)))
    ensures all == PaddedWords(msg)
  {
    hide WordAt, LowWord, HighWord, BitLength, PaddedBytes, Length;
  }

  // ----- RFC 1321 section 3.5: the digest

  /** Byte `i` of a word, the low-order one first. */
  function ByteOf(w: Word, i: nat): (n: nat)
    requires i < 4
    ensures n < 256
  {
    ((w >> (8 * i)) & 255) as nat
  }

  function ByteText(n: nat): string
    requires n < 256
  {
    [HexDigit(n / 16), HexDigit(n % 16)]
  }

  function WordText(w: Word): string {
    ByteText(ByteOf(w, 0)) + ByteText(ByteOf(w, 1)) + ByteText(ByteOf(w, 2)) + ByteText(ByteOf(w, 3))
  }

  function Digest(msg: seq<Byte>): string
    requires |msg| < TWO_32
  {
    var x := PaddedWords(msg);
    var m := Blocks(x, |x| / 16);
    WordText(m.a) + WordText(m.b) + WordText(m.c) + WordText(m.d)
  }

  lemma TwoDigits(n: nat)
    requires n < 256
    ensures var t := "0" + Hex(n); t[|t| - 2..] == ByteText(n)
  {
    hide HexDigit, Hex, ByteText;
    if n < 16 { OneDigit(n); } else { ManyDigits(n); }
  }

  lemma OneDigit(n: nat)
    requires n < 16
    ensures var t := "0" + Hex(n); t[|t| - 2..] == ByteText(n)
  {
    hide HexDigit, Hex;
    HexOne(n);
    assert HexDigit(0) == '0' by { ZeroDigit(); }
    LastTwo([], '0', HexDigit(n));
    assert "0" + [HexDigit(n)] == [] + ['0'] + [HexDigit(n)];
  }

  lemma ManyDigits(n: nat)
    requires 16 <= n < 256
    ensures var t := "0" + Hex(n); t[|t| - 2..] == ByteText(n)
  {
    hide HexDigit, Hex;
    var h, l := n / 16, n % 16;
    HexTwo(n);
    HexOne(h);
    LastTwo("0", HexDigit(h), HexDigit(l));
    assert "0" + ([HexDigit(h)] + [HexDigit(l)]) == "0" + [HexDigit(h)] + [HexDigit(l)];
  }

  lemma ZeroDigit()
    ensures HexDigit(0) == '0'
  {
  }

  lemma HexOne(n: nat)
    requires n < 16
    ensures Hex(n) == [HexDigit(n)] && n % 16 == n && n / 16 == 0
  {
    hide HexDigit;
  }

  lemma HexTwo(n: nat)
    requires n >= 16
    ensures Hex(n) == Hex(n / 16) + [HexDigit(n % 16)]
  {
    hide HexDigit;
  }

  lemma LastTwo(s: string, a: char, b: char)
    ensures (s + [a] + [b])[|s + [a] + [b]| - 2..] == [a, b]
  {
  }

  /** wordToHex. */
  method WordToHex(value: Word) returns (text: string)
    ensures text == WordText(value)
  {
    hide ByteOf, ByteText, Hex;
    text := "";
    for count := 0 to 4
      invariant text == (if count > 0 then ByteText(ByteOf(value, 0)) else [])
                        + (if count > 1 then ByteText(ByteOf(value, 1)) else [])
                        + (if count > 2 then ByteText(ByteOf(value, 2)) else [])
                        + (if count > 3 then ByteText(ByteOf(value, 3)) else [])
    {
      var byte := ByteOf(value, count);
      var temp := "0" + Hex(byte);
      TwoDigits(byte);
      text := text + temp[|temp| - 2..];
    }
  }

  lemma BlockIs(x: seq<Word>, n: nat)
    requires 16 * n + 16 <= |x|
    ensures Blocks(x, n + 1) == Block(Blocks(x, n), x[16 * n..16 * n + 16])
  {
    hide Block;
  }

  lemma AddBuffersIs(m: Buffer, n: Buffer)
    ensures AddBuffers(m, n)
         == Buffer(AddUnsigned(m.a, n.a), AddUnsigned(m.b, n.b), AddUnsigned(m.c, n.c), AddUnsigned(m.d, n.d))
  {
    hide AddUnsigned, Plus;
    AddIsPlus(m.a, n.a);
    AddIsPlus(m.b, n.b);
    AddIsPlus(m.c, n.c);
    AddIsPlus(m.d, n.d);
  }

  lemma StepsNone(m: Buffer, x: seq<Word>)
    requires |x| == 16
    ensures Steps(m, x, 0) == m
  {
  }

  lemma WholeBlocks(msg: seq<Byte>)
    requires |msg| < TWO_32
    ensures |PaddedWords(msg)| % 16 == 0
  {
    hide ZeroBytes, LowWord, HighWord, BitLength, WordAt;
    var n := |PaddedBytes(msg)|;
    assert n % 64 == 56;
    Sixteens(n);
  }

  lemma Sixteens(n: nat)
    requires n % 64 == 56
    ensures (n / 4 + 2) % 16 == 0
  {
    var q := n / 64;
    assert n == 64 * q + 56;
    assert n / 4 == 16 * q + 14;
    assert n / 4 + 2 == 16 * (q + 1);
  }

  /** md5 of a byte string of any length below 2^32: the digest of RFC 1321. */
  method Md5(msg: seq<Byte>) returns (text: string)
    requires |msg| < TWO_32
    ensures text == Digest(msg)
  {
    hide Steps, AddUnsigned, AddBuffers, PaddedWords, WordText, Blocks;
    var words := ConvertToWordArray(msg);
    var x := words[..];
    WholeBlocks(msg);
    var a, b, c, d: Word := 0x67452301, 0xEFCDAB89, 0x98BADCFE, 0x10325476;
    assert Blocks(x, 0) == START by { NoBlocks(x); }
    var k := 0;
    while k < |x|
      invariant k <= |x| && k % 16 == 0 && Buffer(a, b, c, d) == Blocks(x, k / 16)
    {
      var aa, bb, cc, dd := a, b, c, d;
      ghost var m := Buffer(a, b, c, d);
      StepsNone(m, x[k..k + 16]);
      a, b, c, d := Round1(x, k, a, b, c, d, m);
      a, b, c, d := Round2(x, k, a, b, c, d, m);
      a, b, c, d := Round3(x, k, a, b, c, d, m);
      a, b, c, d := Round4(x, k, a, b, c, d, m);
      AddBuffersIs(Buffer(a, b, c, d), m);
      a := AddUnsigned(a, aa);
      b := AddUnsigned(b, bb);
      c := AddUnsigned(c, cc);
      d := AddUnsigned(d, dd);
      BlockIs(x, k / 16);
      assert 16 * (k / 16) == k;
      k := k + 16;
    }
    var at := WordToHex(a);
    var bt := WordToHex(b);
    var ct := WordToHex(c);
    var dt := WordToHex(d);
    text := at + bt + ct + dt;
  }

  lemma NoBlocks(x: seq<Word>)
    ensures Blocks(x, 0) == START
  {
  }
}
