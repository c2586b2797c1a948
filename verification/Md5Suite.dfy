/** The digest of the alphabet in the test suite of RFC 1321, section A.5: it pins every constant of the definition. */
module Md5Suite {
  import opened Bytes
  import opened Md5

  /** "abcdefghijklmnopqrstuvwxyz" */
  const ALPHABET: seq<Byte> :=
    [0x61, 0x62, 0x63, 0x64, 0x65, 0x66, 0x67, 0x68, 0x69, 0x6a, 0x6b, 0x6c, 0x6d,
     0x6e, 0x6f, 0x70, 0x71, 0x72, 0x73, 0x74, 0x75, 0x76, 0x77, 0x78, 0x79, 0x7a]

  /** Its block: the message, a one bit, zeros, and the length of 208 bits. */
  predicate IsBlock(x: seq<Word>) {
    && |x| == 16
    && x[0] == 0x64636261 && x[1] == 0x68676665 && x[2] == 0x6c6b6a69 && x[3] == 0x706f6e6d
    && x[4] == 0x74737271 && x[5] == 0x78777675 && x[6] == 0x00807a79
    && x[7] == x[8] == x[9] == x[10] == x[11] == x[12] == x[13] == x[15] == 0 && x[14] == 208
  }

  /** Step `i` from the letters `a`, `b`, `c`, `d`: `f` is the value of the auxiliary function, `sum` what is rotated,
      and `v` the new letter. */
  lemma Row(x: seq<Word>, i: nat, a: Word, b: Word, c: Word, d: Word, f: Word, sum: Word, v: Word)
    requires |x| == 16 && i < 64 && Steps(START, x, i) == Buffer(a, b, c, d)
    requires Auxiliary(i, b, c, d) == f && Plus(a, Plus(Plus(f, x[Index(i)]), T(i))) == sum
    requires Plus(Rotated(sum, Shift(i)), b) == v
    ensures Steps(START, x, i + 1) == Buffer(d, v, b, c)
  {
    hide T, Auxiliary, Index, Shift, Plus, Rotated;
  }

  lemma Rows0(x: seq<Word>)
    requires IsBlock(x) && Steps(START, x, 0) == Buffer(0x67452301, 0xefcdab89, 0x98badcfe, 0x10325476)
    ensures Steps(START, x, 4) == Buffer(0xd6d117a6, 0x4503b812, 0x227d8cf1, 0xaab1aaaa)
  {
    hide Steps;
    Row(x, 0, 0x67452301, 0xefcdab89, 0x98badcfe, 0x10325476, 0x98badcfe, 0x3bce06d8, 0xd6d117a6);
    Row(x, 1, 0x10325476, 0xd6d117a6, 0xefcdab89, 0x98badcfe, 0xceebcbd8, 0x304d3e09, 0xaab1aaaa);
    Row(x, 2, 0x98badcfe, 0xaab1aaaa, 0xd6d117a6, 0xefcdab89, 0xc7dd03a3, 0xf123bbe5, 0x227d8cf1);
    Row(x, 3, 0xefcdab89, 0x227d8cf1, 0xaab1aaaa, 0xd6d117a6, 0xf6b19ba6, 0x18ac848a, 0x4503b812);
  }

  lemma Rows4(x: seq<Word>)
    requires IsBlock(x) && Steps(START, x, 4) == Buffer(0xd6d117a6, 0x4503b812, 0x227d8cf1, 0xaab1aaaa)
    ensures Steps(START, x, 8) == Buffer(0xfe15f787, 0xda9bbb0d, 0xb71122fc, 0xa811b278)
  {
    hide Steps;
    Row(x, 4, 0xd6d117a6, 0x4503b812, 0x227d8cf1, 0xaab1aaaa, 0xaab18ab8, 0xeb72247e, 0xfe15f787);
    Row(x, 5, 0xaab1aaaa, 0xfe15f787, 0x4503b812, 0x227d8cf1, 0x4469b872, 0xaf1a9fbb, 0xa811b278);
    Row(x, 6, 0x227d8cf1, 0xa811b278, 0xfe15f787, 0x4503b812, 0xed13ba02, 0xb842077f, 0xb71122fc);
    Row(x, 7, 0x4503b812, 0xb71122fc, 0xa811b278, 0xfe15f787, 0xe815f77b, 0x2a60448e, 0xda9bbb0d);
  }

  lemma Rows8(x: seq<Word>)
    requires IsBlock(x) && Steps(START, x, 8) == Buffer(0xfe15f787, 0xda9bbb0d, 0xb71122fc, 0xa811b278)
    ensures Steps(START, x, 12) == Buffer(0xae752899, 0x56cfa5cb, 0x7d4bd80b, 0x2bbe757f)
  {
    hide Steps;
    Row(x, 8, 0xfe15f787, 0xda9bbb0d, 0xb71122fc, 0xa811b278, 0xb211227c, 0x19a7b2db, 0xae752899);
    Row(x, 9, 0xa811b278, 0xae752899, 0xda9bbb0d, 0xb71122fc, 0x9b112a6d, 0xce67d494, 0x2bbe757f);
    Row(x, 10, 0xb71122fc, 0x2bbe757f, 0xae752899, 0xda9bbb0d, 0xfa35aa19, 0xb14628c6, 0x7d4bd80b);
    Row(x, 11, 0xda9bbb0d, 0x7d4bd80b, 0x2bbe757f, 0xae752899, 0xab3e709b, 0x0f370366, 0x56cfa5cb);
  }

  lemma Rows12(x: seq<Word>)
    requires IsBlock(x) && Steps(START, x, 12) == Buffer(0xae752899, 0x56cfa5cb, 0x7d4bd80b, 0x2bbe757f)
    ensures Steps(START, x, 16) == Buffer(0x1754a316, 0x608d6b7e, 0x00df74d5, 0x85567d90)
  {
    hide Steps;
    Row(x, 12, 0xae752899, 0x56cfa5cb, 0x7d4bd80b, 0x2bbe757f, 0x7d7bd03f, 0x978109fa, 0x1754a316);
    Row(x, 13, 0x2bbe757f, 0x1754a316, 0x56cfa5cb, 0x7d4bd80b, 0x7e4ff90b, 0xa7a6e01d, 0x85567d90);
    Row(x, 14, 0x7d4bd80b, 0x85567d90, 0x1754a316, 0x56cfa5cb, 0x57dda15b, 0x7ba2bdc4, 0x00df74d5);
    Row(x, 15, 0x56cfa5cb, 0x00df74d5, 0x85567d90, 0x1754a316, 0x1756f792, 0xb7daa57e, 0x608d6b7e);
  }

  lemma Rows16(x: seq<Word>)
    requires IsBlock(x) && Steps(START, x, 16) == Buffer(0x1754a316, 0x608d6b7e, 0x00df74d5, 0x85567d90)
    ensures Steps(START, x, 20) == Buffer(0x2d8071cc, 0x4c2145b3, 0xedfe7e4b, 0x5dcee119)
  {
    hide Steps;
    Row(x, 16, 0x1754a316, 0x608d6b7e, 0x00df74d5, 0x85567d90, 0x008d6955, 0x76679832, 0x2d8071cc);
    Row(x, 17, 0x85567d90, 0x2d8071cc, 0x608d6b7e, 0x00df74d5, 0x60807bee, 0xa6982737, 0x5dcee119);
    Row(x, 18, 0x00df74d5, 0x5dcee119, 0x2d8071cc, 0x608d6b7e, 0x4d8c7198, 0x74ca40be, 0xedfe7e4b);
    Row(x, 19, 0x608d6b7e, 0xedfe7e4b, 0x5dcee119, 0x2d8071cc, 0x7dcef059, 0x2c7685e2, 0x4c2145b3);
  }

  lemma Rows20(x: seq<Word>)
    requires IsBlock(x) && Steps(START, x, 20) == Buffer(0x2d8071cc, 0x4c2145b3, 0xedfe7e4b, 0x5dcee119)
    ensures Steps(START, x, 24) == Buffer(0x570c43e0, 0xc9f162d4, 0xc28ab49d, 0x977efd2a)
  {
    hide Steps;
    Row(x, 20, 0x2d8071cc, 0x4c2145b3, 0xedfe7e4b, 0x5dcee119, 0xec305f53, 0x685757f1, 0x570c43e0);
    Row(x, 21, 0x5dcee119, 0x570c43e0, 0x4c2145b3, 0xedfe7e4b, 0x450d43f0, 0xa520395c, 0x977efd2a);
    Row(x, 22, 0xedfe7e4b, 0x977efd2a, 0x570c43e0, 0x4c2145b3, 0x172c4762, 0xddccac2e, 0xc28ab49d);
    Row(x, 23, 0x4c2145b3, 0xc28ab49d, 0x977efd2a, 0x570c43e0, 0xc27abc8a, 0x6ae37076, 0xc9f162d4);
  }

  lemma Rows24(x: seq<Word>)
    requires IsBlock(x) && Steps(START, x, 24) == Buffer(0x570c43e0, 0xc9f162d4, 0xc28ab49d, 0x977efd2a)
    ensures Steps(START, x, 28) == Buffer(0x25bfae3b, 0xe6d3b398, 0xf8c8365f, 0x89980104)
  {
    hide Steps;
    Row(x, 24, 0x570c43e0, 0xc9f162d4, 0xc28ab49d, 0x977efd2a, 0xc1f06095, 0x3ade725b, 0x25bfae3b);
    Row(x, 25, 0x977efd2a, 0x25bfae3b, 0xc9f162d4, 0xc28ab49d, 0x09fbe659, 0x64b1ec29, 0x89980104);
    Row(x, 26, 0xc28ab49d, 0x89980104, 0x25bfae3b, 0xc9f162d4, 0xad9e8c2f, 0xd56dbcc0, 0xf8c8365f);
    Row(x, 27, 0xc9f162d4, 0xf8c8365f, 0x89980104, 0x25bfae3b, 0xa888271f, 0xb7d39ee0, 0xe6d3b398);
  }

  lemma Rows28(x: seq<Word>)
    requires IsBlock(x) && Steps(START, x, 28) == Buffer(0x25bfae3b, 0xe6d3b398, 0xf8c8365f, 0x89980104)
    ensures Steps(START, x, 32) == Buffer(0xf54d8710, 0xaeb35766, 0x2e69afc7, 0x927b72e2)
  {
    hide Steps;
    Row(x, 28, 0x25bfae3b, 0xe6d3b398, 0xf8c8365f, 0x89980104, 0xf0d0375b, 0xc073ce9b, 0xf54d8710);
    Row(x, 29, 0x89980104, 0xf54d8710, 0xe6d3b398, 0xf8c8365f, 0xf65b8790, 0xe94e96f5, 0x927b72e2);
    Row(x, 30, 0xf8c8365f, 0x927b72e2, 0xf54d8710, 0xe6d3b398, 0x935f3680, 0xf3966fb8, 0x2e69afc7);
    Row(x, 31, 0xe6d3b398, 0x2e69afc7, 0x927b72e2, 0xf54d8710, 0x267bf7e2, 0x9a79f804, 0xaeb35766);
  }

  lemma Rows32(x: seq<Word>)
    requires IsBlock(x) && Steps(START, x, 32) == Buffer(0xf54d8710, 0xaeb35766, 0x2e69afc7, 0x927b72e2)
    ensures Steps(START, x, 36) == Buffer(0xb4bf680e, 0x06a5e211, 0x2361ed0a, 0x4c8ffa80)
  {
    hide Steps;
    Row(x, 32, 0xf54d8710, 0xaeb35766, 0x2e69afc7, 0x927b72e2, 0x12a18a43, 0x8060c10a, 0xb4bf680e);
    Row(x, 33, 0x927b72e2, 0xb4bf680e, 0xaeb35766, 0x2e69afc7, 0x346590af, 0x4e52fa12, 0x4c8ffa80);
    Row(x, 34, 0x2e69afc7, 0x4c8ffa80, 0xb4bf680e, 0xaeb35766, 0x5683c5e8, 0xf28ad6d1, 0x2361ed0a);
    Row(x, 35, 0xaeb35766, 0x2361ed0a, 0x4c8ffa80, 0xb4bf680e, 0xdb517f84, 0x87ea0fc6, 0x06a5e211);
  }

  lemma Rows36(x: seq<Word>)
    requires IsBlock(x) && Steps(START, x, 36) == Buffer(0xb4bf680e, 0x06a5e211, 0x2361ed0a, 0x4c8ffa80)
    ensures Steps(START, x, 40) == Buffer(0xb9c0c733, 0x8d41bf99, 0x23a9451b, 0xf1e6dc7a)
  {
    hide Steps;
    Row(x, 36, 0xb4bf680e, 0x06a5e211, 0x2361ed0a, 0x4c8ffa80, 0x694bf59b, 0x2b31ae52, 0xb9c0c733);
    Row(x, 37, 0x4c8ffa80, 0xb9c0c733, 0x06a5e211, 0x2361ed0a, 0x9c04c828, 0xa8e704c2, 0xf1e6dc7a);
    Row(x, 38, 0x2361ed0a, 0xf1e6dc7a, 0xb9c0c733, 0x06a5e211, 0x4e83f958, 0x68a131c2, 0x23a9451b);
    Row(x, 39, 0x06a5e211, 0x23a9451b, 0xf1e6dc7a, 0xb9c0c733, 0x6b8f5e52, 0x30f4fcd3, 0x8d41bf99);
  }

  lemma Rows40(x: seq<Word>)
    requires IsBlock(x) && Steps(START, x, 40) == Buffer(0xb9c0c733, 0x8d41bf99, 0x23a9451b, 0xf1e6dc7a)
    ensures Steps(START, x, 44) == Buffer(0xa3e88ead, 0x90a35af5, 0x66f6468d, 0x02c0b11c)
  {
    hide Steps;
    Row(x, 40, 0xb9c0c733, 0x8d41bf99, 0x23a9451b, 0xf1e6dc7a, 0x5f0e26f8, 0x416a6cf1, 0xa3e88ead);
    Row(x, 41, 0xf1e6dc7a, 0xa3e88ead, 0x8d41bf99, 0x23a9451b, 0x0d00742f, 0x4debdb04, 0x02c0b11c);
    Row(x, 42, 0x23a9451b, 0x02c0b11c, 0xa3e88ead, 0x8d41bf99, 0x2c698028, 0x95716435, 0x66f6468d);
    Row(x, 43, 0x8d41bf99, 0x66f6468d, 0x02c0b11c, 0xa3e88ead, 0xc7de793c, 0x5a28d053, 0x90a35af5);
  }

  lemma Rows44(x: seq<Word>)
    requires IsBlock(x) && Steps(START, x, 44) == Buffer(0xa3e88ead, 0x90a35af5, 0x66f6468d, 0x02c0b11c)
    ensures Steps(START, x, 48) == Buffer(0xb5d41f9c, 0x71d10367, 0x703d54d8, 0xa04b4904)
  {
    hide Steps;
    Row(x, 44, 0xa3e88ead, 0x90a35af5, 0x66f6468d, 0x02c0b11c, 0xf495ad64, 0x72530c4a, 0xb5d41f9c);
    Row(x, 45, 0x02c0b11c, 0xb5d41f9c, 0x90a35af5, 0x66f6468d, 0x438103e4, 0x2d1d4ee5, 0xa04b4904);
    Row(x, 46, 0x66f6468d, 0xa04b4904, 0xb5d41f9c, 0x90a35af5, 0x853c0c6d, 0x0bd4cff2, 0x703d54d8);
    Row(x, 47, 0x90a35af5, 0x703d54d8, 0xa04b4904, 0xb5d41f9c, 0x65a20240, 0x275d1e03, 0x71d10367);
  }

  lemma Rows48(x: seq<Word>)
    requires IsBlock(x) && Steps(START, x, 48) == Buffer(0xb5d41f9c, 0x71d10367, 0x703d54d8, 0xa04b4904)
    ensures Steps(START, x, 52) == Buffer(0xfc32dd6e, 0x33edb197, 0xb35602cb, 0x65456b34)
  {
    hide Steps;
    Row(x, 48, 0xb5d41f9c, 0x71d10367, 0x703d54d8, 0xa04b4904, 0x0fc8e327, 0x1e298768, 0xfc32dd6e);
    Row(x, 49, 0xa04b4904, 0xfc32dd6e, 0x71d10367, 0x703d54d8, 0x8e23fc08, 0x719a44a3, 0x65456b34);
    Row(x, 50, 0x703d54d8, 0x65456b34, 0xfc32dd6e, 0x71d10367, 0x135d22d2, 0x2f2e9c21, 0xb35602cb);
    Row(x, 51, 0x71d10367, 0xb35602cb, 0x65456b34, 0xfc32dd6e, 0xd69a49ef, 0xbd766404, 0x33edb197);
  }

  lemma Rows52(x: seq<Word>)
    requires IsBlock(x) && Steps(START, x, 52) == Buffer(0xfc32dd6e, 0x33edb197, 0xb35602cb, 0x65456b34)
    ensures Steps(START, x, 56) == Buffer(0xc1e942f1, 0x83877d1b, 0x23a68048, 0xd9bb987c)
  {
    hide Steps;
    Row(x, 52, 0xfc32dd6e, 0x33edb197, 0xb35602cb, 0x65456b34, 0x08a9b714, 0x6a37ee45, 0xc1e942f1);
    Row(x, 53, 0x65456b34, 0xc1e942f1, 0x33edb197, 0xb35602cb, 0xfe044e62, 0x62c5f495, 0xd9bb987c);
    Row(x, 54, 0xb35602cb, 0xd9bb987c, 0xc1e942f1, 0x33edb197, 0x1c529c8d, 0xcf9893d5, 0x23a68048);
    Row(x, 55, 0x33edb197, 0x23a68048, 0xd9bb987c, 0xc1e942f1, 0xe60d2532, 0x07e69aff, 0x83877d1b);
  }

  lemma Rows56(x: seq<Word>)
    requires IsBlock(x) && Steps(START, x, 56) == Buffer(0xc1e942f1, 0x83877d1b, 0x23a68048, 0xd9bb987c)
    ensures Steps(START, x, 60) == Buffer(0x0077c208, 0x5e6bc930, 0xa3e2247f, 0x847fc2e7)
  {
    hide Steps;
    Row(x, 56, 0xc1e942f1, 0x83877d1b, 0x23a68048, 0xd9bb987c, 0x8461ffd3, 0xb5f3c113, 0x0077c208);
    Row(x, 57, 0xd9bb987c, 0x0077c208, 0x83877d1b, 0x23a68048, 0x5ff882a4, 0x37e10200, 0x847fc2e7);
    Row(x, 58, 0x23a68048, 0x847fc2e7, 0x0077c208, 0x83877d1b, 0xfc0800ef, 0xc3303ec4, 0xa3e2247f);
    Row(x, 59, 0x83877d1b, 0xa3e2247f, 0x847fc2e7, 0x0077c208, 0x7b95ff18, 0x4d258dd4, 0x5e6bc930);
  }

  lemma Rows60(x: seq<Word>)
    requires IsBlock(x) && Steps(START, x, 60) == Buffer(0x0077c208, 0x5e6bc930, 0xa3e2247f, 0x847fc2e7)
    ensures Steps(START, x, 64) == Buffer(0x708ed9c2, 0x1116e6d8, 0xd38f1e7f, 0x2baf1354)
  {
    hide Steps;
    Row(x, 60, 0x0077c208, 0x5e6bc930, 0xa3e2247f, 0x847fc2e7, 0xdc09d947, 0x48488c42, 0x708ed9c2);
    Row(x, 61, 0x847fc2e7, 0x708ed9c2, 0x5e6bc930, 0xa3e2247f, 0x22f412f2, 0x64aec80e, 0x2baf1354);
    Row(x, 62, 0xa3e2247f, 0x2baf1354, 0x708ed9c2, 0x5e6bc930, 0xdb31ee1d, 0x16574fc0, 0xd38f1e7f);
    Row(x, 63, 0x5e6bc930, 0xd38f1e7f, 0x2baf1354, 0x708ed9c2, 0xf4502d2b, 0x3e42c9ec, 0x1116e6d8);
  }

  /** What the block makes of the first buffer. */
  lemma BlockIsThis(x: seq<Word>)
    requires IsBlock(x)
    ensures Block(START, x) == Buffer(0xd7d3fcc3, 0x00e49261, 0x6c49fb7d, 0x3be167ca)
  {
    StepsNone(START, x);
    hide IsBlock, Steps;
    Rows0(x);
    Rows4(x);
    Rows8(x);
    Rows12(x);
    Rows16(x);
    Rows20(x);
    Rows24(x);
    Rows28(x);
    Rows32(x);
    Rows36(x);
    Rows40(x);
    Rows44(x);
    Rows48(x);
    Rows52(x);
    Rows56(x);
    Rows60(x);
  }

  lemma WordsOf()
    ensures WordOf(0x61, 0x62, 0x63, 0x64) == 0x64636261 && WordOf(0x65, 0x66, 0x67, 0x68) == 0x68676665
    ensures WordOf(0x69, 0x6a, 0x6b, 0x6c) == 0x6c6b6a69 && WordOf(0x6d, 0x6e, 0x6f, 0x70) == 0x706f6e6d
    ensures WordOf(0x71, 0x72, 0x73, 0x74) == 0x74737271 && WordOf(0x75, 0x76, 0x77, 0x78) == 0x78777675
    ensures WordOf(0x79, 0x7a, 0x80, 0) == 0x00807a79 && WordOf(0, 0, 0, 0) == 0
  {
  }

  lemma LengthOf()
    ensures LowWord(BitLength(26)) == 208 && HighWord(BitLength(26)) == 0
  {
  }

  function At(k: nat): Byte { if k < 26 then ALPHABET[k] else if k == 26 then 0x80 else 0 }

  lemma BytesOf(k: nat)
    ensures ByteAt(PaddedBytes(ALPHABET), k) == At(k)
  {
    hide ZeroBytes;
  }

  lemma WordIs(w: nat)
    ensures WordAt(PaddedBytes(ALPHABET), w) == WordOf(At(4 * w), At(4 * w + 1), At(4 * w + 2), At(4 * w + 3))
  {
    hide ByteAt, At, PaddedBytes, WordOf;
    BytesOf(4 * w);
    BytesOf(4 * w + 1);
    BytesOf(4 * w + 2);
    BytesOf(4 * w + 3);
  }

  lemma LengthIs()
    ensures Length(ALPHABET) == 26
  {
    assert |ALPHABET| == 26;
  }

  lemma FourteenWords()
    ensures |PaddedBytes(ALPHABET)| == 56
  {
    ZerosAfter();
    hide ZeroBytes, Zeros;
    assert |ALPHABET| == 26;
  }

  lemma PaddedShape()
    ensures var x := PaddedWords(ALPHABET);
            |x| == 16 && x[14] == LowWord(BitLength(26)) && x[15] == HighWord(BitLength(26))
            && forall w :: 0 <= w < 14 ==> x[w] == WordAt(PaddedBytes(ALPHABET), w)
  {
    hide WordAt, LowWord, HighWord, BitLength, PaddedBytes, Length, Words;
    FourteenWords();
    LengthIs();
  }

  lemma ZerosAfter()
    ensures ZeroBytes(26) == 29
  {
  }

  lemma WordAtIs(w: nat, a: Byte, b: Byte, c: Byte, d: Byte, v: Word)
    requires At(4 * w) == a && At(4 * w + 1) == b && At(4 * w + 2) == c && At(4 * w + 3) == d && WordOf(a, b, c, d) == v
    ensures WordAt(PaddedBytes(ALPHABET), w) == v
  {
    hide At, WordOf, WordAt, PaddedBytes;
    WordIs(w);
  }

  /** The letters of the first seven words; the others are zero. */
  lemma WordsToH()
    ensures WordAt(PaddedBytes(ALPHABET), 0) == 0x64636261 && WordAt(PaddedBytes(ALPHABET), 1) == 0x68676665
  {
    WordsOf();
    hide WordOf, WordAt, PaddedBytes;
    WordAtIs(0, 0x61, 0x62, 0x63, 0x64, 0x64636261);
    WordAtIs(1, 0x65, 0x66, 0x67, 0x68, 0x68676665);
  }

  lemma WordsToP()
    ensures WordAt(PaddedBytes(ALPHABET), 2) == 0x6c6b6a69 && WordAt(PaddedBytes(ALPHABET), 3) == 0x706f6e6d
  {
    WordsOf();
    hide WordOf, WordAt, PaddedBytes;
    WordAtIs(2, 0x69, 0x6a, 0x6b, 0x6c, 0x6c6b6a69);
    WordAtIs(3, 0x6d, 0x6e, 0x6f, 0x70, 0x706f6e6d);
  }

  lemma WordsToX()
    ensures WordAt(PaddedBytes(ALPHABET), 4) == 0x74737271 && WordAt(PaddedBytes(ALPHABET), 5) == 0x78777675
  {
    WordsOf();
    hide WordOf, WordAt, PaddedBytes;
    WordAtIs(4, 0x71, 0x72, 0x73, 0x74, 0x74737271);
    WordAtIs(5, 0x75, 0x76, 0x77, 0x78, 0x78777675);
  }

  lemma WordsToZ()
    ensures WordAt(PaddedBytes(ALPHABET), 6) == 0x00807a79
  {
    WordsOf();
    hide WordOf, WordAt, PaddedBytes;
    WordAtIs(6, 0x79, 0x7a, 0x80, 0x00, 0x00807a79);
  }

  lemma ZeroWords(w: nat)
    requires w >= 7
    ensures WordAt(PaddedBytes(ALPHABET), w) == 0
  {
    WordsOf();
    hide WordOf, WordAt, PaddedBytes;
    WordAtIs(w, 0, 0, 0, 0, 0);
  }

  lemma PaddedIs()
    ensures IsBlock(PaddedWords(ALPHABET))
  {
    hide PaddedWords, WordAt, LowWord, HighWord, BitLength, PaddedBytes;
    PaddedShape();
    LengthOf();
    WordsToH();
    WordsToP();
    WordsToX();
    WordsToZ();
    forall w | 7 <= w < 14
      ensures WordAt(PaddedBytes(ALPHABET), w) == 0
    {
      ZeroWords(w);
    }
  }

  lemma TextA()
    ensures WordText(0xd7d3fcc3) == "c3fcd3d7"
  {
    assert ByteOf(0xd7d3fcc3, 0) == 195 && ByteOf(0xd7d3fcc3, 1) == 252 && ByteOf(0xd7d3fcc3, 2) == 211
        && ByteOf(0xd7d3fcc3, 3) == 215;
    hide ByteOf;
    assert ByteText(195) == "c3" && ByteText(252) == "fc" && ByteText(211) == "d3" && ByteText(215) == "d7";
  }

  lemma TextB()
    ensures WordText(0x00e49261) == "6192e400"
  {
    assert ByteOf(0x00e49261, 0) == 97 && ByteOf(0x00e49261, 1) == 146 && ByteOf(0x00e49261, 2) == 228
        && ByteOf(0x00e49261, 3) == 0;
    hide ByteOf;
    assert ByteText(97) == "61" && ByteText(146) == "92" && ByteText(228) == "e4" && ByteText(0) == "00";
  }

  lemma TextC()
    ensures WordText(0x6c49fb7d) == "7dfb496c"
  {
    assert ByteOf(0x6c49fb7d, 0) == 125 && ByteOf(0x6c49fb7d, 1) == 251 && ByteOf(0x6c49fb7d, 2) == 73
        && ByteOf(0x6c49fb7d, 3) == 108;
    hide ByteOf;
    assert ByteText(125) == "7d" && ByteText(251) == "fb" && ByteText(73) == "49" && ByteText(108) == "6c";
  }

  lemma TextD()
    ensures WordText(0x3be167ca) == "ca67e13b"
  {
    assert ByteOf(0x3be167ca, 0) == 202 && ByteOf(0x3be167ca, 1) == 103 && ByteOf(0x3be167ca, 2) == 225
        && ByteOf(0x3be167ca, 3) == 59;
    hide ByteOf;
    assert ByteText(202) == "ca" && ByteText(103) == "67" && ByteText(225) == "e1" && ByteText(59) == "3b";
  }

  lemma OneBlockDigest(msg: seq<Byte>)
    requires |msg| < TWO_32 && |PaddedWords(msg)| == 16
    ensures var m := Block(START, PaddedWords(msg));
            Digest(msg) == WordText(m.a) + WordText(m.b) + WordText(m.c) + WordText(m.d)
  {
    hide PaddedWords, WordText, Block;
    OneBlock(PaddedWords(msg));
    hide Blocks;
    assert 16 / 16 == 1;
  }

  lemma OneBlock(x: seq<Word>)
    requires |x| == 16
    ensures Blocks(x, 1) == Block(START, x)
  {
    BlockIs(x, 0);
    NoBlocks(x);
    assert x[0..16] == x;
  }

  /** The digest of the alphabet is that of the RFC. */
  lemma AlphabetDigest()
    ensures Digest(ALPHABET) == "c3fcd3d7" + "6192e400" + "7dfb496c" + "ca67e13b"
  {
    PaddedIs();
    BlockIsThis(PaddedWords(ALPHABET));
    hide *;
    OneBlockDigest(ALPHABET);
    TextA();
    TextB();
    TextC();
    TextD();
  }
}
