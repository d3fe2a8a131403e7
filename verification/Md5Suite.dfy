/** Two digests of section A.5 of RFC 1321 worked out step by step on bit vectors, their
    hexadecimal form, and HMAC. */
module Md5Suite {
  import opened Md5Words
  import opened Md5Bits
  import opened Md5

  /** The words of a block. */
  datatype Sixteen = Sixteen(w0: bv32, w1: bv32, w2: bv32, w3: bv32, w4: bv32, w5: bv32, w6: bv32, w7: bv32,
                             w8: bv32, w9: bv32, w10: bv32, w11: bv32, w12: bv32, w13: bv32, w14: bv32, w15: bv32) {
    function At(k: nat): bv32 {
      match k
      case 0 => w0 case 1 => w1 case 2 => w2 case 3 => w3 case 4 => w4 case 5 => w5 case 6 => w6 case 7 => w7
      case 8 => w8 case 9 => w9 case 10 => w10 case 11 => w11 case 12 => w12 case 13 => w13 case 14 => w14
      case _ => w15
    }

    ghost predicate Are(xs: seq<nat>) {
      |xs| == 16 && forall k | 0 <= k < 16 :: xs[k] == Num(At(k))
    }
  }

  lemma WordsAt1(x: Sixteen)
    ensures x.At(0) == x.w0 && x.At(1) == x.w1 && x.At(2) == x.w2 && x.At(3) == x.w3
  {
  }

  lemma WordsAt2(x: Sixteen)
    ensures x.At(4) == x.w4 && x.At(5) == x.w5 && x.At(6) == x.w6 && x.At(7) == x.w7
  {
  }

  lemma WordsAt3(x: Sixteen)
    ensures x.At(8) == x.w8 && x.At(9) == x.w9 && x.At(10) == x.w10 && x.At(11) == x.w11
  {
  }

  lemma WordsAt4(x: Sixteen)
    ensures x.At(12) == x.w12 && x.At(13) == x.w13 && x.At(14) == x.w14 && x.At(15) == x.w15
  {
  }

  lemma WordsAt(x: Sixteen)
    ensures x.At(0) == x.w0 && x.At(1) == x.w1 && x.At(2) == x.w2 && x.At(3) == x.w3
    ensures x.At(4) == x.w4 && x.At(5) == x.w5 && x.At(6) == x.w6 && x.At(7) == x.w7
    ensures x.At(8) == x.w8 && x.At(9) == x.w9 && x.At(10) == x.w10 && x.At(11) == x.w11
    ensures x.At(12) == x.w12 && x.At(13) == x.w13 && x.At(14) == x.w14 && x.At(15) == x.w15
  {
    WordsAt1(x);
    WordsAt2(x);
    WordsAt3(x);
    WordsAt4(x);
    hide Sixteen.At;
  }

  function SineBits(i: nat): bv32 {
    if i < 16 then SineBits1(i) else if i < 32 then SineBits2(i) else if i < 48 then SineBits3(i) else SineBits4(i)
  }

  function SineBits1(i: nat): bv32 {
    match i
    case 0 => 0xd76aa478 case 1 => 0xe8c7b756 case 2 => 0x242070db case 3 => 0xc1bdceee
    case 4 => 0xf57c0faf case 5 => 0x4787c62a case 6 => 0xa8304613 case 7 => 0xfd469501
    case 8 => 0x698098d8 case 9 => 0x8b44f7af case 10 => 0xffff5bb1 case 11 => 0x895cd7be
    case 12 => 0x6b901122 case 13 => 0xfd987193 case 14 => 0xa679438e case _ => 0x49b40821
  }

  function SineBits2(i: nat): bv32 {
    match i
    case 16 => 0xf61e2562 case 17 => 0xc040b340 case 18 => 0x265e5a51 case 19 => 0xe9b6c7aa
    case 20 => 0xd62f105d case 21 => 0x02441453 case 22 => 0xd8a1e681 case 23 => 0xe7d3fbc8
    case 24 => 0x21e1cde6 case 25 => 0xc33707d6 case 26 => 0xf4d50d87 case 27 => 0x455a14ed
    case 28 => 0xa9e3e905 case 29 => 0xfcefa3f8 case 30 => 0x676f02d9 case _ => 0x8d2a4c8a
  }

  function SineBits3(i: nat): bv32 {
    match i
    case 32 => 0xfffa3942 case 33 => 0x8771f681 case 34 => 0x6d9d6122 case 35 => 0xfde5380c
    case 36 => 0xa4beea44 case 37 => 0x4bdecfa9 case 38 => 0xf6bb4b60 case 39 => 0xbebfbc70
    case 40 => 0x289b7ec6 case 41 => 0xeaa127fa case 42 => 0xd4ef3085 case 43 => 0x04881d05
    case 44 => 0xd9d4d039 case 45 => 0xe6db99e5 case 46 => 0x1fa27cf8 case _ => 0xc4ac5665
  }

  function SineBits4(i: nat): bv32 {
    match i
    case 48 => 0xf4292244 case 49 => 0x432aff97 case 50 => 0xab9423a7 case 51 => 0xfc93a039
    case 52 => 0x655b59c3 case 53 => 0x8f0ccc92 case 54 => 0xffeff47d case 55 => 0x85845dd1
    case 56 => 0x6fa87e4f case 57 => 0xfe2ce6e0 case 58 => 0xa3014314 case 59 => 0x4e0811a1
    case 60 => 0xf7537e82 case 61 => 0xbd3af235 case 62 => 0x2ad7d2bb case _ => 0xeb86d391
  }

  function ShiftBits(i: nat): (s: bv8)
    ensures 0 < s < 32
  {
    if i < 16 then (if i % 4 == 0 then 7 else if i % 4 == 1 then 12 else if i % 4 == 2 then 17 else 22)
    else if i < 32 then (if i % 4 == 0 then 5 else if i % 4 == 1 then 9 else if i % 4 == 2 then 14 else 20)
    else if i < 48 then (if i % 4 == 0 then 4 else if i % 4 == 1 then 11 else if i % 4 == 2 then 16 else 23)
    else (if i % 4 == 0 then 6 else if i % 4 == 1 then 10 else if i % 4 == 2 then 15 else 21)
  }

  lemma ShiftIs(i: nat)
    ensures N(ShiftBits(i)) == Shift(i)
  {
  }

  lemma SineIs1(i: nat)
    requires i < 16
    ensures Num(SineBits1(i)) == Sine1(i)
  {
  }

  lemma SineIs2(i: nat)
    requires 16 <= i < 32
    ensures Num(SineBits2(i)) == Sine2(i)
  {
  }

  lemma SineIs3(i: nat)
    requires 32 <= i < 48
    ensures Num(SineBits3(i)) == Sine3(i)
  {
  }

  lemma SineIs4(i: nat)
    requires 48 <= i < 64
    ensures Num(SineBits4(i)) == Sine4(i)
  {
  }

  /** The first `n` steps. */
  function Run(q: Regs, x: Sixteen, n: nat): Regs {
    if n == 0 then q else Op((n - 1) / 16, Run(q, x, n - 1), x.At(Place(n - 1)), ShiftBits(n - 1), SineBits(n - 1))
  }

  lemma {:induction false} RunIs(q: Regs, x: Sixteen, xs: seq<nat>, n: nat)
    requires n <= 64 && x.Are(xs)
    ensures Run(q, x, n).Nums() == Steps(q.Nums(), xs, n)
  {
    hide Op, Step, Sine1, Sine2, Sine3, Sine4, SineBits1, SineBits2, SineBits3, SineBits4, Shift, ShiftBits, Place, Num;
    hide N, Sixteen.At, Regs.Nums;
    if n > 0 {
      RunIs(q, x, xs, n - 1);
      var i := n - 1;
      ShiftIs(i);
      if i < 16 {
        SineIs1(i);
      } else if i < 32 {
        SineIs2(i);
      } else if i < 48 {
        SineIs3(i);
      } else {
        SineIs4(i);
      }
      OpIs(i, Run(q, x, i), x.At(Place(i)), ShiftBits(i), SineBits(i));
    }
  }

  /** Step `i`, which takes the word `w`, rotates by `s`, adds `k` and makes the word `v`. */
  lemma Turn(q0: Regs, x: Sixteen, i: nat, q: Regs, w: bv32, s: bv8, k: bv32, v: bv32) returns (q': Regs)
    requires x.At(Place(i)) == w && ShiftBits(i) == s && SineBits(i) == k
    requires Run(q0, x, i) == q && Op(i / 16, q, w, s, k).b == v
    ensures Run(q0, x, i + 1) == q' == Regs(q.d, v, q.b, q.c)
  {
    hide Plus, AuxiliaryBits, Rotated, ShiftBits, SineBits, Place, Sixteen.At;
    q' := Run(q0, x, i + 1);
  }

  const STARTBITS: Regs := Regs(0x67452301, 0xefcdab89, 0x98badcfe, 0x10325476)

  lemma Tables1()
    ensures Place(0) == 0 && Place(1) == 1 && Place(2) == 2 && Place(3) == 3
    ensures ShiftBits(0) == 7 && ShiftBits(1) == 12 && ShiftBits(2) == 17 && ShiftBits(3) == 22
    ensures SineBits(0) == 0xd76aa478 && SineBits(1) == 0xe8c7b756 && SineBits(2) == 0x242070db
    ensures SineBits(3) == 0xc1bdceee
    ensures Place(4) == 4 && Place(5) == 5 && Place(6) == 6 && Place(7) == 7
    ensures ShiftBits(4) == 7 && ShiftBits(5) == 12 && ShiftBits(6) == 17 && ShiftBits(7) == 22
    ensures SineBits(4) == 0xf57c0faf && SineBits(5) == 0x4787c62a && SineBits(6) == 0xa8304613
    ensures SineBits(7) == 0xfd469501
    ensures Place(8) == 8 && Place(9) == 9 && Place(10) == 10 && Place(11) == 11
    ensures ShiftBits(8) == 7 && ShiftBits(9) == 12 && ShiftBits(10) == 17 && ShiftBits(11) == 22
    ensures SineBits(8) == 0x698098d8 && SineBits(9) == 0x8b44f7af && SineBits(10) == 0xffff5bb1
    ensures SineBits(11) == 0x895cd7be
    ensures Place(12) == 12 && Place(13) == 13 && Place(14) == 14 && Place(15) == 15
    ensures ShiftBits(12) == 7 && ShiftBits(13) == 12 && ShiftBits(14) == 17 && ShiftBits(15) == 22
    ensures SineBits(12) == 0x6b901122 && SineBits(13) == 0xfd987193 && SineBits(14) == 0xa679438e
    ensures SineBits(15) == 0x49b40821
  {
  }

  lemma Tables2()
    ensures Place(16) == 1 && Place(17) == 6 && Place(18) == 11 && Place(19) == 0
    ensures ShiftBits(16) == 5 && ShiftBits(17) == 9 && ShiftBits(18) == 14 && ShiftBits(19) == 20
    ensures SineBits(16) == 0xf61e2562 && SineBits(17) == 0xc040b340 && SineBits(18) == 0x265e5a51
    ensures SineBits(19) == 0xe9b6c7aa
    ensures Place(20) == 5 && Place(21) == 10 && Place(22) == 15 && Place(23) == 4
    ensures ShiftBits(20) == 5 && ShiftBits(21) == 9 && ShiftBits(22) == 14 && ShiftBits(23) == 20
    ensures SineBits(20) == 0xd62f105d && SineBits(21) == 0x02441453 && SineBits(22) == 0xd8a1e681
    ensures SineBits(23) == 0xe7d3fbc8
    ensures Place(24) == 9 && Place(25) == 14 && Place(26) == 3 && Place(27) == 8
    ensures ShiftBits(24) == 5 && ShiftBits(25) == 9 && ShiftBits(26) == 14 && ShiftBits(27) == 20
    ensures SineBits(24) == 0x21e1cde6 && SineBits(25) == 0xc33707d6 && SineBits(26) == 0xf4d50d87
    ensures SineBits(27) == 0x455a14ed
    ensures Place(28) == 13 && Place(29) == 2 && Place(30) == 7 && Place(31) == 12
    ensures ShiftBits(28) == 5 && ShiftBits(29) == 9 && ShiftBits(30) == 14 && ShiftBits(31) == 20
    ensures SineBits(28) == 0xa9e3e905 && SineBits(29) == 0xfcefa3f8 && SineBits(30) == 0x676f02d9
    ensures SineBits(31) == 0x8d2a4c8a
  {
  }

  lemma Tables3()
    ensures Place(32) == 5 && Place(33) == 8 && Place(34) == 11 && Place(35) == 14
    ensures ShiftBits(32) == 4 && ShiftBits(33) == 11 && ShiftBits(34) == 16 && ShiftBits(35) == 23
    ensures SineBits(32) == 0xfffa3942 && SineBits(33) == 0x8771f681 && SineBits(34) == 0x6d9d6122
    ensures SineBits(35) == 0xfde5380c
    ensures Place(36) == 1 && Place(37) == 4 && Place(38) == 7 && Place(39) == 10
    ensures ShiftBits(36) == 4 && ShiftBits(37) == 11 && ShiftBits(38) == 16 && ShiftBits(39) == 23
    ensures SineBits(36) == 0xa4beea44 && SineBits(37) == 0x4bdecfa9 && SineBits(38) == 0xf6bb4b60
    ensures SineBits(39) == 0xbebfbc70
    ensures Place(40) == 13 && Place(41) == 0 && Place(42) == 3 && Place(43) == 6
    ensures ShiftBits(40) == 4 && ShiftBits(41) == 11 && ShiftBits(42) == 16 && ShiftBits(43) == 23
    ensures SineBits(40) == 0x289b7ec6 && SineBits(41) == 0xeaa127fa && SineBits(42) == 0xd4ef3085
    ensures SineBits(43) == 0x04881d05
    ensures Place(44) == 9 && Place(45) == 12 && Place(46) == 15 && Place(47) == 2
    ensures ShiftBits(44) == 4 && ShiftBits(45) == 11 && ShiftBits(46) == 16 && ShiftBits(47) == 23
    ensures SineBits(44) == 0xd9d4d039 && SineBits(45) == 0xe6db99e5 && SineBits(46) == 0x1fa27cf8
    ensures SineBits(47) == 0xc4ac5665
  {
  }

  lemma Tables4()
    ensures Place(48) == 0 && Place(49) == 7 && Place(50) == 14 && Place(51) == 5
    ensures ShiftBits(48) == 6 && ShiftBits(49) == 10 && ShiftBits(50) == 15 && ShiftBits(51) == 21
    ensures SineBits(48) == 0xf4292244 && SineBits(49) == 0x432aff97 && SineBits(50) == 0xab9423a7
    ensures SineBits(51) == 0xfc93a039
    ensures Place(52) == 12 && Place(53) == 3 && Place(54) == 10 && Place(55) == 1
    ensures ShiftBits(52) == 6 && ShiftBits(53) == 10 && ShiftBits(54) == 15 && ShiftBits(55) == 21
    ensures SineBits(52) == 0x655b59c3 && SineBits(53) == 0x8f0ccc92 && SineBits(54) == 0xffeff47d
    ensures SineBits(55) == 0x85845dd1
    ensures Place(56) == 8 && Place(57) == 15 && Place(58) == 6 && Place(59) == 13
    ensures ShiftBits(56) == 6 && ShiftBits(57) == 10 && ShiftBits(58) == 15 && ShiftBits(59) == 21
    ensures SineBits(56) == 0x6fa87e4f && SineBits(57) == 0xfe2ce6e0 && SineBits(58) == 0xa3014314
    ensures SineBits(59) == 0x4e0811a1
    ensures Place(60) == 4 && Place(61) == 11 && Place(62) == 2 && Place(63) == 9
    ensures ShiftBits(60) == 6 && ShiftBits(61) == 10 && ShiftBits(62) == 15 && ShiftBits(63) == 21
    ensures SineBits(60) == 0xf7537e82 && SineBits(61) == 0xbd3af235 && SineBits(62) == 0x2ad7d2bb
    ensures SineBits(63) == 0xeb86d391
  {
  }

  // ---- Blocks ----

  /** The state after a block. */
  function Total(q: Regs, x: Sixteen): Regs {
    var r := Run(q, x, 64);
    Regs(Plus(q.a, r.a), Plus(q.b, r.b), Plus(q.c, r.c), Plus(q.d, r.d))
  }

  lemma TotalIs(q: Regs, x: Sixteen, xs: seq<nat>)
    requires x.Are(xs)
    ensures Total(q, x).Nums() == Transformed(q.Nums(), xs)
  {
    hide Run, Num, Plus, Steps, Sixteen.Are, Add;
    RunIs(q, x, xs, 64);
    var r := Run(q, x, 64);
    WordAdd(q.a, r.a);
    WordAdd(q.b, r.b);
    WordAdd(q.c, r.c);
    WordAdd(q.d, r.d);
  }

  lemma StartIs()
    ensures STARTBITS.Nums() == START
  {
  }

  lemma Start(q0: Regs, x: Sixteen)
    ensures Run(q0, x, 0) == q0
  {
  }

  const EMPTY: Sixteen :=
    Sixteen(0x00000080, 0x00000000, 0x00000000, 0x00000000,
            0x00000000, 0x00000000, 0x00000000, 0x00000000,
            0x00000000, 0x00000000, 0x00000000, 0x00000000,
            0x00000000, 0x00000000, 0x00000000, 0x00000000)

  lemma EmptyAt()
    ensures EMPTY.At(0) == 0x00000080 && EMPTY.At(1) == 0x00000000 && EMPTY.At(2) == 0x00000000
    ensures EMPTY.At(3) == 0x00000000
    ensures EMPTY.At(4) == 0x00000000 && EMPTY.At(5) == 0x00000000 && EMPTY.At(6) == 0x00000000
    ensures EMPTY.At(7) == 0x00000000
    ensures EMPTY.At(8) == 0x00000000 && EMPTY.At(9) == 0x00000000 && EMPTY.At(10) == 0x00000000
    ensures EMPTY.At(11) == 0x00000000
    ensures EMPTY.At(12) == 0x00000000 && EMPTY.At(13) == 0x00000000 && EMPTY.At(14) == 0x00000000
    ensures EMPTY.At(15) == 0x00000000
  {
    WordsAt(EMPTY);
    hide Sixteen.At;
  }

  lemma Empty1(q0: Regs, q1: Regs) returns (q: Regs)
    requires Run(q0, EMPTY, 0) == q1 == Regs(0x67452301, 0xefcdab89, 0x98badcfe, 0x10325476)
    ensures Run(q0, EMPTY, 16) == q == Regs(0xf56c7cf1, 0xd6819c6a, 0x5aa53f75, 0x374943a7)
  {
    Tables1();
    EmptyAt();
    hide Run, Place, ShiftBits, SineBits, Sixteen.At;
    q := q1;
    q := Turn(q0, EMPTY, 0, q, 0x00000080, 7, 0xd76aa478, 0xa5202774);
    q := Turn(q0, EMPTY, 1, q, 0x00000000, 12, 0xe8c7b756, 0xf59592dd);
    q := Turn(q0, EMPTY, 2, q, 0x00000000, 17, 0x242070db, 0xe7f06b23);
    q := Turn(q0, EMPTY, 3, q, 0x00000000, 22, 0xc1bdceee, 0x1b163203);
    q := Turn(q0, EMPTY, 4, q, 0x00000000, 7, 0xf57c0faf, 0x32033344);
    q := Turn(q0, EMPTY, 5, q, 0x00000000, 12, 0x4787c62a, 0x2f35d494);
    q := Turn(q0, EMPTY, 6, q, 0x00000000, 17, 0xa8304613, 0xf5b158db);
    q := Turn(q0, EMPTY, 7, q, 0x00000000, 22, 0xfd469501, 0x9bc13ce9);
    q := Turn(q0, EMPTY, 8, q, 0x00000000, 7, 0x698098d8, 0x3893b991);
    q := Turn(q0, EMPTY, 9, q, 0x00000000, 12, 0x8b44f7af, 0xfce4a312);
    q := Turn(q0, EMPTY, 10, q, 0x00000000, 17, 0xffff5bb1, 0xe1ef0576);
    q := Turn(q0, EMPTY, 11, q, 0x00000000, 22, 0x895cd7be, 0x70768a29);
    q := Turn(q0, EMPTY, 12, q, 0x00000000, 7, 0x6b901122, 0xf56c7cf1);
    q := Turn(q0, EMPTY, 13, q, 0x00000000, 12, 0xfd987193, 0x374943a7);
    q := Turn(q0, EMPTY, 14, q, 0x00000000, 17, 0xa679438e, 0x5aa53f75);
    q := Turn(q0, EMPTY, 15, q, 0x00000000, 22, 0x49b40821, 0xd6819c6a);
  }

  lemma Empty2(q0: Regs, q1: Regs) returns (q: Regs)
    requires Run(q0, EMPTY, 16) == q1 == Regs(0xf56c7cf1, 0xd6819c6a, 0x5aa53f75, 0x374943a7)
    ensures Run(q0, EMPTY, 32) == q == Regs(0x13707036, 0xa2205f1f, 0x1c31c384, 0xae7813db)
  {
    Tables2();
    EmptyAt();
    hide Run, Place, ShiftBits, SineBits, Sixteen.At;
    q := q1;
    q := Turn(q0, EMPTY, 16, q, 0x00000000, 5, 0xf61e2562, 0x1c7d7513);
    q := Turn(q0, EMPTY, 17, q, 0x00000000, 9, 0xc040b340, 0x7bd57a3a);
    q := Turn(q0, EMPTY, 18, q, 0x00000000, 14, 0x265e5a51, 0xc095f13a);
    q := Turn(q0, EMPTY, 19, q, 0x00000080, 20, 0xe9b6c7aa, 0xbd782e17);
    q := Turn(q0, EMPTY, 20, q, 0x00000000, 5, 0xd62f105d, 0x3d1e3e6c);
    q := Turn(q0, EMPTY, 21, q, 0x00000000, 9, 0x02441453, 0x68b7b3e3);
    q := Turn(q0, EMPTY, 22, q, 0x00000000, 14, 0xd8a1e681, 0xeb41643e);
    q := Turn(q0, EMPTY, 23, q, 0x00000000, 20, 0xe7d3fbc8, 0xe422531a);
    q := Turn(q0, EMPTY, 24, q, 0x00000000, 5, 0x21e1cde6, 0x306ec122);
    q := Turn(q0, EMPTY, 25, q, 0x00000000, 9, 0xc33707d6, 0xd28c77c2);
    q := Turn(q0, EMPTY, 26, q, 0x00000000, 14, 0xf4d50d87, 0xa3c663da);
    q := Turn(q0, EMPTY, 27, q, 0x00000000, 20, 0x455a14ed, 0xa0572807);
    q := Turn(q0, EMPTY, 28, q, 0x00000000, 5, 0xa9e3e905, 0x13707036);
    q := Turn(q0, EMPTY, 29, q, 0x00000000, 9, 0xfcefa3f8, 0xae7813db);
    q := Turn(q0, EMPTY, 30, q, 0x00000000, 14, 0x676f02d9, 0x1c31c384);
    q := Turn(q0, EMPTY, 31, q, 0x00000000, 20, 0x8d2a4c8a, 0xa2205f1f);
  }

  lemma Empty3(q0: Regs, q1: Regs) returns (q: Regs)
    requires Run(q0, EMPTY, 32) == q1 == Regs(0x13707036, 0xa2205f1f, 0x1c31c384, 0xae7813db)
    ensures Run(q0, EMPTY, 48) == q == Regs(0x3f55edfd, 0xca7d2dbd, 0x68d84ea2, 0x22a31f54)
  {
    Tables3();
    EmptyAt();
    hide Run, Place, ShiftBits, SineBits, Sixteen.At;
    q := q1;
    q := Turn(q0, EMPTY, 32, q, 0x00000000, 4, 0xfffa3942, 0xdf63eaa1);
    q := Turn(q0, EMPTY, 33, q, 0x00000000, 11, 0x8771f681, 0xc3689f5b);
    q := Turn(q0, EMPTY, 34, q, 0x00000000, 16, 0x6d9d6122, 0x12f3e755);
    q := Turn(q0, EMPTY, 35, q, 0x00000000, 23, 0xfde5380c, 0x004b6669);
    q := Turn(q0, EMPTY, 36, q, 0x00000000, 4, 0xa4beea44, 0x5f7a9b2e);
    q := Turn(q0, EMPTY, 37, q, 0x00000000, 11, 0x4bdecfa9, 0xabc34e16);
    q := Turn(q0, EMPTY, 38, q, 0x00000000, 16, 0xf6bb4b60, 0x91ca4cb7);
    q := Turn(q0, EMPTY, 39, q, 0x00000000, 23, 0xbebfbc70, 0xc5dc8c15);
    q := Turn(q0, EMPTY, 40, q, 0x00000000, 4, 0x289b7ec6, 0x4497169d);
    q := Turn(q0, EMPTY, 41, q, 0x00000080, 11, 0xeaa127fa, 0x76fd93d4);
    q := Turn(q0, EMPTY, 42, q, 0x00000000, 16, 0xd4ef3085, 0xfd95f243);
    q := Turn(q0, EMPTY, 43, q, 0x00000000, 23, 0x04881d05, 0x0fe32453);
    q := Turn(q0, EMPTY, 44, q, 0x00000000, 4, 0xd9d4d039, 0x3f55edfd);
    q := Turn(q0, EMPTY, 45, q, 0x00000000, 11, 0xe6db99e5, 0x22a31f54);
    q := Turn(q0, EMPTY, 46, q, 0x00000000, 16, 0x1fa27cf8, 0x68d84ea2);
    q := Turn(q0, EMPTY, 47, q, 0x00000000, 23, 0xc4ac5665, 0xca7d2dbd);
  }

  lemma Empty4(q0: Regs, q1: Regs) returns (q: Regs)
    requires Run(q0, EMPTY, 48) == q1 == Regs(0x3f55edfd, 0xca7d2dbd, 0x68d84ea2, 0x22a31f54)
    ensures Run(q0, EMPTY, 64) == q == Regs(0x7246fad3, 0x14e45506, 0xff4ea3eb, 0x6e10a476)
  {
    Tables4();
    EmptyAt();
    hide Run, Place, ShiftBits, SineBits, Sixteen.At;
    q := q1;
    q := Turn(q0, EMPTY, 48, q, 0x00000080, 6, 0xf4292244, 0x93aa2577);
    q := Turn(q0, EMPTY, 49, q, 0x00000000, 10, 0x432aff97, 0x1688dc85);
    q := Turn(q0, EMPTY, 50, q, 0x00000000, 15, 0xab9423a7, 0xcd85b8cb);
    q := Turn(q0, EMPTY, 51, q, 0x00000000, 21, 0xfc93a039, 0x561e0689);
    q := Turn(q0, EMPTY, 52, q, 0x00000000, 6, 0x655b59c3, 0x5625a114);
    q := Turn(q0, EMPTY, 53, q, 0x00000000, 10, 0x8f0ccc92, 0x3450f42b);
    q := Turn(q0, EMPTY, 54, q, 0x00000000, 15, 0xffeff47d, 0x392ad0d0);
    q := Turn(q0, EMPTY, 55, q, 0x00000000, 21, 0x85845dd1, 0x1e77fa61);
    q := Turn(q0, EMPTY, 56, q, 0x00000000, 6, 0x6fa87e4f, 0x474a9c8c);
    q := Turn(q0, EMPTY, 57, q, 0x00000000, 10, 0xfe2ce6e0, 0xdfce00bc);
    q := Turn(q0, EMPTY, 58, q, 0x00000000, 15, 0xa3014314, 0x36594b14);
    q := Turn(q0, EMPTY, 59, q, 0x00000000, 21, 0x4e0811a1, 0x30130182);
    q := Turn(q0, EMPTY, 60, q, 0x00000000, 6, 0xf7537e82, 0x7246fad3);
    q := Turn(q0, EMPTY, 61, q, 0x00000000, 10, 0xbd3af235, 0x6e10a476);
    q := Turn(q0, EMPTY, 62, q, 0x00000000, 15, 0x2ad7d2bb, 0xff4ea3eb);
    q := Turn(q0, EMPTY, 63, q, 0x00000000, 21, 0xeb86d391, 0x14e45506);
  }

  lemma EmptyTotal()
    ensures Total(Regs(0x67452301, 0xefcdab89, 0x98badcfe, 0x10325476), EMPTY) ==
      Regs(0xd98c1dd4, 0x04b2008f, 0x980980e9, 0x7e42f8ec)
  {
    hide Run;
    Start(Regs(0x67452301, 0xefcdab89, 0x98badcfe, 0x10325476), EMPTY);
    var q0 := Regs(0x67452301, 0xefcdab89, 0x98badcfe, 0x10325476);
    var q := Empty1(q0, q0);
    q := Empty2(Regs(0x67452301, 0xefcdab89, 0x98badcfe, 0x10325476), q);
    q := Empty3(Regs(0x67452301, 0xefcdab89, 0x98badcfe, 0x10325476), q);
    q := Empty4(Regs(0x67452301, 0xefcdab89, 0x98badcfe, 0x10325476), q);
  }

  const LETTERS: Sixteen :=
    Sixteen(0x44434241, 0x48474645, 0x4c4b4a49, 0x504f4e4d,
            0x54535251, 0x58575655, 0x62615a59, 0x66656463,
            0x6a696867, 0x6e6d6c6b, 0x7271706f, 0x76757473,
            0x7a797877, 0x33323130, 0x37363534, 0x00803938)

  lemma LettersAt()
    ensures LETTERS.At(0) == 0x44434241 && LETTERS.At(1) == 0x48474645 && LETTERS.At(2) == 0x4c4b4a49
    ensures LETTERS.At(3) == 0x504f4e4d
    ensures LETTERS.At(4) == 0x54535251 && LETTERS.At(5) == 0x58575655 && LETTERS.At(6) == 0x62615a59
    ensures LETTERS.At(7) == 0x66656463
    ensures LETTERS.At(8) == 0x6a696867 && LETTERS.At(9) == 0x6e6d6c6b && LETTERS.At(10) == 0x7271706f
    ensures LETTERS.At(11) == 0x76757473
    ensures LETTERS.At(12) == 0x7a797877 && LETTERS.At(13) == 0x33323130 && LETTERS.At(14) == 0x37363534
    ensures LETTERS.At(15) == 0x00803938
  {
    WordsAt(LETTERS);
    hide Sixteen.At;
  }

  lemma Letters1(q0: Regs, q1: Regs) returns (q: Regs)
    requires Run(q0, LETTERS, 0) == q1 == Regs(0x67452301, 0xefcdab89, 0x98badcfe, 0x10325476)
    ensures Run(q0, LETTERS, 16) == q == Regs(0x3cbdcd45, 0x5d38e690, 0xfa148c8a, 0xb8dec763)
  {
    Tables1();
    LettersAt();
    hide Run, Place, ShiftBits, SineBits, Sixteen.At;
    q := q1;
    q := Turn(q0, LETTERS, 0, q, 0x44434241, 7, 0xd76aa478, 0xc6c10796);
    q := Turn(q0, LETTERS, 1, q, 0x48474645, 12, 0xe8c7b756, 0x99a09999);
    q := Turn(q0, LETTERS, 2, q, 0x4c4b4a49, 17, 0x242070db, 0x11067980);
    q := Turn(q0, LETTERS, 3, q, 0x504f4e4d, 22, 0xc1bdceee, 0x27bce07a);
    q := Turn(q0, LETTERS, 4, q, 0x54535251, 7, 0xf57c0faf, 0xf22e6c4e);
    q := Turn(q0, LETTERS, 5, q, 0x58575655, 12, 0x4787c62a, 0xb4ac9218);
    q := Turn(q0, LETTERS, 6, q, 0x62615a59, 17, 0xa8304613, 0xa95a2fc0);
    q := Turn(q0, LETTERS, 7, q, 0x66656463, 22, 0xfd469501, 0xa4799506);
    q := Turn(q0, LETTERS, 8, q, 0x6a696867, 7, 0x698098d8, 0x1eb3e7c1);
    q := Turn(q0, LETTERS, 9, q, 0x6e6d6c6b, 12, 0x8b44f7af, 0xa6e70cfe);
    q := Turn(q0, LETTERS, 10, q, 0x7271706f, 17, 0xffff5bb1, 0xca27520b);
    q := Turn(q0, LETTERS, 11, q, 0x76757473, 22, 0x895cd7be, 0x8a7612ec);
    q := Turn(q0, LETTERS, 12, q, 0x7a797877, 7, 0x6b901122, 0x3cbdcd45);
    q := Turn(q0, LETTERS, 13, q, 0x33323130, 12, 0xfd987193, 0xb8dec763);
    q := Turn(q0, LETTERS, 14, q, 0x37363534, 17, 0xa679438e, 0xfa148c8a);
    q := Turn(q0, LETTERS, 15, q, 0x00803938, 22, 0x49b40821, 0x5d38e690);
  }

  lemma Letters2(q0: Regs, q1: Regs) returns (q: Regs)
    requires Run(q0, LETTERS, 16) == q1 == Regs(0x3cbdcd45, 0x5d38e690, 0xfa148c8a, 0xb8dec763)
    ensures Run(q0, LETTERS, 32) == q == Regs(0x9b085fa9, 0xdd789ecc, 0x5993248f, 0x4400a9bd)
  {
    Tables2();
    LettersAt();
    hide Run, Place, ShiftBits, SineBits, Sixteen.At;
    q := q1;
    q := Turn(q0, LETTERS, 16, q, 0x48474645, 5, 0xf61e2562, 0x04b9d52a);
    q := Turn(q0, LETTERS, 17, q, 0x62615a59, 9, 0xc040b340, 0x783002eb);
    q := Turn(q0, LETTERS, 18, q, 0x76757473, 14, 0x265e5a51, 0xd3ee3ed1);
    q := Turn(q0, LETTERS, 19, q, 0x44434241, 20, 0xe9b6c7aa, 0x47ae7c81);
    q := Turn(q0, LETTERS, 20, q, 0x58575655, 5, 0xd62f105d, 0x2d7d8a3f);
    q := Turn(q0, LETTERS, 21, q, 0x7271706f, 9, 0x02441453, 0xd1210823);
    q := Turn(q0, LETTERS, 22, q, 0x00803938, 14, 0xd8a1e681, 0x4b534dc3);
    q := Turn(q0, LETTERS, 23, q, 0x54535251, 20, 0xe7d3fbc8, 0x75292030);
    q := Turn(q0, LETTERS, 24, q, 0x6e6d6c6b, 5, 0x21e1cde6, 0x9d2a6e33);
    q := Turn(q0, LETTERS, 25, q, 0x37363534, 9, 0xc33707d6, 0x0e8d2e44);
    q := Turn(q0, LETTERS, 26, q, 0x504f4e4d, 14, 0xf4d50d87, 0xd473b564);
    q := Turn(q0, LETTERS, 27, q, 0x6a696867, 20, 0x455a14ed, 0xf2ff6ea0);
    q := Turn(q0, LETTERS, 28, q, 0x33323130, 5, 0xa9e3e905, 0x9b085fa9);
    q := Turn(q0, LETTERS, 29, q, 0x4c4b4a49, 9, 0xfcefa3f8, 0x4400a9bd);
    q := Turn(q0, LETTERS, 30, q, 0x66656463, 14, 0x676f02d9, 0x5993248f);
    q := Turn(q0, LETTERS, 31, q, 0x7a797877, 20, 0x8d2a4c8a, 0xdd789ecc);
  }

  lemma Letters3(q0: Regs, q1: Regs) returns (q: Regs)
    requires Run(q0, LETTERS, 32) == q1 == Regs(0x9b085fa9, 0xdd789ecc, 0x5993248f, 0x4400a9bd)
    ensures Run(q0, LETTERS, 48) == q == Regs(0x2dbee21d, 0xf166f514, 0xee46e961, 0xe95c3a43)
  {
    Tables3();
    LettersAt();
    hide Run, Place, ShiftBits, SineBits, Sixteen.At;
    q := q1;
    q := Turn(q0, LETTERS, 32, q, 0x58575655, 4, 0xfffa3942, 0x21c8d2b7);
    q := Turn(q0, LETTERS, 33, q, 0x6a696867, 11, 0x8771f681, 0x1d55a18e);
    q := Turn(q0, LETTERS, 34, q, 0x76757473, 16, 0x6d9d6122, 0x056ec119);
    q := Turn(q0, LETTERS, 35, q, 0x37363534, 23, 0xfde5380c, 0x1b9504f8);
    q := Turn(q0, LETTERS, 36, q, 0x48474645, 4, 0xa4beea44, 0x436b7fe9);
    q := Turn(q0, LETTERS, 37, q, 0x54535251, 11, 0x4bdecfa9, 0x075800c1);
    q := Turn(q0, LETTERS, 38, q, 0x66656463, 16, 0xf6bb4b60, 0xf404c2f6);
    q := Turn(q0, LETTERS, 39, q, 0x7271706f, 23, 0xbebfbc70, 0xcf0341ed);
    q := Turn(q0, LETTERS, 40, q, 0x33323130, 4, 0x289b7ec6, 0x888e7d8a);
    q := Turn(q0, LETTERS, 41, q, 0x44434241, 11, 0xeaa127fa, 0xbbdaecd8);
    q := Turn(q0, LETTERS, 42, q, 0x504f4e4d, 16, 0xd4ef3085, 0xce620273);
    q := Turn(q0, LETTERS, 43, q, 0x62615a59, 23, 0x04881d05, 0x047b9419);
    q := Turn(q0, LETTERS, 44, q, 0x6e6d6c6b, 4, 0xd9d4d039, 0x2dbee21d);
    q := Turn(q0, LETTERS, 45, q, 0x7a797877, 11, 0xe6db99e5, 0xe95c3a43);
    q := Turn(q0, LETTERS, 46, q, 0x00803938, 16, 0x1fa27cf8, 0xee46e961);
    q := Turn(q0, LETTERS, 47, q, 0x4c4b4a49, 23, 0xc4ac5665, 0xf166f514);
  }

  lemma Letters4(q0: Regs, q1: Regs) returns (q: Regs)
    requires Run(q0, LETTERS, 48) == q1 == Regs(0x2dbee21d, 0xf166f514, 0xee46e961, 0xe95c3a43)
    ensures Run(q0, LETTERS, 64) == q == Regs(0x1cb80f0a, 0xef2e3a46, 0x10f68731, 0xea3d3eb4)
  {
    Tables4();
    LettersAt();
    hide Run, Place, ShiftBits, SineBits, Sixteen.At;
    q := q1;
    q := Turn(q0, LETTERS, 48, q, 0x44434241, 6, 0xf4292244, 0xe47fd4f3);
    q := Turn(q0, LETTERS, 49, q, 0x66656463, 10, 0x432aff97, 0xfb887751);
    q := Turn(q0, LETTERS, 50, q, 0x37363534, 15, 0xab9423a7, 0xf22aedcc);
    q := Turn(q0, LETTERS, 51, q, 0x58575655, 21, 0xfc93a039, 0x7a13bc5c);
    q := Turn(q0, LETTERS, 52, q, 0x7a797877, 6, 0x655b59c3, 0xa691d430);
    q := Turn(q0, LETTERS, 53, q, 0x504f4e4d, 10, 0x8f0ccc92, 0x528452f2);
    q := Turn(q0, LETTERS, 54, q, 0x7271706f, 15, 0xffeff47d, 0x3fc23df6);
    q := Turn(q0, LETTERS, 55, q, 0x48474645, 21, 0x85845dd1, 0xefb0e72f);
    q := Turn(q0, LETTERS, 56, q, 0x6a696867, 6, 0x6fa87e4f, 0x27145703);
    q := Turn(q0, LETTERS, 57, q, 0x00803938, 10, 0xfe2ce6e0, 0x21a11069);
    q := Turn(q0, LETTERS, 58, q, 0x62615a59, 15, 0xa3014314, 0x374fbe79);
    q := Turn(q0, LETTERS, 59, q, 0x33323130, 21, 0x4e0811a1, 0x49d9a5b4);
    q := Turn(q0, LETTERS, 60, q, 0x54535251, 6, 0xf7537e82, 0x1cb80f0a);
    q := Turn(q0, LETTERS, 61, q, 0x76757473, 10, 0xbd3af235, 0xea3d3eb4);
    q := Turn(q0, LETTERS, 62, q, 0x4c4b4a49, 15, 0x2ad7d2bb, 0x10f68731);
    q := Turn(q0, LETTERS, 63, q, 0x6e6d6c6b, 21, 0xeb86d391, 0xef2e3a46);
  }

  lemma LettersTotal()
    ensures Total(Regs(0x67452301, 0xefcdab89, 0x98badcfe, 0x10325476), LETTERS) ==
      Regs(0x83fd320b, 0xdefbe5cf, 0xa9b1642f, 0xfa6f932a)
  {
    hide Run;
    Start(Regs(0x67452301, 0xefcdab89, 0x98badcfe, 0x10325476), LETTERS);
    var q0 := Regs(0x67452301, 0xefcdab89, 0x98badcfe, 0x10325476);
    var q := Letters1(q0, q0);
    q := Letters2(Regs(0x67452301, 0xefcdab89, 0x98badcfe, 0x10325476), q);
    q := Letters3(Regs(0x67452301, 0xefcdab89, 0x98badcfe, 0x10325476), q);
    q := Letters4(Regs(0x67452301, 0xefcdab89, 0x98badcfe, 0x10325476), q);
  }

  const LENGTH: Sixteen :=
    Sixteen(0x00000000, 0x00000000, 0x00000000, 0x00000000,
            0x00000000, 0x00000000, 0x00000000, 0x00000000,
            0x00000000, 0x00000000, 0x00000000, 0x00000000,
            0x00000000, 0x00000000, 0x000001f0, 0x00000000)

  lemma LengthAt()
    ensures LENGTH.At(0) == 0x00000000 && LENGTH.At(1) == 0x00000000 && LENGTH.At(2) == 0x00000000
    ensures LENGTH.At(3) == 0x00000000
    ensures LENGTH.At(4) == 0x00000000 && LENGTH.At(5) == 0x00000000 && LENGTH.At(6) == 0x00000000
    ensures LENGTH.At(7) == 0x00000000
    ensures LENGTH.At(8) == 0x00000000 && LENGTH.At(9) == 0x00000000 && LENGTH.At(10) == 0x00000000
    ensures LENGTH.At(11) == 0x00000000
    ensures LENGTH.At(12) == 0x00000000 && LENGTH.At(13) == 0x00000000 && LENGTH.At(14) == 0x000001f0
    ensures LENGTH.At(15) == 0x00000000
  {
    WordsAt(LENGTH);
    hide Sixteen.At;
  }

  lemma Length1(q0: Regs, q1: Regs) returns (q: Regs)
    requires Run(q0, LENGTH, 0) == q1 == Regs(0x83fd320b, 0xdefbe5cf, 0xa9b1642f, 0xfa6f932a)
    ensures Run(q0, LENGTH, 16) == q == Regs(0xa70737da, 0xa36f556f, 0x96f6586e, 0x5473f8a7)
  {
    Tables1();
    LengthAt();
    hide Run, Place, ShiftBits, SineBits, Sixteen.At;
    q := q1;
    q := Turn(q0, LENGTH, 0, q, 0x00000000, 7, 0xd76aa478, 0xeda23ed1);
    q := Turn(q0, LENGTH, 1, q, 0x00000000, 12, 0xe8c7b756, 0x989939cf);
    q := Turn(q0, LENGTH, 2, q, 0x00000000, 17, 0x242070db, 0x3c307338);
    q := Turn(q0, LENGTH, 3, q, 0x00000000, 22, 0xc1bdceee, 0xddcf0634);
    q := Turn(q0, LENGTH, 4, q, 0x00000000, 7, 0xf57c0faf, 0x75144433);
    q := Turn(q0, LENGTH, 5, q, 0x00000000, 12, 0x4787c62a, 0xc8875807);
    q := Turn(q0, LENGTH, 6, q, 0x00000000, 17, 0xa8304613, 0xc783cb60);
    q := Turn(q0, LENGTH, 7, q, 0x00000000, 22, 0xfd469501, 0x99b6b699);
    q := Turn(q0, LENGTH, 8, q, 0x00000000, 7, 0x698098d8, 0xa60a3f69);
    q := Turn(q0, LENGTH, 9, q, 0x00000000, 12, 0x8b44f7af, 0xaa6630be);
    q := Turn(q0, LENGTH, 10, q, 0x00000000, 17, 0xffff5bb1, 0x64db26e9);
    q := Turn(q0, LENGTH, 11, q, 0x00000000, 22, 0x895cd7be, 0x64cc7c5a);
    q := Turn(q0, LENGTH, 12, q, 0x00000000, 7, 0x6b901122, 0xa70737da);
    q := Turn(q0, LENGTH, 13, q, 0x00000000, 12, 0xfd987193, 0x5473f8a7);
    q := Turn(q0, LENGTH, 14, q, 0x000001f0, 17, 0xa679438e, 0x96f6586e);
    q := Turn(q0, LENGTH, 15, q, 0x00000000, 22, 0x49b40821, 0xa36f556f);
  }

  lemma Length2(q0: Regs, q1: Regs) returns (q: Regs)
    requires Run(q0, LENGTH, 16) == q1 == Regs(0xa70737da, 0xa36f556f, 0x96f6586e, 0x5473f8a7)
    ensures Run(q0, LENGTH, 32) == q == Regs(0x24eba695, 0x9c03e2e8, 0x10c42a2f, 0x4bd0378b)
  {
    Tables2();
    LengthAt();
    hide Run, Place, ShiftBits, SineBits, Sixteen.At;
    q := q1;
    q := Turn(q0, LENGTH, 16, q, 0x00000000, 5, 0xf61e2562, 0xa5050ad3);
    q := Turn(q0, LENGTH, 17, q, 0x00000000, 9, 0xc040b340, 0x28776046);
    q := Turn(q0, LENGTH, 18, q, 0x00000000, 14, 0x265e5a51, 0x27dcd8b4);
    q := Turn(q0, LENGTH, 19, q, 0x00000000, 20, 0xe9b6c7aa, 0x82b8827c);
    q := Turn(q0, LENGTH, 20, q, 0x00000000, 5, 0xd62f105d, 0xe04f070c);
    q := Turn(q0, LENGTH, 21, q, 0x00000000, 9, 0x02441453, 0x2f3cd2a2);
    q := Turn(q0, LENGTH, 22, q, 0x00000000, 14, 0xd8a1e681, 0xc0d22b61);
    q := Turn(q0, LENGTH, 23, q, 0x00000000, 20, 0xe7d3fbc8, 0xdf35cb56);
    q := Turn(q0, LENGTH, 24, q, 0x00000000, 5, 0x21e1cde6, 0x242dd210);
    q := Turn(q0, LENGTH, 25, q, 0x000001f0, 9, 0xc33707d6, 0x576ace33);
    q := Turn(q0, LENGTH, 26, q, 0x00000000, 14, 0xf4d50d87, 0x5c295967);
    q := Turn(q0, LENGTH, 27, q, 0x00000000, 20, 0x455a14ed, 0x2291191a);
    q := Turn(q0, LENGTH, 28, q, 0x00000000, 5, 0xa9e3e905, 0x24eba695);
    q := Turn(q0, LENGTH, 29, q, 0x00000000, 9, 0xfcefa3f8, 0x4bd0378b);
    q := Turn(q0, LENGTH, 30, q, 0x00000000, 14, 0x676f02d9, 0x10c42a2f);
    q := Turn(q0, LENGTH, 31, q, 0x00000000, 20, 0x8d2a4c8a, 0x9c03e2e8);
  }

  lemma Length3(q0: Regs, q1: Regs) returns (q: Regs)
    requires Run(q0, LENGTH, 32) == q1 == Regs(0x24eba695, 0x9c03e2e8, 0x10c42a2f, 0x4bd0378b)
    ensures Run(q0, LENGTH, 48) == q == Regs(0x54c9eb3a, 0x79c0710a, 0x2ec86f72, 0xd4d9c6ac)
  {
    Tables3();
    LengthAt();
    hide Run, Place, ShiftBits, SineBits, Sixteen.At;
    q := q1;
    q := Turn(q0, LENGTH, 32, q, 0x00000000, 4, 0xfffa3942, 0x5be1d526);
    q := Turn(q0, LENGTH, 33, q, 0x00000000, 11, 0x8771f681, 0x9e414279);
    q := Turn(q0, LENGTH, 34, q, 0x00000000, 16, 0x6d9d6122, 0x9f4a1a7e);
    q := Turn(q0, LENGTH, 35, q, 0x000001f0, 23, 0xfde5380c, 0xa2448453);
    q := Turn(q0, LENGTH, 36, q, 0x00000000, 4, 0xa4beea44, 0xe14e403d);
    q := Turn(q0, LENGTH, 37, q, 0x00000000, 11, 0x4bdecfa9, 0xe8cfd670);
    q := Turn(q0, LENGTH, 38, q, 0x00000000, 16, 0xf6bb4b60, 0x60cc183a);
    q := Turn(q0, LENGTH, 39, q, 0x00000000, 23, 0xbebfbc70, 0xfe314121);
    q := Turn(q0, LENGTH, 40, q, 0x00000000, 4, 0x289b7ec6, 0xfff62809);
    q := Turn(q0, LENGTH, 41, q, 0x00000000, 11, 0xeaa127fa, 0xe37209ac);
    q := Turn(q0, LENGTH, 42, q, 0x00000000, 16, 0xd4ef3085, 0x8cb5221c);
    q := Turn(q0, LENGTH, 43, q, 0x00000000, 23, 0x04881d05, 0x7c7e974c);
    q := Turn(q0, LENGTH, 44, q, 0x00000000, 4, 0xd9d4d039, 0x54c9eb3a);
    q := Turn(q0, LENGTH, 45, q, 0x00000000, 11, 0xe6db99e5, 0xd4d9c6ac);
    q := Turn(q0, LENGTH, 46, q, 0x00000000, 16, 0x1fa27cf8, 0x2ec86f72);
    q := Turn(q0, LENGTH, 47, q, 0x00000000, 23, 0xc4ac5665, 0x79c0710a);
  }

  lemma Length4(q0: Regs, q1: Regs) returns (q: Regs)
    requires Run(q0, LENGTH, 48) == q1 == Regs(0x54c9eb3a, 0x79c0710a, 0x2ec86f72, 0xd4d9c6ac)
    ensures Run(q0, LENGTH, 64) == q == Regs(0x14ae42c6, 0x16dd9203, 0x826afd76, 0xa52dae75)
  {
    Tables4();
    LengthAt();
    hide Run, Place, ShiftBits, SineBits, Sixteen.At;
    q := q1;
    q := Turn(q0, LENGTH, 48, q, 0x00000000, 6, 0xf4292244, 0x02095af1);
    q := Turn(q0, LENGTH, 49, q, 0x00000000, 10, 0x432aff97, 0x13d245fd);
    q := Turn(q0, LENGTH, 50, q, 0x000001f0, 15, 0xab9423a7, 0xa8dcfe26);
    q := Turn(q0, LENGTH, 51, q, 0x00000000, 21, 0xfc93a039, 0x2ba98e3f);
    q := Turn(q0, LENGTH, 52, q, 0x00000000, 6, 0x655b59c3, 0xe126c1aa);
    q := Turn(q0, LENGTH, 53, q, 0x00000000, 10, 0x8f0ccc92, 0x96b00fa7);
    q := Turn(q0, LENGTH, 54, q, 0x00000000, 15, 0xffeff47d, 0x6f287ff5);
    q := Turn(q0, LENGTH, 55, q, 0x00000000, 21, 0x85845dd1, 0xfb7bcee0);
    q := Turn(q0, LENGTH, 56, q, 0x00000000, 6, 0x6fa87e4f, 0x452c1099);
    q := Turn(q0, LENGTH, 57, q, 0x00000000, 10, 0xfe2ce6e0, 0xca801ba6);
    q := Turn(q0, LENGTH, 58, q, 0x00000000, 15, 0xa3014314, 0xc197ea8e);
    q := Turn(q0, LENGTH, 59, q, 0x00000000, 21, 0x4e0811a1, 0x5ac74608);
    q := Turn(q0, LENGTH, 60, q, 0x00000000, 6, 0xf7537e82, 0x14ae42c6);
    q := Turn(q0, LENGTH, 61, q, 0x00000000, 10, 0xbd3af235, 0xa52dae75);
    q := Turn(q0, LENGTH, 62, q, 0x00000000, 15, 0x2ad7d2bb, 0x826afd76);
    q := Turn(q0, LENGTH, 63, q, 0x00000000, 21, 0xeb86d391, 0x16dd9203);
  }

  lemma LengthTotal()
    ensures Total(Regs(0x83fd320b, 0xdefbe5cf, 0xa9b1642f, 0xfa6f932a), LENGTH) ==
      Regs(0x98ab74d1, 0xf5d977d2, 0x2c1c61a5, 0x9f9d419f)
  {
    hide Run;
    Start(Regs(0x83fd320b, 0xdefbe5cf, 0xa9b1642f, 0xfa6f932a), LENGTH);
    var q0 := Regs(0x83fd320b, 0xdefbe5cf, 0xa9b1642f, 0xfa6f932a);
    var q := Length1(q0, q0);
    q := Length2(Regs(0x83fd320b, 0xdefbe5cf, 0xa9b1642f, 0xfa6f932a), q);
    q := Length3(Regs(0x83fd320b, 0xdefbe5cf, 0xa9b1642f, 0xfa6f932a), q);
    q := Length4(Regs(0x83fd320b, 0xdefbe5cf, 0xa9b1642f, 0xfa6f932a), q);
  }

  // ---- Digests ----

  lemma EmptyWords()
    ensures EMPTY.Are(Words(Padded([], Length64(0))))
  {
    var p := Padded([], Length64(0));
    assert p == [0x80] + ZeroBytes(63);
    assert Num(0) == 0 && Num(0x80) == 0x80;
    hide Num;
    forall k | 0 <= k < 16
      ensures Words(p)[k] == Num(EMPTY.At(k))
    {
    }
  }

  /** The digest of a message that fills one block with its padding. */
  lemma OneBlock(m: seq<byte>, x: Sixteen, q: Regs)
    requires var p := Padded(m, Length64(|m|)); |p| == BLOCK && x.Are(Words(p))
    requires Total(STARTBITS, x) == q
    ensures Digest(m) == Output(q.Nums())
  {
    hide Padded, Words, Transformed, Total, Sixteen.Are, Output, Regs.Nums;
    var p := Padded(m, Length64(|m|));
    StartIs();
    TotalIs(STARTBITS, x, Words(p));
    FoldedMore([], p);
    assert [] + p == p && Folded([]) == START;
  }

  lemma TwoBlocks(m: seq<byte>, x: Sixteen, y: Sixteen, q: Regs, r: Regs)
    requires var p := Padded(m, Length64(|m|)); |p| == 2 * BLOCK && x.Are(Words(p[..BLOCK])) && y.Are(Words(p[BLOCK..]))
    requires Total(STARTBITS, x) == q && Total(q, y) == r
    ensures Digest(m) == Output(r.Nums())
  {
    hide Padded, Words, Transformed, Total, Sixteen.Are, Output, Regs.Nums;
    var p := Padded(m, Length64(|m|));
    StartIs();
    var a, b := p[..BLOCK], p[BLOCK..];
    TotalIs(STARTBITS, x, Words(a));
    TotalIs(q, y, Words(b));
    FoldedMore([], a);
    assert [] + a == a && Folded([]) == START;
    FoldedMore(a, b);
    assert a + b == p;
  }

  function Ascii(s: string): (r: seq<byte>)
    ensures |r| == |s| && forall i | 0 <= i < |s| :: r[i] == s[i] as nat % 0x100
  {
    seq(|s|, i requires 0 <= i < |s| => s[i] as nat % 0x100)
  }

  const TEXT: string := "ABCDEFGHIJKLMNOPQRSTUVWXYZ" + "abcdefghijklmnopqrstuvwxyz" + "0123456789"

  lemma TextWords1()
    ensures WordAt(Ascii(TEXT), 0) == 0x44434241
    ensures WordAt(Ascii(TEXT), 1) == 0x48474645
    ensures WordAt(Ascii(TEXT), 2) == 0x4c4b4a49
  {
  }

  lemma TextWords2()
    ensures WordAt(Ascii(TEXT), 3) == 0x504f4e4d
    ensures WordAt(Ascii(TEXT), 4) == 0x54535251
    ensures WordAt(Ascii(TEXT), 5) == 0x58575655
  {
  }

  lemma TextWords3()
    ensures WordAt(Ascii(TEXT), 6) == 0x62615a59
    ensures WordAt(Ascii(TEXT), 7) == 0x66656463
    ensures WordAt(Ascii(TEXT), 8) == 0x6a696867
  {
  }

  lemma TextWords4()
    ensures WordAt(Ascii(TEXT), 9) == 0x6e6d6c6b
    ensures WordAt(Ascii(TEXT), 10) == 0x7271706f
    ensures WordAt(Ascii(TEXT), 11) == 0x76757473
  {
  }

  lemma TextWords5()
    ensures WordAt(Ascii(TEXT), 12) == 0x7a797877
    ensures WordAt(Ascii(TEXT), 13) == 0x33323130
    ensures WordAt(Ascii(TEXT), 14) == 0x37363534
  {
  }

  lemma LettersNums1()
    ensures Num(0x44434241) == 0x44434241 && Num(0x48474645) == 0x48474645 && Num(0x4c4b4a49) == 0x4c4b4a49
    ensures Num(0x504f4e4d) == 0x504f4e4d
    ensures Num(0x54535251) == 0x54535251 && Num(0x58575655) == 0x58575655 && Num(0x62615a59) == 0x62615a59
    ensures Num(0x66656463) == 0x66656463
  {
  }

  lemma LettersNums2()
    ensures Num(0x6a696867) == 0x6a696867 && Num(0x6e6d6c6b) == 0x6e6d6c6b && Num(0x7271706f) == 0x7271706f
    ensures Num(0x76757473) == 0x76757473
    ensures Num(0x7a797877) == 0x7a797877 && Num(0x33323130) == 0x33323130 && Num(0x37363534) == 0x37363534
    ensures Num(0x00803938) == 0x00803938
  {
  }

  lemma TextBlocks()
    ensures var p, t := Padded(Ascii(TEXT), Length64(62)), Ascii(TEXT);
      |p| == 128 && p[..BLOCK] == t + [0x80, 0] && p[BLOCK..] == ZeroBytes(56) + [0xf0, 1, 0, 0, 0, 0, 0, 0]
  {
    hide Ascii;
    var t := Ascii(TEXT);
    assert Length64(62) == [0xf0, 1, 0, 0, 0, 0, 0, 0];
    assert ZeroBytes(57) == [0] + ZeroBytes(56);
    assert Padded(t, Length64(62)) == (t + [0x80, 0]) + (ZeroBytes(56) + [0xf0, 1, 0, 0, 0, 0, 0, 0]);
  }

  lemma AreThese(x: Sixteen, xs: seq<nat>)
    requires |xs| == 16
    requires xs[0] == Num(x.At(0)) && xs[1] == Num(x.At(1)) && xs[2] == Num(x.At(2)) && xs[3] == Num(x.At(3))
    requires xs[4] == Num(x.At(4)) && xs[5] == Num(x.At(5)) && xs[6] == Num(x.At(6)) && xs[7] == Num(x.At(7))
    requires xs[8] == Num(x.At(8)) && xs[9] == Num(x.At(9)) && xs[10] == Num(x.At(10)) && xs[11] == Num(x.At(11))
    requires xs[12] == Num(x.At(12)) && xs[13] == Num(x.At(13)) && xs[14] == Num(x.At(14)) && xs[15] == Num(x.At(15))
    ensures x.Are(xs)
  {
    hide Num, Sixteen.At;
    forall k | 0 <= k < 16
      ensures xs[k] == Num(x.At(k))
    {
    }
  }

  lemma LastText()
    ensures WordAt(Ascii(TEXT) + [0x80, 0], 15) == 0x00803938
  {
    assert TEXT[60] == '8' && TEXT[61] == '9';
  }

  lemma TextThen(more: seq<byte>)
    ensures forall k | 0 <= k < 15 :: WordAt(Ascii(TEXT) + more, k) == WordAt(Ascii(TEXT), k)
  {
  }

  lemma LettersWords()
    ensures LETTERS.Are(Words(Ascii(TEXT) + [0x80, 0]))
  {
    TextWords1();
    TextWords2();
    TextWords3();
    TextWords4();
    TextWords5();
    LettersNums1();
    LettersNums2();
    LettersAt();
    var b := Ascii(TEXT) + [0x80, 0];
    assert TEXT[60] == '8' && TEXT[61] == '9';
    LastText();
    TextThen([0x80, 0]);
    hide Num, Sixteen.At, Ascii, WordAt, Sixteen.Are;
    AreThese(LETTERS, Words(b));
  }

  lemma LengthWords()
    ensures LENGTH.Are(Words(ZeroBytes(56) + [0xf0, 1, 0, 0, 0, 0, 0, 0]))
  {
    assert Num(0) == 0 && Num(0x1f0) == 0x1f0;
    LengthAt();
    hide Num, Sixteen.At;
    var b := ZeroBytes(56) + [0xf0, 1, 0, 0, 0, 0, 0, 0];
    assert WordAt(b, 14) == 0x1f0 && WordAt(b, 15) == 0;
    forall k | 0 <= k < 14
      ensures WordAt(b, k) == 0
    {
    }
  }

  lemma HexMore(s: seq<byte>)
    requires s != []
    ensures var h, l := s[|s| - 1] / 16, s[|s| - 1] % 16;
      Hex(s) == Hex(s[..|s| - 1]) + [HEX[h], HEX[l]]
  {
  }

  lemma DigitOf(n: nat)
    requires n < 16
    ensures HEX[n] as nat == if n < 10 then 48 + n else 87 + n
  {
  }

  lemma {:induction false} HexAt(s: seq<byte>, i: nat)
    requires i < |s|
    ensures |Hex(s)| == 2 * |s| && SpellsByte(Hex(s)[2 * i], Hex(s)[2 * i + 1], s[i])
  {
    hide Hex;
    HexMore(s);
    HexNone();
    if i < |s| - 1 {
      HexAt(s[..|s| - 1], i);
    } else {
      if i > 0 {
        HexAt(s[..|s| - 1], i - 1);
      }
      DigitOf(s[i] / 16);
      DigitOf(s[i] % 16);
    }
  }

  /** The two digits of every byte. */
  predicate Spells(h: string, s: seq<byte>) {
    |h| == 2 * |s| && forall i | 0 <= i < |s| :: SpellsByte(h[2 * i], h[2 * i + 1], s[i])
  }

  predicate SpellsByte(a: char, b: char, n: byte) {
    && a as nat == (if n / 16 < 10 then 48 + n / 16 else 87 + n / 16)
    && b as nat == (if n % 16 < 10 then 48 + n % 16 else 87 + n % 16)
  }

  lemma SpellsBoth(h: string, s: seq<byte>, g: string, t: seq<byte>)
    requires Spells(h, s) && Spells(g, t)
    ensures Spells(h + g, s + t)
  {
    hide SpellsByte;
    forall i | 0 <= i < |s + t|
      ensures SpellsByte((h + g)[2 * i], (h + g)[2 * i + 1], (s + t)[i])
    {
      if i >= |s| {
        var k := i - |s|;
        assert (h + g)[2 * i] == g[2 * k] && (h + g)[2 * i + 1] == g[2 * k + 1];
      }
    }
  }

  lemma HexSpells(s: seq<byte>, h: string)
    requires Spells(h, s)
    ensures Hex(s) == h
  {
    hide Hex;
    if s != [] {
      HexAt(s, 0);
    } else {
      HexNone();
    }
    forall k | 0 <= k < |h|
      ensures |Hex(s)| == |h| && Hex(s)[k] == h[k]
    {
      HexAt(s, k / 2);
    }
  }

  lemma HexNone()
    ensures Hex([]) == ""
  {
  }

  lemma EmptyDigest()
    ensures Digest([]) == [0xd4, 0x1d, 0x8c, 0xd9, 0x8f, 0x00, 0xb2, 0x04,
      0xe9, 0x80, 0x09, 0x98, 0xec, 0xf8, 0x42, 0x7e]
  {
    EmptyWords();
    EmptyPadded();
    hide Digest, Total, Output, Sixteen.Are, Padded, Words;
    var q := Total(STARTBITS, EMPTY);
    OneBlock([], EMPTY, q);
    EmptyTotal();
    EmptyOutput(q);
  }

  lemma EmptyOutput(q: Regs)
    requires q == Regs(0xd98c1dd4, 0x04b2008f, 0x980980e9, 0x7e42f8ec)
    ensures Output(q.Nums()) == [0xd4, 0x1d, 0x8c, 0xd9, 0x8f, 0x00, 0xb2, 0x04,
      0xe9, 0x80, 0x09, 0x98, 0xec, 0xf8, 0x42, 0x7e]
  {
    EmptyNums();
    EmptyBytes();
    hide Num, WordBytes;
  }

  lemma EmptyNums()
    ensures Num(0xd98c1dd4) == 0xd98c1dd4 && Num(0x04b2008f) == 0x04b2008f
    ensures Num(0x980980e9) == 0x980980e9 && Num(0x7e42f8ec) == 0x7e42f8ec
  {
  }

  lemma EmptyBytes()
    ensures WordBytes(0xd98c1dd4) == [0xd4, 0x1d, 0x8c, 0xd9]
    ensures WordBytes(0x04b2008f) == [0x8f, 0x00, 0xb2, 0x04]
    ensures WordBytes(0x980980e9) == [0xe9, 0x80, 0x09, 0x98]
    ensures WordBytes(0x7e42f8ec) == [0xec, 0xf8, 0x42, 0x7e]
  {
  }

  /** Section A.5 of RFC 1321: the digest of no bytes. */
  lemma EmptyHex()
    ensures Hex(Digest([])) == "d41d8cd9" + "8f00b204" + ("e9800998" + "ecf8427e")
  {
    EmptyDigest();
    hide Digest, Hex, Spells;
    var d, h := Digest([]), "d41d8cd9" + "8f00b204" + ("e9800998" + "ecf8427e");
    EmptySpelled(d, h);
    HexSpells(d, h);
  }

  lemma EmptySpelled(d: seq<byte>, h: string)
    requires d ==
      [0xd4, 0x1d, 0x8c, 0xd9] + [0x8f, 0x00, 0xb2, 0x04] + ([0xe9, 0x80, 0x09, 0x98] + [0xec, 0xf8, 0x42, 0x7e])
    requires h == "d41d8cd9" + "8f00b204" + ("e9800998" + "ecf8427e")
    ensures Spells(h, d)
  {
    SpellEmpty1();
    SpellEmpty2();
    SpellEmpty3();
    SpellEmpty4();
    hide Spells;
    var front: seq<byte> := [0xd4, 0x1d, 0x8c, 0xd9] + [0x8f, 0x00, 0xb2, 0x04];
    var back: seq<byte> := [0xe9, 0x80, 0x09, 0x98] + [0xec, 0xf8, 0x42, 0x7e];
    SpellsBoth("d41d8cd9", [0xd4, 0x1d, 0x8c, 0xd9], "8f00b204", [0x8f, 0x00, 0xb2, 0x04]);
    SpellsBoth("e9800998", [0xe9, 0x80, 0x09, 0x98], "ecf8427e", [0xec, 0xf8, 0x42, 0x7e]);
    SpellsBoth("d41d8cd9" + "8f00b204", front, "e9800998" + "ecf8427e", back);
  }

  lemma SpellEmpty1()
    ensures Spells("d41d8cd9", [0xd4, 0x1d, 0x8c, 0xd9])
  {
  }

  lemma SpellEmpty2()
    ensures Spells("8f00b204", [0x8f, 0x00, 0xb2, 0x04])
  {
  }

  lemma SpellEmpty3()
    ensures Spells("e9800998", [0xe9, 0x80, 0x09, 0x98])
  {
  }

  lemma SpellEmpty4()
    ensures Spells("ecf8427e", [0xec, 0xf8, 0x42, 0x7e])
  {
  }

  lemma EmptyPadded()
    ensures |Padded([], Length64(0))| == BLOCK
  {
  }

  lemma TextDigest()
    ensures Digest(Ascii(TEXT)) == [0xd1, 0x74, 0xab, 0x98, 0xd2, 0x77, 0xd9, 0xf5,
      0xa5, 0x61, 0x1c, 0x2c, 0x9f, 0x41, 0x9d, 0x9f]
  {
    TextBlocks();
    LettersWords();
    LengthWords();
    hide Digest, Total, Output, Sixteen.Are, Padded, Words, Ascii;
    var q := Total(STARTBITS, LETTERS);
    LettersTotal();
    LengthTotal();
    TwoBlocks(Ascii(TEXT), LETTERS, LENGTH, q, Total(q, LENGTH));
    TextOutput(Total(q, LENGTH));
  }

  lemma TextOutput(q: Regs)
    requires q == Regs(0x98ab74d1, 0xf5d977d2, 0x2c1c61a5, 0x9f9d419f)
    ensures Output(q.Nums()) == [0xd1, 0x74, 0xab, 0x98, 0xd2, 0x77, 0xd9, 0xf5,
      0xa5, 0x61, 0x1c, 0x2c, 0x9f, 0x41, 0x9d, 0x9f]
  {
    TextNums();
    TextBytes();
    hide Num, WordBytes;
  }

  lemma TextNums()
    ensures Num(0x98ab74d1) == 0x98ab74d1 && Num(0xf5d977d2) == 0xf5d977d2
    ensures Num(0x2c1c61a5) == 0x2c1c61a5 && Num(0x9f9d419f) == 0x9f9d419f
  {
  }

  lemma TextBytes()
    ensures WordBytes(0x98ab74d1) == [0xd1, 0x74, 0xab, 0x98]
    ensures WordBytes(0xf5d977d2) == [0xd2, 0x77, 0xd9, 0xf5]
    ensures WordBytes(0x2c1c61a5) == [0xa5, 0x61, 0x1c, 0x2c]
    ensures WordBytes(0x9f9d419f) == [0x9f, 0x41, 0x9d, 0x9f]
  {
  }

  /** Section A.5 of RFC 1321: the digest of the letters and digits. */
  lemma TextHex()
    ensures Hex(Digest(Ascii(TEXT))) == "d174ab98" + "d277d9f5" + ("a5611c2c" + "9f419d9f")
  {
    TextDigest();
    hide Digest, Hex, Spells;
    var d, h := Digest(Ascii(TEXT)), "d174ab98" + "d277d9f5" + ("a5611c2c" + "9f419d9f");
    TextSpelled(d, h);
    HexSpells(d, h);
  }

  lemma TextSpelled(d: seq<byte>, h: string)
    requires d ==
      [0xd1, 0x74, 0xab, 0x98] + [0xd2, 0x77, 0xd9, 0xf5] + ([0xa5, 0x61, 0x1c, 0x2c] + [0x9f, 0x41, 0x9d, 0x9f])
    requires h == "d174ab98" + "d277d9f5" + ("a5611c2c" + "9f419d9f")
    ensures Spells(h, d)
  {
    SpellText1();
    SpellText2();
    SpellText3();
    SpellText4();
    hide Spells;
    var front: seq<byte> := [0xd1, 0x74, 0xab, 0x98] + [0xd2, 0x77, 0xd9, 0xf5];
    var back: seq<byte> := [0xa5, 0x61, 0x1c, 0x2c] + [0x9f, 0x41, 0x9d, 0x9f];
    SpellsBoth("d174ab98", [0xd1, 0x74, 0xab, 0x98], "d277d9f5", [0xd2, 0x77, 0xd9, 0xf5]);
    SpellsBoth("a5611c2c", [0xa5, 0x61, 0x1c, 0x2c], "9f419d9f", [0x9f, 0x41, 0x9d, 0x9f]);
    SpellsBoth("d174ab98" + "d277d9f5", front, "a5611c2c" + "9f419d9f", back);
  }

  lemma SpellText1()
    ensures Spells("d174ab98", [0xd1, 0x74, 0xab, 0x98])
  {
  }

  lemma SpellText2()
    ensures Spells("d277d9f5", [0xd2, 0x77, 0xd9, 0xf5])
  {
  }

  lemma SpellText3()
    ensures Spells("a5611c2c", [0xa5, 0x61, 0x1c, 0x2c])
  {
  }

  lemma SpellText4()
    ensures Spells("9f419d9f", [0x9f, 0x41, 0x9d, 0x9f])
  {
  }

  // ---- HMAC ----

  /** The bytes with the same mask on each. */
  function Masking(k: seq<bv8>, mask: bv8): (r: seq<byte>)
    ensures |r| == |k|
  {
    seq(|k|, i requires 0 <= i < |k| => N(k[i] ^ mask))
  }

  /** HMAC-MD5 is the digest of the masked key, of 64 bytes, and the digest of the key
      masked otherwise and the text; a key of more than 64 bytes is digested first. */
  lemma HmacIs(key: seq<byte>, text: seq<byte>, k: seq<bv8>)
    requires |k| == 64
    requires |key| <= 64 ==> forall i | 0 <= i < 64 :: N(k[i]) == if i < |key| then key[i] else 0
    requires |key| > 64 ==> forall i | 0 <= i < 64 :: N(k[i]) == if i < 16 then Digest(key)[i] else 0
    ensures Hmac(key, text) == Digest(Masking(k, 0x5c) + Digest(Masking(k, 0x36) + text))
  {
    hide Digest, Masking, Masked;
    MaskingIs(k, BlockKey(key), 0x5c);
    MaskingIs(k, BlockKey(key), 0x36);
  }

  lemma MaskingIs(k: seq<bv8>, b: seq<byte>, mask: bv8)
    requires |k| == |b| && forall i | 0 <= i < |k| :: N(k[i]) == b[i]
    ensures Masked(b, N(mask)) == Masking(k, mask)
    ensures N(0x5c) == 0x5c && N(0x36) == 0x36
  {
    assert N(0x5c) == 0x5c && N(0x36) == 0x36;
    hide N, Xor8;
    forall i | 0 <= i < |k|
      ensures Masked(b, N(mask))[i] == Masking(k, mask)[i]
    {
      ByteXor(k[i], mask);
      XorIs(k[i], mask);
    }
  }

  lemma XorIs(x: bv8, y: bv8)
    ensures Xor8(x, y) == x ^ y
  {
  }
}
