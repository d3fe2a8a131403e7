/** The words and steps of RFC 1321 on bit vectors. */
module Md5Bits {
  import opened Bits
  import opened Md5Words
  import opened Md5

  // ---- Bit operations by bytes ----

  lemma {:induction false} BitwiseSplit(op: (bool, bool) -> bool, h: nat, l: nat, h': nat, l': nat, k: nat)
    requires !op(false, false) && l < Pow2(k) && l' < Pow2(k)
    ensures Bitwise(op, Up(h, k) + l, Up(h', k) + l') == Up(Bitwise(op, h, h'), k) + Bitwise(op, l, l')
  {
    hide Bitwise, Bit;
    if k == 0 {
      BitwiseZero(op);
    } else {
      BitwiseSplit(op, h, l / 2, h', l' / 2, k - 1);
      UpTwice(h, k);
      UpTwice(h', k);
      UpTwice(Bitwise(op, h, h'), k);
      var a, b := Up(h, k - 1), Up(h', k - 1);
      hide Up, Pow2;
      PartsJoin(op, 2 * a + l, 2 * b + l', a + l / 2, b + l' / 2, l % 2, l' % 2);
      PartsJoin(op, l, l', l / 2, l' / 2, l % 2, l' % 2);
    }
  }

  lemma UpTwice(a: nat, k: nat)
    requires k > 0
    ensures Up(a, k) == 2 * Up(a, k - 1)
  {
  }

  /** The number of a byte. */
  function N(x: bv8): (n: nat)
    ensures n < 0x100
  {
    x as nat
  }

  function Odd(x: bv8): nat {
    if x & 1 == 1 then 1 else 0
  }

  lemma Halves(x: bv8)
    ensures N(x) == Odd(x) + 2 * (N(x >> 1)) && (x != 0 ==> N(x >> 1) < N(x))
  {
  }

  /** The operation on bytes that does `op` to every bit. */
  ghost predicate DoesBits(op: (bool, bool) -> bool, f: (bv8, bv8) -> bv8) {
    && !op(false, false) && f(0, 0) == 0
    && forall x, y :: f(x, y) >> 1 == f(x >> 1, y >> 1) && Odd(f(x, y)) == Bit(op(Odd(x) == 1, Odd(y) == 1))
  }

  lemma {:induction false} OneByte(op: (bool, bool) -> bool, f: (bv8, bv8) -> bv8, x: bv8, y: bv8)
    requires DoesBits(op, f)
    ensures Bitwise(op, N(x), N(y)) == N(f(x, y))
    decreases N(x) + N(y)
  {
    hide Bitwise;
    if x == 0 && y == 0 {
      BitwiseZero(op);
    } else {
      Halves(x);
      Halves(y);
      Halves(f(x, y));
      OneByte(op, f, x >> 1, y >> 1);
      PartsJoin(op, N(x), N(y), N(x >> 1), N(y >> 1), Odd(x), Odd(y));
    }
  }

  function And8(x: bv8, y: bv8): bv8 {
    x & y
  }

  lemma ByteAnd(x: bv8, y: bv8)
    ensures And(N(x), N(y)) == N(And8(x, y))
  {
    hide Bitwise, N;
    OneByte(BOTH, (x: bv8, y: bv8) => And8(x, y), x, y);
  }

  function Or8(x: bv8, y: bv8): bv8 {
    x | y
  }

  lemma ByteOr(x: bv8, y: bv8)
    ensures Or(N(x), N(y)) == N(Or8(x, y))
  {
    hide Bitwise, N;
    OneByte(EITHER, (x: bv8, y: bv8) => Or8(x, y), x, y);
  }

  function Xor8(x: bv8, y: bv8): bv8 {
    x ^ y
  }

  lemma ByteXor(x: bv8, y: bv8)
    ensures Xor(N(x), N(y)) == N(Xor8(x, y))
  {
    hide Bitwise, N;
    OneByte(ONE, (x: bv8, y: bv8) => Xor8(x, y), x, y);
  }

  // ---- Words ----

  function B0(x: bv32): bv8 {
    (x & 0xff) as bv8
  }

  function B1(x: bv32): bv8 {
    ((x >> 8) & 0xff) as bv8
  }

  function B2(x: bv32): bv8 {
    ((x >> 16) & 0xff) as bv8
  }

  function B3(x: bv32): bv8 {
    (x >> 24) as bv8
  }

  /** The number of a word. */
  function Num(x: bv32): (n: nat)
    ensures n < WORD
  {
    N(B0(x)) + 0x100 * N(B1(x)) + 0x1_0000 * N(B2(x)) + 0x100_0000 * N(B3(x))
  }

  lemma UpIs(h: nat)
    ensures Up(h, 8) == 0x100 * h && Pow2(8) == 0x100
  {
    UpIsTimes(h, 8);
    PowersOf256();
  }

  /** Four digits of base 256. */
  function Join(a: nat, b: nat, c: nat, d: nat): nat {
    a + 0x100 * b + 0x1_0000 * c + 0x100_0000 * d
  }

  lemma BitwiseBytes(op: (bool, bool) -> bool, a0: nat, a1: nat, a2: nat, a3: nat, b0: nat, b1: nat, b2: nat, b3: nat)
    requires !op(false, false) && a0 < 0x100 && a1 < 0x100 && a2 < 0x100 && b0 < 0x100 && b1 < 0x100 && b2 < 0x100
    ensures Bitwise(op, Join(a0, a1, a2, a3), Join(b0, b1, b2, b3)) ==
      Join(Bitwise(op, a0, b0), Bitwise(op, a1, b1), Bitwise(op, a2, b2), Bitwise(op, a3, b3))
  {
    hide Bitwise;
    var h2, g2 := a2 + 0x100 * a3, b2 + 0x100 * b3;
    var h1, g1 := a1 + 0x100 * h2, b1 + 0x100 * g2;
    UpIs(a3);
    UpIs(b3);
    UpIs(h2);
    UpIs(g2);
    UpIs(h1);
    UpIs(g1);
    BitwiseSplit(op, a3, a2, b3, b2, 8);
    BitwiseSplit(op, h2, a1, g2, b1, 8);
    BitwiseSplit(op, h1, a0, g1, b0, 8);
    UpIs(Bitwise(op, a3, b3));
    UpIs(Bitwise(op, h2, g2));
    UpIs(Bitwise(op, h1, g1));
    hide Up, Pow2;
  }

  lemma ByteNot(x: bv8)
    ensures N(!x) == 255 - N(x)
  {
  }


  function AndBits(x: bv32, y: bv32): bv32 {
    x & y
  }

  function OrBits(x: bv32, y: bv32): bv32 {
    x | y
  }

  function XorBits(x: bv32, y: bv32): bv32 {
    x ^ y
  }

  function NotBits(x: bv32): bv32 {
    !x
  }

  function Plus(x: bv32, y: bv32): bv32 {
    x + y
  }

  function UpBits(x: bv32, s: bv8): bv32
    requires s <= 32
  {
    x << s
  }

  function DownBits(x: bv32, s: bv8): bv32
    requires s <= 32
  {
    x >> s
  }

  lemma BytesAnd(x: bv32, y: bv32)
    ensures B0(x & y) == And8(B0(x), B0(y)) && B1(x & y) == And8(B1(x), B1(y))
    ensures B2(x & y) == And8(B2(x), B2(y)) && B3(x & y) == And8(B3(x), B3(y))
  {
  }

  lemma BytesOr(x: bv32, y: bv32)
    ensures B0(x | y) == Or8(B0(x), B0(y)) && B1(x | y) == Or8(B1(x), B1(y))
    ensures B2(x | y) == Or8(B2(x), B2(y)) && B3(x | y) == Or8(B3(x), B3(y))
  {
  }

  lemma BytesXor(x: bv32, y: bv32)
    ensures B0(x ^ y) == Xor8(B0(x), B0(y)) && B1(x ^ y) == Xor8(B1(x), B1(y))
    ensures B2(x ^ y) == Xor8(B2(x), B2(y)) && B3(x ^ y) == Xor8(B3(x), B3(y))
  {
  }

  lemma BytesNot(x: bv32)
    ensures B0(!x) == !B0(x) && B1(!x) == !B1(x) && B2(!x) == !B2(x) && B3(!x) == !B3(x)
  {
  }

  lemma WordAnd(x: bv32, y: bv32)
    ensures And(Num(x), Num(y)) == Num(AndBits(x, y))
  {
    BytesAnd(x, y);
    hide Bitwise, N, And8, B0, B1, B2, B3;
    BitwiseBytes(BOTH, N(B0(x)), N(B1(x)), N(B2(x)), N(B3(x)), N(B0(y)), N(B1(y)), N(B2(y)), N(B3(y)));
    ByteAnd(B0(x), B0(y));
    ByteAnd(B1(x), B1(y));
    ByteAnd(B2(x), B2(y));
    ByteAnd(B3(x), B3(y));
  }

  lemma WordOr(x: bv32, y: bv32)
    ensures Or(Num(x), Num(y)) == Num(OrBits(x, y))
  {
    BytesOr(x, y);
    hide Bitwise, N, Or8, B0, B1, B2, B3;
    BitwiseBytes(EITHER, N(B0(x)), N(B1(x)), N(B2(x)), N(B3(x)), N(B0(y)), N(B1(y)), N(B2(y)), N(B3(y)));
    ByteOr(B0(x), B0(y));
    ByteOr(B1(x), B1(y));
    ByteOr(B2(x), B2(y));
    ByteOr(B3(x), B3(y));
  }

  lemma WordXor(x: bv32, y: bv32)
    ensures Xor(Num(x), Num(y)) == Num(XorBits(x, y))
  {
    BytesXor(x, y);
    hide Bitwise, N, Xor8, B0, B1, B2, B3;
    BitwiseBytes(ONE, N(B0(x)), N(B1(x)), N(B2(x)), N(B3(x)), N(B0(y)), N(B1(y)), N(B2(y)), N(B3(y)));
    ByteXor(B0(x), B0(y));
    ByteXor(B1(x), B1(y));
    ByteXor(B2(x), B2(y));
    ByteXor(B3(x), B3(y));
  }

  lemma WordNot(x: bv32)
    ensures Complement(Num(x)) == Num(NotBits(x))
  {
    BytesNot(x);
    ByteNot(B0(x));
    ByteNot(B1(x));
    ByteNot(B2(x));
    ByteNot(B3(x));
    hide N, B0, B1, B2, B3;
  }

  // ---- Sums and shifts ----

  /** A byte moved up by one bit, and the one below it. */
  lemma ByteTwice(x: bv8, y: bv8)
    ensures N((x << 1) | (y >> 7)) + 0x100 * N(x >> 7) == 2 * N(x) + N(y >> 7)
  {
  }

  lemma BytesTwice(x: bv32)
    ensures B0(x << 1) == (B0(x) << 1) | (0 >> 7) && B1(x << 1) == (B1(x) << 1) | (B0(x) >> 7)
    ensures B2(x << 1) == (B2(x) << 1) | (B1(x) >> 7) && B3(x << 1) == (B3(x) << 1) | (B2(x) >> 7)
  {
  }

  lemma WordTwice(x: bv32)
    ensures Num(x << 1) == 2 * Num(x) % WORD
  {
    BytesTwice(x);
    ByteTwice(B0(x), 0);
    ByteTwice(B1(x), B0(x));
    ByteTwice(B2(x), B1(x));
    ByteTwice(B3(x), B2(x));
    assert N(0 >> 7) == 0;
    hide N, B0, B1, B2, B3;
    DigitsTwice(N(B0(x)), N(B1(x)), N(B2(x)), N(B3(x)), N(B0(x << 1)), N(B1(x << 1)), N(B2(x << 1)), N(B3(x << 1)),
                N(B0(x) >> 7), N(B1(x) >> 7), N(B2(x) >> 7), N(B3(x) >> 7));
  }

  /** Four digits of base 256, doubled, with the carries `p` to `s`. */
  lemma DigitsTwice(a: nat, b: nat, c: nat, d: nat, a': nat, b': nat, c': nat, d': nat, p: nat, q: nat, r: nat, s: nat)
    requires a' + 0x100 * p == 2 * a && b' + 0x100 * q == 2 * b + p
    requires c' + 0x100 * r == 2 * c + q && d' + 0x100 * s == 2 * d + r
    requires a' < 0x100 && b' < 0x100 && c' < 0x100 && d' < 0x100
    ensures a' + 0x100 * b' + 0x1_0000 * c' + 0x100_0000 * d'
      == 2 * (a + 0x100 * b + 0x1_0000 * c + 0x100_0000 * d) % WORD
  {
    var v := a' + 0x100 * b' + 0x1_0000 * c' + 0x100_0000 * d';
    assert 2 * (a + 0x100 * b + 0x1_0000 * c + 0x100_0000 * d) == WORD * s + v;
    ModUnique(2 * (a + 0x100 * b + 0x1_0000 * c + 0x100_0000 * d), WORD, s, v);
  }

  lemma ByteNext(x: bv8, up: bool)
    ensures N(if up then x + 1 else x) == (if !up then N(x) else if N(x) == 0xff then 0 else N(x) + 1)
    ensures x == 0xff <==> N(x) == 0xff
  {
  }

  lemma BytesNext(x: bv32)
    ensures B0(x + 1) == B0(x) + 1 && B1(x + 1) == if B0(x) == 0xff then B1(x) + 1 else B1(x)
  {
  }

  lemma ThirdNext(x: bv32)
    ensures B2(x + 1) == if B0(x) == 0xff && B1(x) == 0xff then B2(x) + 1 else B2(x)
  {
  }

  lemma FourthNext(x: bv32)
    ensures B3(x + 1) == if B0(x) == 0xff && B1(x) == 0xff && B2(x) == 0xff then B3(x) + 1 else B3(x)
  {
  }

  /** Four digits of base 256, and those of the next number. */
  lemma DigitsNext(a: nat, b: nat, c: nat, d: nat)
    requires a < 0x100 && b < 0x100 && c < 0x100 && d < 0x100
    ensures var u1 := a == 0xff;
      var u2 := u1 && b == 0xff;
      var u3 := u2 && c == 0xff;
      (a + 0x100 * b + 0x1_0000 * c + 0x100_0000 * d + 1) % WORD
        == (if u1 then 0 else a + 1) + 0x100 * (if !u1 then b else if b == 0xff then 0 else b + 1)
          + 0x1_0000 * (if !u2 then c else if c == 0xff then 0 else c + 1)
          + 0x100_0000 * (if !u3 then d else if d == 0xff then 0 else d + 1)
  {
  }

  function NumNext(x: bv32): nat {
    Num(x + 1)
  }

  lemma WordNext(x: bv32)
    ensures NumNext(x) == (Num(x) + 1) % WORD
  {
    BytesNext(x);
    ThirdNext(x);
    FourthNext(x);
    hide N, B0, B1, B2, B3;
    var u1 := B0(x) == 0xff;
    var u2 := u1 && B1(x) == 0xff;
    ByteNext(B0(x), true);
    ByteNext(B1(x), u1);
    ByteNext(B2(x), u2);
    ByteNext(B3(x), u2 && B2(x) == 0xff);
    DigitsNext(N(B0(x)), N(B1(x)), N(B2(x)), N(B3(x)));
  }

  lemma NumZero(x: bv32)
    ensures Num(x) == 0 <==> x == 0
    ensures Plus(x, 0) == x
  {
  }

  lemma PlusNext(x: bv32, y: bv32)
    ensures Num(Plus(x, y)) == NumNext(Plus(x, y - 1)) && Num(y) == NumNext(y - 1)
  {
    hide Num;
    assert NumNext(x + (y - 1)) == Num(x + y);
  }

  lemma {:induction false} WordSum(x: bv32, y: bv32)
    ensures Num(Plus(x, y)) == (Num(x) + Num(y)) % WORD
    decreases Num(y)
  {
    NumZero(x);
    NumZero(y);
    hide Num, NumNext, Plus;
    if y != 0 {
      PlusNext(x, y);
      WordNext(y - 1);
      WordNext(Plus(x, y - 1));
      NextAlone(Num(y), Num(y - 1));
      WordSum(x, y - 1);
      NextSum(Num(x), Num(y - 1), Num(Plus(x, y - 1)));
    }
  }

  lemma NextAlone(y: nat, z: nat)
    requires 0 < y && z < WORD && y == (z + 1) % WORD
    ensures y == z + 1
  {
  }

  lemma NextSum(a: nat, b: nat, c: nat)
    requires a < WORD && b < WORD && c == (a + b) % WORD
    ensures (c + 1) % WORD == (a + (b + 1)) % WORD
  {
  }

  lemma SumAgain(a: nat, b: nat)
    ensures (a + b % WORD) % WORD == (a + b) % WORD
  {
    ModPlus(a + b % WORD, WORD, b / WORD);
  }

  lemma ByteBefore(s: bv8)
    ensures (N(s) > 0 <==> s > 0) && (s > 0 ==> N(s) == N(s - 1) + 1)
    ensures N(0) == 0 && (s == 0 || s > 0)
  {
  }

  function Twice(x: bv32): bv32 {
    x << 1
  }

  function Half(x: bv32): bv32 {
    x >> 1
  }

  lemma UpMore(x: bv32, s: bv8)
    requires s <= 32
    ensures s > 0 ==> s - 1 <= 32 && UpBits(x, s) == Twice(UpBits(x, s - 1))
    ensures UpBits(x, 0) == x
  {
  }

  lemma TwiceIs(x: bv32)
    ensures Num(Twice(x)) == 2 * Num(x) % WORD
  {
    WordTwice(x);
    hide Num;
  }

  lemma {:induction false} WordUp(x: bv32, s: bv8)
    requires s <= 32
    ensures Num(UpBits(x, s)) == Up(Num(x), N(s)) % WORD
    decreases N(s)
  {
    hide Num, N, UpBits, Twice;
    ByteBefore(s);
    UpMore(x, s);
    if N(s) > 0 {
      var r := s - 1;
      WordUp(x, r);
      UpOnce(UpBits(x, r), UpBits(x, s), Num(x), N(r));
    }
  }

  lemma UpOnce(y: bv32, z: bv32, n: nat, k: nat)
    requires z == Twice(y) && Num(y) == Up(n, k) % WORD
    ensures Num(z) == Up(n, k + 1) % WORD
  {
    hide Num, Twice;
    TwiceIs(y);
    TwiceAgain(Up(n, k));
  }

  lemma TwiceAgain(a: nat)
    ensures 2 * (a % WORD) % WORD == 2 * a % WORD
  {
    ModPlus(2 * (a % WORD), WORD, 2 * (a / WORD));
  }

  lemma DownMore(x: bv32, s: bv8)
    requires s <= 32
    ensures s > 0 ==> s - 1 <= 32 && DownBits(x, s) == Half(DownBits(x, s - 1))
    ensures DownBits(x, 0) == x
  {
  }

  /** A byte moved down by one bit, and the one above it. */
  lemma ByteHalf(x: bv8, y: bv8)
    ensures 2 * N((x >> 1) | (y << 7)) + N(x & 1) == N(x) + 0x100 * N(y & 1) && N(x & 1) <= 1
  {
  }

  lemma BytesHalf(x: bv32)
    ensures B0(x >> 1) == (B0(x) >> 1) | (B1(x) << 7) && B1(x >> 1) == (B1(x) >> 1) | (B2(x) << 7)
    ensures B2(x >> 1) == (B2(x) >> 1) | (B3(x) << 7) && B3(x >> 1) == (B3(x) >> 1) | (0 << 7)
  {
  }

  lemma WordHalf(x: bv32)
    ensures Num(x >> 1) == Num(x) / 2
  {
    BytesHalf(x);
    ByteHalf(B0(x), B1(x));
    ByteHalf(B1(x), B2(x));
    ByteHalf(B2(x), B3(x));
    ByteHalf(B3(x), 0);
    assert N(0 & 1) == 0;
    hide N, B0, B1, B2, B3;
    assert 2 * Num(x >> 1) + N(B0(x) & 1) == Num(x);
  }

  lemma HalfIs(x: bv32)
    ensures Num(Half(x)) == Num(x) / 2
  {
    WordHalf(x);
    hide Num;
  }

  lemma {:induction false} WordDown(x: bv32, s: bv8)
    requires s <= 32
    ensures Num(DownBits(x, s)) == Down(Num(x), N(s))
    decreases N(s)
  {
    hide Num, N, DownBits, Half;
    ByteBefore(s);
    DownMore(x, s);
    if N(s) > 0 {
      var r := s - 1;
      WordDown(x, r);
      HalfIs(DownBits(x, r));
    }
  }

  // ---- Steps ----

  datatype Regs = Regs(a: bv32, b: bv32, c: bv32, d: bv32) {
    function Nums(): (q: Quad)
      ensures q.Words()
    {
      Quad(Num(a), Num(b), Num(c), Num(d))
    }
  }

  function AuxiliaryBits(r: nat, x: bv32, y: bv32, z: bv32): bv32 {
    if r == 0 then (x & y) | (!x & z) else if r == 1 then (x & z) | (y & !z)
    else if r == 2 then x ^ y ^ z else y ^ (x | !z)
  }

  lemma SelectFirst(x: bv32, y: bv32, z: bv32)
    ensures (x & y) | (!x & z) == OrBits(AndBits(x, y), AndBits(NotBits(x), z))
  {
  }

  lemma SelectLast(x: bv32, y: bv32, z: bv32)
    ensures (x & z) | (y & !z) == OrBits(AndBits(x, z), AndBits(y, NotBits(z)))
  {
  }

  lemma Parity(x: bv32, y: bv32, z: bv32)
    ensures x ^ y ^ z == XorBits(XorBits(x, y), z)
  {
  }

  lemma Fourth(x: bv32, y: bv32, z: bv32)
    ensures y ^ (x | !z) == XorBits(y, OrBits(x, NotBits(z)))
  {
  }

  lemma WordMixes(x: bv32, y: bv32, z: bv32)
    ensures Num((x & y) | (!x & z)) == Or(And(Num(x), Num(y)), And(Complement(Num(x)), Num(z)))
    ensures Num((x & z) | (y & !z)) == Or(And(Num(x), Num(z)), And(Num(y), Complement(Num(z))))
  {
    SelectFirst(x, y, z);
    SelectLast(x, y, z);
    hide Num, And, Or, Complement, AndBits, OrBits, NotBits;
    WordNot(x);
    WordNot(z);
    WordAnd(x, y);
    WordAnd(NotBits(x), z);
    WordOr(AndBits(x, y), AndBits(NotBits(x), z));
    WordAnd(x, z);
    WordAnd(y, NotBits(z));
    WordOr(AndBits(x, z), AndBits(y, NotBits(z)));
  }

  lemma WordParities(x: bv32, y: bv32, z: bv32)
    ensures Num(x ^ y ^ z) == Xor(Xor(Num(x), Num(y)), Num(z))
    ensures Num(y ^ (x | !z)) == Xor(Num(y), Or(Num(x), Complement(Num(z))))
  {
    Parity(x, y, z);
    Fourth(x, y, z);
    hide Num, Or, Xor, Complement, OrBits, XorBits, NotBits;
    WordNot(z);
    WordXor(x, y);
    WordXor(XorBits(x, y), z);
    WordOr(x, NotBits(z));
    WordXor(y, OrBits(x, NotBits(z)));
  }

  lemma WordAuxiliary(r: nat, x: bv32, y: bv32, z: bv32)
    ensures Num(AuxiliaryBits(r, x, y, z)) == Auxiliary(r, Num(x), Num(y), Num(z))
  {
    hide Num, And, Or, Xor, Complement;
    WordMixes(x, y, z);
    WordParities(x, y, z);
  }

  function Rotated(x: bv32, s: bv8): bv32
    requires s <= 32
  {
    (x << s) | (x >> (32 - s))
  }

  lemma RotatedIs(x: bv32, s: bv8)
    requires s <= 32
    ensures Rotated(x, s) == OrBits(UpBits(x, s), DownBits(x, 32 - s))
  {
  }

  lemma ShiftsApart(x: bv32, s: bv8)
    requires 0 < s < 32
    ensures AndBits(UpBits(x, s), DownBits(x, 32 - s)) == 0
  {
  }

  lemma Disjoint(x: bv32, y: bv32)
    requires x & y == 0
    ensures x + y == x | y
  {
  }

  lemma ApartSum(x: bv32, y: bv32)
    requires AndBits(x, y) == 0
    ensures OrBits(x, y) == Plus(x, y)
  {
    Disjoint(x, y);
  }

  lemma ByteFrom32(s: bv8)
    requires 0 < s < 32
    ensures N(32 - s) == 32 - N(s) && 0 < N(s) < 32
  {
  }

  lemma WordRotated(x: bv32, s: bv8)
    requires 0 < s < 32
    ensures 0 < N(s) < 32 && Num(Rotated(x, s)) == RotateLeft(Num(x), N(s)) % WORD
  {
    RotatedIs(x, s);
    hide Num, N, Up, Down, Plus, AndBits, OrBits, UpBits, DownBits, Rotated;
    ByteFrom32(s);
    ShiftsApart(x, s);
    ApartSum(UpBits(x, s), DownBits(x, 32 - s));
    WordUp(x, s);
    WordDown(x, 32 - s);
    WordSum(UpBits(x, s), DownBits(x, 32 - s));
  }

  function Op(r: nat, q: Regs, x: bv32, s: bv8, k: bv32): Regs
    requires s <= 32
  {
    var sum := Plus(Plus(Plus(q.a, AuxiliaryBits(r, q.b, q.c, q.d)), x), k);
    Regs(q.d, Plus(q.b, Rotated(sum, s)), q.b, q.c)
  }

  lemma WordAdd(x: bv32, y: bv32)
    ensures Num(Plus(x, y)) == Add(Num(x), Num(y))
  {
    WordSum(x, y);
    hide Num, Plus;
  }

  lemma AddAgain(a: nat, b: nat)
    ensures Add(a, b % WORD) == Add(a, b)
  {
    SumAgain(a, b);
  }

  lemma OpIs(i: nat, q: Regs, x: bv32, s: bv8, k: bv32)
    requires 0 < s < 32 && N(s) == Shift(i) && Num(k) == Sine(i)
    ensures Op(i / 16, q, x, s, k).Nums() == Step(q.Nums(), i, Num(x))
  {
    hide Num, N, AuxiliaryBits, Auxiliary, Rotated, Sine, Shift, RotateLeft, Plus, Add;
    WordAuxiliary(i / 16, q.b, q.c, q.d);
    var f := AuxiliaryBits(i / 16, q.b, q.c, q.d);
    WordAdd(q.a, f);
    WordAdd(Plus(q.a, f), x);
    WordAdd(Plus(Plus(q.a, f), x), k);
    var sum := Plus(Plus(Plus(q.a, f), x), k);
    WordRotated(sum, s);
    WordAdd(q.b, Rotated(sum, s));
    AddAgain(Num(q.b), RotateLeft(Num(sum), N(s)));
  }
}
