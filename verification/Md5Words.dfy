/** The words and the rounds of MD5: section 3.4 of RFC 1321 in 32-bit arithmetic,
    and the source's rounds on unsigned longs that may be wider. */
module Md5Words {
  import opened Bits

  const WORD: nat := 0x1_0000_0000

  /** How many values an unsigned long has: it is 32 or 64 bits wide. */
  predicate Width(w: nat) {
    w == WORD || w == WORD * WORD
  }

  lemma WordIsPower()
    ensures Pow2(32) == WORD
  {
    assert Pow2(8) == 256;
    assert Pow2(16) == 65536;
    assert Pow2(24) == 0x100_0000;
  }

  /** The low 32 bits, which are all that matters. */
  function Low(a: nat): nat {
    a % WORD
  }

  // ---- RFC 1321: words of 32 bits ----

  /** Addition modulo 2^32. */
  function Add(a: nat, b: nat): nat {
    (a + b) % WORD
  }

  function Complement(a: nat): nat
    requires a < WORD
  {
    WORD - 1 - a
  }

  /** Circular shift to the left. */
  function RotateLeft(a: nat, s: nat): nat
    requires a < WORD && 0 < s < 32
  {
    Up(a, s) % WORD + Down(a, 32 - s)
  }

  /** The auxiliary functions F, G, H and I, by round. */
  function Auxiliary(r: nat, x: nat, y: nat, z: nat): nat
    requires x < WORD && y < WORD && z < WORD
  {
    if r == 0 then Or(And(x, y), And(Complement(x), z))
    else if r == 1 then Or(And(x, z), And(y, Complement(z)))
    else if r == 2 then Xor(Xor(x, y), z)
    else Xor(y, Or(x, Complement(z)))
  }

  /** The word of the block that a step takes. */
  function Place(i: nat): (k: nat)
    ensures k < 16
  {
    if i < 16 then i else if i < 32 then (5 * i + 1) % 16 else if i < 48 then (3 * i + 5) % 16 else (7 * i) % 16
  }

  /** By how much a step rotates. */
  function Shift(i: nat): (s: nat)
    ensures 0 < s < 32
  {
    if i < 16 then (if i % 4 == 0 then 7 else if i % 4 == 1 then 12 else if i % 4 == 2 then 17 else 22)
    else if i < 32 then (if i % 4 == 0 then 5 else if i % 4 == 1 then 9 else if i % 4 == 2 then 14 else 20)
    else if i < 48 then (if i % 4 == 0 then 4 else if i % 4 == 1 then 11 else if i % 4 == 2 then 16 else 23)
    else (if i % 4 == 0 then 6 else if i % 4 == 1 then 10 else if i % 4 == 2 then 15 else 21)
  }

  /** The integer parts of 4294967296 times abs(sin(i + 1)). */
  function Sine(i: nat): (t: nat)
    ensures t < WORD
  {
    if i < 16 then Sine1(i) else if i < 32 then Sine2(i) else if i < 48 then Sine3(i) else Sine4(i)
  }

  function Sine1(i: nat): (t: nat)
    ensures t < WORD
  {
    match i
    case 0 => 0xd76aa478 case 1 => 0xe8c7b756 case 2 => 0x242070db case 3 => 0xc1bdceee
    case 4 => 0xf57c0faf case 5 => 0x4787c62a case 6 => 0xa8304613 case 7 => 0xfd469501
    case 8 => 0x698098d8 case 9 => 0x8b44f7af case 10 => 0xffff5bb1 case 11 => 0x895cd7be
    case 12 => 0x6b901122 case 13 => 0xfd987193 case 14 => 0xa679438e case _ => 0x49b40821
  }

  function Sine2(i: nat): (t: nat)
    ensures t < WORD
  {
    match i
    case 16 => 0xf61e2562 case 17 => 0xc040b340 case 18 => 0x265e5a51 case 19 => 0xe9b6c7aa
    case 20 => 0xd62f105d case 21 => 0x02441453 case 22 => 0xd8a1e681 case 23 => 0xe7d3fbc8
    case 24 => 0x21e1cde6 case 25 => 0xc33707d6 case 26 => 0xf4d50d87 case 27 => 0x455a14ed
    case 28 => 0xa9e3e905 case 29 => 0xfcefa3f8 case 30 => 0x676f02d9 case _ => 0x8d2a4c8a
  }

  function Sine3(i: nat): (t: nat)
    ensures t < WORD
  {
    match i
    case 32 => 0xfffa3942 case 33 => 0x8771f681 case 34 => 0x6d9d6122 case 35 => 0xfde5380c
    case 36 => 0xa4beea44 case 37 => 0x4bdecfa9 case 38 => 0xf6bb4b60 case 39 => 0xbebfbc70
    case 40 => 0x289b7ec6 case 41 => 0xeaa127fa case 42 => 0xd4ef3085 case 43 => 0x04881d05
    case 44 => 0xd9d4d039 case 45 => 0xe6db99e5 case 46 => 0x1fa27cf8 case _ => 0xc4ac5665
  }

  function Sine4(i: nat): (t: nat)
    ensures t < WORD
  {
    match i
    case 48 => 0xf4292244 case 49 => 0x432aff97 case 50 => 0xab9423a7 case 51 => 0xfc93a039
    case 52 => 0x655b59c3 case 53 => 0x8f0ccc92 case 54 => 0xffeff47d case 55 => 0x85845dd1
    case 56 => 0x6fa87e4f case 57 => 0xfe2ce6e0 case 58 => 0xa3014314 case 59 => 0x4e0811a1
    case 60 => 0xf7537e82 case 61 => 0xbd3af235 case 62 => 0x2ad7d2bb case _ => 0xeb86d391
  }

  datatype Quad = Quad(a: nat, b: nat, c: nat, d: nat) {
    ghost predicate Words() {
      a < WORD && b < WORD && c < WORD && d < WORD
    }
  }

  /** Operation [abcd k s i] of section 3.4, after which the roles move on. */
  ghost function Step(q: Quad, i: nat, x: nat): (r: Quad)
    requires q.Words()
    ensures r.Words()
  {
    var sum := Add(Add(Add(q.a, Auxiliary(i / 16, q.b, q.c, q.d)), x), Sine(i));
    Quad(q.d, Add(q.b, RotateLeft(sum, Shift(i))), q.b, q.c)
  }

  /** The first `n` of the 64 steps on a block. */
  ghost function Steps(q: Quad, x: seq<nat>, n: nat): (r: Quad)
    requires q.Words() && |x| == 16
    ensures r.Words()
  {
    if n == 0 then q else Step(Steps(q, x, n - 1), n - 1, x[Place(n - 1)])
  }

  ghost function Transformed(q: Quad, x: seq<nat>): (r: Quad)
    requires q.Words() && |x| == 16
    ensures r.Words()
  {
    var r := Steps(q, x, 64);
    Quad(Add(q.a, r.a), Add(q.b, r.b), Add(q.c, r.c), Add(q.d, r.d))
  }

  // ---- The source: unsigned longs with garbage above the low 32 bits ----

  /** ~a. */
  function Not(w: nat, a: nat): nat
    requires a < w
  {
    w - 1 - a
  }

  /** a << s. */
  function ShiftLeft(w: nat, a: nat, s: nat): nat
    requires w > 0
  {
    Up(a, s) % w
  }

  /** a >> s. */
  function ShiftRight(a: nat, s: nat): nat {
    Down(a, s)
  }

  function Sum(w: nat, a: nat, b: nat): nat
    requires w > 0
  {
    (a + b) % w
  }

  function Mixed(w: nat, r: nat, b: nat, c: nat, d: nat): nat
    requires b < w && c < w && d < w
  {
    if r == 0 then Or(And(b, c), And(d, Not(w, b)))
    else if r == 1 then Or(And(b, d), And(c, Not(w, d)))
    else if r == 2 then Xor(Xor(b, c), d)
    else Xor(c, Or(b, Not(w, d)))
  }

  /** The low bits survive arithmetic that wraps around later. */
  lemma LowOfWrapped(w: nat, a: nat)
    requires Width(w)
    ensures Low(a % w) == Low(a)
  {
    if w == WORD * WORD {
      var q := a / w;
      assert a == w * q + a % w;
      ModPlus(a % w, WORD, WORD * q);
    } else {
      ModUnique(a % w, WORD, 0, a % w);
    }
  }

  lemma LowNot(w: nat, a: nat)
    requires Width(w) && a < w
    ensures Low(Not(w, a)) == Complement(Low(a))
  {
  }

  lemma LowBitwise(a: nat, b: nat)
    ensures Low(And(a, b)) == And(Low(a), Low(b)) && Low(Or(a, b)) == Or(Low(a), Low(b))
    ensures Low(Xor(a, b)) == Xor(Low(a), Low(b))
  {
    WordIsPower();
    BitwiseMod(BOTH, a, b, 32);
    BitwiseMod(EITHER, a, b, 32);
    BitwiseMod(ONE, a, b, 32);
  }

  lemma {:induction false} AndSwap(a: nat, b: nat)
    ensures And(a, b) == And(b, a)
  {
    if a > 0 || b > 0 {
      AndSwap(a / 2, b / 2);
    }
  }

  lemma LowMixed(w: nat, r: nat, b: nat, c: nat, d: nat)
    requires Width(w) && b < w && c < w && d < w
    ensures Low(Mixed(w, r, b, c, d)) == Auxiliary(r, Low(b), Low(c), Low(d))
  {
    hide And, Or, Xor, Low;
    LowNot(w, b);
    LowNot(w, d);
    if r == 0 {
      LowBitwise(And(b, c), And(d, Not(w, b)));
      LowBitwise(b, c);
      LowBitwise(d, Not(w, b));
      AndSwap(Low(d), Complement(Low(b)));
    } else if r == 1 {
      LowBitwise(And(b, d), And(c, Not(w, d)));
      LowBitwise(b, d);
      LowBitwise(c, Not(w, d));
    } else if r == 2 {
      LowBitwise(Xor(b, c), d);
      LowBitwise(b, c);
    } else {
      LowBitwise(c, Or(b, Not(w, d)));
      LowBitwise(b, Not(w, d));
    }
  }

  /** Two shifts of a masked word make its circular shift. */
  lemma LowTurned(w: nat, a: nat, s: nat)
    requires Width(w) && a < WORD && 0 < s < 32
    ensures Low(Or(ShiftLeft(w, a, s), ShiftRight(a, 32 - s))) == RotateLeft(a, s)
  {
    hide Low, Up, Down, Or, Pow2;
    var p, t := Pow2(s), Pow2(32 - s);
    WordIsPower();
    PowSum(s, 32 - s);
    UpIsTimes(a, s);
    DownIsQuotient(a, 32 - s);
    LowBitwise(ShiftLeft(w, a, s), ShiftRight(a, 32 - s));
    LowOfWrapped(w, Up(a, s));
    Turned(a, p, t);
    LowIs(Down(a, 32 - s));
    LowIs(Up(a, s));
    OrApart(Down(a, 32 - s), a % t, s);
  }

  lemma LowIs(a: nat)
    ensures Low(a) == a % WORD && (a < WORD ==> Low(a) == a)
  {
  }

  lemma Turned(a: nat, p: nat, t: nat)
    requires p > 0 && t > 0 && p * t == WORD && a < WORD
    ensures a * p % WORD == (a % t) * p && a / t < p && a / t < WORD
  {
    var high, low := a / t, a % t;
    HighBelow(a, p, t);
    TimesBoth(a, p, t, high, low);
    LowBelow(low, p, t);
    ModUnique(a * p, WORD, high, low * p);
  }

  lemma {:induction false} PowSum(a: nat, b: nat)
    ensures Pow2(a) * Pow2(b) == Pow2(a + b)
  {
    if a > 0 {
      PowSum(a - 1, b);
    }
  }

  lemma TimesBoth(a: nat, p: nat, t: nat, high: nat, low: nat)
    requires a == t * high + low && p * t == WORD
    ensures a * p == WORD * high + low * p
  {
    assert (t * high) * p == (p * t) * high;
  }

  lemma Monotone(t: nat, p: nat, q: nat)
    ensures p <= q ==> t * p <= t * q
  {
    if p <= q {
      assert t * q == t * p + t * (q - p);
    }
  }

  lemma HighBelow(a: nat, p: nat, t: nat)
    requires t > 0 && p * t == WORD && a < WORD
    ensures a / t < p && a / t < WORD
  {
    var q := a / t;
    assert a == t * q + a % t;
    Monotone(t, p, q);
    Monotone(q, 1, t);
  }

  lemma LowBelow(low: nat, p: nat, t: nat)
    requires low < t && p > 0 && p * t == WORD
    ensures low * p < WORD
  {
    Monotone(p, low + 1, t);
  }
}
