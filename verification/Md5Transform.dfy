/** md5_transform: the 64 steps of the source on one block. */
module Md5Transform {
  import opened Bits
  import opened Md5Words

  /** What is left of the garbage in four unsigned longs. */
  ghost function LowQuad(a: nat, b: nat, c: nat, d: nat): (q: Quad)
    ensures q.Words()
  {
    Quad(Low(a), Low(b), Low(c), Low(d))
  }

  /** One block on its way through the steps, from the state `q`. */
  class Block {
    const w: nat
    const x: seq<nat>
    ghost const q: Quad

    ghost predicate Valid() {
      Width(w) && |x| == 16 && q.Words() && forall k | 0 <= k < 16 :: x[k] < WORD
    }

    constructor (w: nat, x: seq<nat>, ghost q: Quad)
      requires Width(w) && |x| == 16 && q.Words() && forall k | 0 <= k < 16 :: x[k] < WORD
      ensures Valid() && this.w == w && this.x == x && this.q == q
    {
      this.w, this.x, this.q := w, x, q;
    }

    /** The variables are where step `n` begins, up to garbage. */
    ghost predicate At(n: nat, a: nat, b: nat, c: nat, d: nat)
      requires Valid()
    {
      a < w && b < w && c < w && d < w && LowQuad(a, b, c, d) == Steps(q, x, n)
    }

    /** One of the macros RND1 to RND4, as step `n`. */
    method Rnd(ghost n: nat, r: nat, a: nat, b: nat, c: nat, d: nat, xk: nat, s: nat, ac: nat) returns (a': nat)
      requires Valid() && At(n, a, b, c, d)
      requires r == n / 16 && s == Shift(n) && ac == Sine(n) && xk == x[Place(n)]
      ensures At(n + 1, d, a', b, c)
    {
      var sum := Sum(w, a, Sum(w, Sum(w, Mixed(w, r, b, c, d), xk), ac));
      var masked := And(sum, 0xffffffff);
      a' := Sum(w, b, Or(ShiftLeft(w, masked, s), ShiftRight(masked, 32 - s)));
      StepLow(w, n, r, a, b, c, d, xk, s, ac);
    }

    method Round1(a0: nat, b0: nat, c0: nat, d0: nat) returns (a: nat, b: nat, c: nat, d: nat)
      requires Valid() && At(0, a0, b0, c0, d0)
      ensures At(16, a, b, c, d)
    {
      hide At;
      a, b, c, d := Steps1To8(a0, b0, c0, d0);
      a, b, c, d := Steps9To16(a, b, c, d);
    }

    method Steps1To8(a0: nat, b0: nat, c0: nat, d0: nat) returns (a: nat, b: nat, c: nat, d: nat)
      requires Valid() && At(0, a0, b0, c0, d0)
      ensures At(8, a, b, c, d)
    {
      hide At;
      a, b, c, d := a0, b0, c0, d0;
      a := Rnd(0, 0, a, b, c, d, x[0], 7, 0xd76aa478);
      d := Rnd(1, 0, d, a, b, c, x[1], 12, 0xe8c7b756);
      c := Rnd(2, 0, c, d, a, b, x[2], 17, 0x242070db);
      b := Rnd(3, 0, b, c, d, a, x[3], 22, 0xc1bdceee);
      a := Rnd(4, 0, a, b, c, d, x[4], 7, 0xf57c0faf);
      d := Rnd(5, 0, d, a, b, c, x[5], 12, 0x4787c62a);
      c := Rnd(6, 0, c, d, a, b, x[6], 17, 0xa8304613);
      b := Rnd(7, 0, b, c, d, a, x[7], 22, 0xfd469501);
    }

    method Steps9To16(a0: nat, b0: nat, c0: nat, d0: nat) returns (a: nat, b: nat, c: nat, d: nat)
      requires Valid() && At(8, a0, b0, c0, d0)
      ensures At(16, a, b, c, d)
    {
      hide At;
      a, b, c, d := a0, b0, c0, d0;
      a := Rnd(8, 0, a, b, c, d, x[8], 7, 0x698098d8);
      d := Rnd(9, 0, d, a, b, c, x[9], 12, 0x8b44f7af);
      c := Rnd(10, 0, c, d, a, b, x[10], 17, 0xffff5bb1);
      b := Rnd(11, 0, b, c, d, a, x[11], 22, 0x895cd7be);
      a := Rnd(12, 0, a, b, c, d, x[12], 7, 0x6b901122);
      d := Rnd(13, 0, d, a, b, c, x[13], 12, 0xfd987193);
      c := Rnd(14, 0, c, d, a, b, x[14], 17, 0xa679438e);
      b := Rnd(15, 0, b, c, d, a, x[15], 22, 0x49b40821);
    }

    method Round2(a0: nat, b0: nat, c0: nat, d0: nat) returns (a: nat, b: nat, c: nat, d: nat)
      requires Valid() && At(16, a0, b0, c0, d0)
      ensures At(32, a, b, c, d)
    {
      hide At;
      a, b, c, d := Steps17To24(a0, b0, c0, d0);
      a, b, c, d := Steps25To32(a, b, c, d);
    }

    method Steps17To24(a0: nat, b0: nat, c0: nat, d0: nat) returns (a: nat, b: nat, c: nat, d: nat)
      requires Valid() && At(16, a0, b0, c0, d0)
      ensures At(24, a, b, c, d)
    {
      hide At, Sine1, Sine3, Sine4;
      a, b, c, d := a0, b0, c0, d0;
      a := Rnd(16, 1, a, b, c, d, x[1], 5, 0xf61e2562);
      d := Rnd(17, 1, d, a, b, c, x[6], 9, 0xc040b340);
      c := Rnd(18, 1, c, d, a, b, x[11], 14, 0x265e5a51);
      b := Rnd(19, 1, b, c, d, a, x[0], 20, 0xe9b6c7aa);
      a := Rnd(20, 1, a, b, c, d, x[5], 5, 0xd62f105d);
      d := Rnd(21, 1, d, a, b, c, x[10], 9, 0x02441453);
      c := Rnd(22, 1, c, d, a, b, x[15], 14, 0xd8a1e681);
      b := Rnd(23, 1, b, c, d, a, x[4], 20, 0xe7d3fbc8);
    }

    method Steps25To32(a0: nat, b0: nat, c0: nat, d0: nat) returns (a: nat, b: nat, c: nat, d: nat)
      requires Valid() && At(24, a0, b0, c0, d0)
      ensures At(32, a, b, c, d)
    {
      hide At, Sine1, Sine3, Sine4;
      a, b, c, d := a0, b0, c0, d0;
      a := Rnd(24, 1, a, b, c, d, x[9], 5, 0x21e1cde6);
      d := Rnd(25, 1, d, a, b, c, x[14], 9, 0xc33707d6);
      c := Rnd(26, 1, c, d, a, b, x[3], 14, 0xf4d50d87);
      b := Rnd(27, 1, b, c, d, a, x[8], 20, 0x455a14ed);
      a := Rnd(28, 1, a, b, c, d, x[13], 5, 0xa9e3e905);
      d := Rnd(29, 1, d, a, b, c, x[2], 9, 0xfcefa3f8);
      c := Rnd(30, 1, c, d, a, b, x[7], 14, 0x676f02d9);
      b := Rnd(31, 1, b, c, d, a, x[12], 20, 0x8d2a4c8a);
    }

    method Round3(a0: nat, b0: nat, c0: nat, d0: nat) returns (a: nat, b: nat, c: nat, d: nat)
      requires Valid() && At(32, a0, b0, c0, d0)
      ensures At(48, a, b, c, d)
    {
      hide At;
      a, b, c, d := Steps33To40(a0, b0, c0, d0);
      a, b, c, d := Steps41To48(a, b, c, d);
    }

    method Steps33To40(a0: nat, b0: nat, c0: nat, d0: nat) returns (a: nat, b: nat, c: nat, d: nat)
      requires Valid() && At(32, a0, b0, c0, d0)
      ensures At(40, a, b, c, d)
    {
      hide At;
      a, b, c, d := a0, b0, c0, d0;
      a := Rnd(32, 2, a, b, c, d, x[5], 4, 0xfffa3942);
      d := Rnd(33, 2, d, a, b, c, x[8], 11, 0x8771f681);
      c := Rnd(34, 2, c, d, a, b, x[11], 16, 0x6d9d6122);
      b := Rnd(35, 2, b, c, d, a, x[14], 23, 0xfde5380c);
      a := Rnd(36, 2, a, b, c, d, x[1], 4, 0xa4beea44);
      d := Rnd(37, 2, d, a, b, c, x[4], 11, 0x4bdecfa9);
      c := Rnd(38, 2, c, d, a, b, x[7], 16, 0xf6bb4b60);
      b := Rnd(39, 2, b, c, d, a, x[10], 23, 0xbebfbc70);
    }

    method Steps41To48(a0: nat, b0: nat, c0: nat, d0: nat) returns (a: nat, b: nat, c: nat, d: nat)
      requires Valid() && At(40, a0, b0, c0, d0)
      ensures At(48, a, b, c, d)
    {
      hide At;
      a, b, c, d := a0, b0, c0, d0;
      a := Rnd(40, 2, a, b, c, d, x[13], 4, 0x289b7ec6);
      d := Rnd(41, 2, d, a, b, c, x[0], 11, 0xeaa127fa);
      c := Rnd(42, 2, c, d, a, b, x[3], 16, 0xd4ef3085);
      b := Rnd(43, 2, b, c, d, a, x[6], 23, 0x04881d05);
      a := Rnd(44, 2, a, b, c, d, x[9], 4, 0xd9d4d039);
      d := Rnd(45, 2, d, a, b, c, x[12], 11, 0xe6db99e5);
      c := Rnd(46, 2, c, d, a, b, x[15], 16, 0x1fa27cf8);
      b := Rnd(47, 2, b, c, d, a, x[2], 23, 0xc4ac5665);
    }

    method Round4(a0: nat, b0: nat, c0: nat, d0: nat) returns (a: nat, b: nat, c: nat, d: nat)
      requires Valid() && At(48, a0, b0, c0, d0)
      ensures At(64, a, b, c, d)
    {
      hide At;
      a, b, c, d := Steps49To56(a0, b0, c0, d0);
      a, b, c, d := Steps57To64(a, b, c, d);
    }

    method Steps49To56(a0: nat, b0: nat, c0: nat, d0: nat) returns (a: nat, b: nat, c: nat, d: nat)
      requires Valid() && At(48, a0, b0, c0, d0)
      ensures At(56, a, b, c, d)
    {
      hide At;
      a, b, c, d := a0, b0, c0, d0;
      a := Rnd(48, 3, a, b, c, d, x[0], 6, 0xf4292244);
      d := Rnd(49, 3, d, a, b, c, x[7], 10, 0x432aff97);
      c := Rnd(50, 3, c, d, a, b, x[14], 15, 0xab9423a7);
      b := Rnd(51, 3, b, c, d, a, x[5], 21, 0xfc93a039);
      a := Rnd(52, 3, a, b, c, d, x[12], 6, 0x655b59c3);
      d := Rnd(53, 3, d, a, b, c, x[3], 10, 0x8f0ccc92);
      c := Rnd(54, 3, c, d, a, b, x[10], 15, 0xffeff47d);
      b := Rnd(55, 3, b, c, d, a, x[1], 21, 0x85845dd1);
    }

    method Steps57To64(a0: nat, b0: nat, c0: nat, d0: nat) returns (a: nat, b: nat, c: nat, d: nat)
      requires Valid() && At(56, a0, b0, c0, d0)
      ensures At(64, a, b, c, d)
    {
      hide At;
      a, b, c, d := a0, b0, c0, d0;
      a := Rnd(56, 3, a, b, c, d, x[8], 6, 0x6fa87e4f);
      d := Rnd(57, 3, d, a, b, c, x[15], 10, 0xfe2ce6e0);
      c := Rnd(58, 3, c, d, a, b, x[6], 15, 0xa3014314);
      b := Rnd(59, 3, b, c, d, a, x[13], 21, 0x4e0811a1);
      a := Rnd(60, 3, a, b, c, d, x[4], 6, 0xf7537e82);
      d := Rnd(61, 3, d, a, b, c, x[11], 10, 0xbd3af235);
      c := Rnd(62, 3, c, d, a, b, x[2], 15, 0x2ad7d2bb);
      b := Rnd(63, 3, b, c, d, a, x[9], 21, 0xeb86d391);
    }
  }

  /** Masking lazily makes no difference to a step. */
  lemma StepLow(w: nat, n: nat, r: nat, a: nat, b: nat, c: nat, d: nat, xk: nat, s: nat, ac: nat)
    requires Width(w) && a < w && b < w && c < w && d < w && xk < WORD
    requires r == n / 16 && s == Shift(n) && ac == Sine(n)
    ensures var sum := Sum(w, a, Sum(w, Sum(w, Mixed(w, r, b, c, d), xk), ac));
      var masked := And(sum, 0xffffffff);
      var a' := Sum(w, b, Or(ShiftLeft(w, masked, s), ShiftRight(masked, 32 - s)));
      a' < w && LowQuad(d, a', b, c) == Step(LowQuad(a, b, c, d), n, xk)
  {
    hide Or, And, Mixed, Auxiliary, Shift, Sine, RotateLeft, ShiftLeft, ShiftRight, Low;
    var f := Mixed(w, r, b, c, d);
    var sum := Sum(w, a, Sum(w, Sum(w, f, xk), ac));
    var masked := And(sum, 0xffffffff);
    LowMixed(w, r, b, c, d);
    LowIs(f);
    LowSums(w, a, f, xk, ac);
    WordIsPower();
    AndMask(sum, 32);
    LowIs(sum);
    LowTurned(w, masked, s);
    LowSum(w, b, Or(ShiftLeft(w, masked, s), ShiftRight(masked, 32 - s)));
  }

  lemma {:induction false} LowSum(w: nat, a: nat, b: nat)
    requires Width(w)
    ensures Low(Sum(w, a, b)) == Add(Low(a), Low(b))
  {
    LowOfWrapped(w, a + b);
    hide Width, Low;
    LowOfAdded(a, b);
  }

  lemma {:induction false} LowOfAdded(a: nat, b: nat)
    ensures Low(a + b) == Add(Low(a), Low(b))
  {
    assert a + b == WORD * (a / WORD + b / WORD) + (Low(a) + Low(b));
    ModPlus(Low(a) + Low(b), WORD, a / WORD + b / WORD);
  }

  lemma LowSums(w: nat, a: nat, f: nat, x: nat, ac: nat)
    requires Width(w) && x < WORD && ac < WORD
    ensures Low(Sum(w, a, Sum(w, Sum(w, f, x), ac))) == Add(Add(Add(Low(a), Low(f)), x), ac)
  {
    hide Sum, Low, Add;
    LowSum(w, a, Sum(w, Sum(w, f, x), ac));
    LowSum(w, Sum(w, f, x), ac);
    LowSum(w, f, x);
    LowIs(x);
    LowIs(ac);
    AddAssoc(Low(a), Add(Low(f), x), ac);
    AddAssoc(Low(a), Low(f), x);
  }

  lemma {:induction false} AddAssoc(p: nat, q: nat, r: nat)
    ensures Add(p, Add(q, r)) == Add(Add(p, q), r)
  {
    assert q + r == WORD * ((q + r) / WORD) + Add(q, r);
    assert p + q == WORD * ((p + q) / WORD) + Add(p, q);
  }
}
