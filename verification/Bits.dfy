/** Bitwise operations on natural numbers. */
module Bits {
  function Pow2(k: nat): (p: nat)
    ensures p > 0
  {
    if k == 0 then 1 else 2 * Pow2(k - 1)
  }

  /** `a` times 2^k. */
  function Up(a: nat, k: nat): nat {
    if k == 0 then a else 2 * Up(a, k - 1)
  }

  /** `a` divided by 2^k. */
  function Down(a: nat, k: nat): nat {
    if k == 0 then a else Down(a, k - 1) / 2
  }

  lemma {:induction false} UpIsTimes(a: nat, k: nat)
    ensures Up(a, k) == a * Pow2(k)
  {
    if k > 0 {
      UpIsTimes(a, k - 1);
    }
  }

  lemma {:induction false} DownIsQuotient(a: nat, k: nat)
    ensures Down(a, k) == a / Pow2(k)
  {
    if k > 0 {
      DownIsQuotient(a, k - 1);
      Halve(a, Pow2(k - 1));
    }
  }

  lemma Halve(a: nat, m: nat)
    requires m > 0
    ensures a / m / 2 == a / (2 * m)
  {
    var q, r := a / m, a % m;
    assert a == m * q + r;
    var h, o := q / 2, q % 2;
    assert m * q == m * (2 * h + o) == (2 * m) * h + m * o;
    ModUnique(a, 2 * m, h, m * o + r);
  }

  function Bit(x: bool): nat {
    if x then 1 else 0
  }

  /** The operation on every bit; it must make zeros of zeros. */
  function Bitwise(op: (bool, bool) -> bool, a: nat, b: nat): nat
    requires !op(false, false)
    decreases a + b
  {
    if a == 0 && b == 0 then 0 else Bit(op(a % 2 == 1, b % 2 == 1)) + 2 * Bitwise(op, a / 2, b / 2)
  }

  const BOTH: (bool, bool) -> bool := (x, y) => x && y
  const EITHER: (bool, bool) -> bool := (x, y) => x || y
  const ONE: (bool, bool) -> bool := (x, y) => x != y

  function And(a: nat, b: nat): nat {
    Bitwise(BOTH, a, b)
  }

  function Or(a: nat, b: nat): nat {
    Bitwise(EITHER, a, b)
  }

  function Xor(a: nat, b: nat): nat {
    Bitwise(ONE, a, b)
  }

  lemma AtLeast(d: nat, e: int)
    ensures e >= 1 ==> d * e >= d
    ensures e <= -1 ==> d * e + d <= 0
  {
  }

  lemma ModUnique(x: nat, d: nat, q: nat, r: nat)
    requires r < d && x == d * q + r
    ensures x % d == r && x / d == q
  {
    var e := x / d - q;
    assert d * e == d * (x / d) - d * q;
    AtLeast(d, e);
  }

  lemma ModPlus(x: nat, d: nat, q: nat)
    requires d > 0
    ensures (d * q + x) % d == x % d
  {
    assert d * (q + x / d) == d * q + d * (x / d);
    ModUnique(d * q + x, d, q + x / d, x % d);
  }

  /** The remainder by twice as much has one more bit. */
  lemma ModTwice(a: nat, m: nat)
    requires m > 0
    ensures a % (2 * m) == a % 2 + 2 * (a / 2 % m) && a / (2 * m) == a / 2 / m
  {
    var q := a / 2;
    var t, u := q / m, q % m;
    assert q == m * t + u;
    assert a == 2 * (m * t + u) + a % 2;
    assert 2 * (m * t) == (2 * m) * t;
    ModUnique(a, 2 * m, t, 2 * u + a % 2);
  }

  lemma BitwiseParts(op: (bool, bool) -> bool, a: nat, b: nat)
    requires !op(false, false)
    ensures Bitwise(op, a, b) % 2 == Bit(op(a % 2 == 1, b % 2 == 1))
    ensures Bitwise(op, a, b) / 2 == Bitwise(op, a / 2, b / 2)
  {
  }

  lemma {:induction false} PartsJoin(op: (bool, bool) -> bool, a: nat, b: nat, x: nat, y: nat, c: nat, d: nat)
    requires !op(false, false) && c <= 1 && d <= 1 && a == c + 2 * x && b == d + 2 * y
    ensures Bitwise(op, a, b) == Bit(op(c == 1, d == 1)) + 2 * Bitwise(op, x, y)
  {
    BitwiseParts(op, a, b);
  }

  /** The low bits of the result are made of the low bits. */
  lemma {:induction false} BitwiseMod(op: (bool, bool) -> bool, a: nat, b: nat, k: nat)
    requires !op(false, false)
    ensures Bitwise(op, a, b) % Pow2(k) == Bitwise(op, a % Pow2(k), b % Pow2(k))
  {
    hide Bitwise, Bit;
    if k == 0 {
      BitwiseParts(op, 0, 0);
      BitwiseZero(op);
    } else {
      var m := Pow2(k - 1);
      BitwiseMod(op, a / 2, b / 2, k - 1);
      ModTwice(a, m);
      ModTwice(b, m);
      ModTwice(Bitwise(op, a, b), m);
      BitwiseParts(op, a, b);
      PartsJoin(op, a % (2 * m), b % (2 * m), a / 2 % m, b / 2 % m, a % 2, b % 2);
    }
  }

  lemma BitwiseZero(op: (bool, bool) -> bool)
    requires !op(false, false)
    ensures Bitwise(op, 0, 0) == 0
  {
  }

  lemma {:induction false} BitwiseBound(op: (bool, bool) -> bool, a: nat, b: nat, k: nat)
    requires !op(false, false) && a < Pow2(k) && b < Pow2(k)
    ensures Bitwise(op, a, b) < Pow2(k)
  {
    if k > 0 {
      BitwiseBound(op, a / 2, b / 2, k - 1);
    }
  }

  /** A mask of ones takes the low bits. */
  lemma {:induction false} AndMask(a: nat, k: nat)
    ensures And(a, Pow2(k) - 1) == a % Pow2(k)
  {
    hide And;
    if k == 0 {
      AndZero(a);
    } else {
      AndMask(a / 2, k - 1);
      AndOdd(a, Pow2(k - 1));
    }
  }

  lemma {:induction false} AndOdd(a: nat, m: nat)
    requires m > 0 && And(a / 2, m - 1) == a / 2 % m
    ensures And(a, 2 * m - 1) == a % (2 * m)
  {
    var b := 2 * m - 1;
    assert b / 2 == m - 1 && b % 2 == 1;
    ModTwice(a, m);
  }

  lemma {:induction false} AndZero(a: nat)
    ensures And(a, 0) == 0
  {
    if a > 0 {
      AndZero(a / 2);
    }
  }

  /** Numbers without a bit in common add up. */
  lemma {:induction false} OrApart(a: nat, b: nat, k: nat)
    requires a < Pow2(k)
    ensures Or(a, b * Pow2(k)) == a + b * Pow2(k) && Or(b * Pow2(k), a) == a + b * Pow2(k)
  {
    if k == 0 {
      OrZero(b);
    } else {
      OrApart(a / 2, b, k - 1);
      var h := b * Pow2(k - 1);
      assert b * Pow2(k) == 2 * h;
      OrEven(a, h);
    }
  }

  lemma OrEven(a: nat, h: nat)
    requires Or(a / 2, h) == a / 2 + h && Or(h, a / 2) == a / 2 + h
    ensures Or(a, 2 * h) == a + 2 * h && Or(2 * h, a) == a + 2 * h
  {
  }

  lemma {:induction false} OrZero(b: nat)
    ensures Or(0, b) == b && Or(b, 0) == b
  {
    if b > 0 {
      OrZero(b / 2);
    }
  }
}
