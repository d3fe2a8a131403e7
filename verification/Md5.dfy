/** MD5 (RFC 1321) computed bit by bit of a message, and HMAC-MD5 (RFC 2104). */
module Md5 {
  import opened Bits
  import opened Md5Words
  import opened Md5Transform

  const BLOCK: nat := 64

  type byte = b: nat | b < 256

  // ---- RFC 1321 ----

  /** Four bytes as a word, the low-order byte first. */
  function WordAt(s: seq<byte>, k: nat): (v: nat)
    requires 4 * k + 4 <= |s|
    ensures v < WORD
  {
    var b0: nat, b1: nat, b2: nat, b3: nat := s[4 * k], s[4 * k + 1], s[4 * k + 2], s[4 * k + 3];
    b0 + 0x100 * b1 + 0x1_0000 * b2 + 0x100_0000 * b3
  }

  function Words(s: seq<byte>): (x: seq<nat>)
    requires |s| == BLOCK
    ensures |x| == 16 && forall k | 0 <= k < 16 :: x[k] == WordAt(s, k) < WORD
  {
    seq(16, k requires 0 <= k < 16 => WordAt(s, k))
  }

  function WordBytes(v: nat): (r: seq<byte>)
    ensures |r| == 4
  {
    [v % 0x100, v / 0x100 % 0x100, v / 0x1_0000 % 0x100, v / 0x100_0000 % 0x100]
  }

  const START: Quad := Quad(0x67452301, 0xefcdab89, 0x98badcfe, 0x10325476)

  /** The state after the blocks of the text. */
  ghost function Folded(text: seq<byte>): (q: Quad)
    requires |text| % BLOCK == 0
    ensures q.Words()
  {
    if text == [] then START
    else Transformed(Folded(text[..|text| - BLOCK]), Words(text[|text| - BLOCK..]))
  }

  function ZeroBytes(n: nat): (s: seq<byte>)
    ensures |s| == n && forall i | 0 <= i < n :: s[i] == 0
  {
    seq(n, _ => 0)
  }

  /** The message padded to 448 modulo 512 bits, and the length in 64 bits. */
  function Padded(m: seq<byte>, length: seq<byte>): (p: seq<byte>)
    requires |length| == 8
    ensures |p| % BLOCK == 0
  {
    m + [0x80] + ZeroBytes((55 - |m|) % BLOCK) + length
  }

  /** The length in bits modulo 2^64, the low-order word first. */
  function Length64(n: nat): (s: seq<byte>)
    ensures |s| == 8
  {
    WordBytes(8 * n % WORD) + WordBytes(8 * n / WORD % WORD)
  }

  function Output(q: Quad): (d: seq<byte>)
    ensures |d| == 16
  {
    WordBytes(q.a) + WordBytes(q.b) + WordBytes(q.c) + WordBytes(q.d)
  }

  /** The message digest. */
  ghost function Digest(m: seq<byte>): (d: seq<byte>)
    ensures |d| == 16
  {
    Output(Folded(Padded(m, Length64(|m|))))
  }

  lemma {:induction false} FoldedMore(a: seq<byte>, b: seq<byte>)
    requires |a| % BLOCK == 0 && |b| == BLOCK
    ensures |a + b| % BLOCK == 0 && Folded(a + b) == Transformed(Folded(a), Words(b))
  {
    assert (a + b)[..|a|] == a && (a + b)[|a|..] == b;
  }

  // ---- md5_decode and md5_encode ----

  lemma {:induction false} PowersOf256()
    ensures Pow2(8) == 0x100 && Pow2(16) == 0x1_0000 && Pow2(24) == 0x100_0000 && Pow2(32) == WORD
  {
    WordIsPower();
    assert Pow2(8) == 256;
    assert Pow2(16) == 65536;
    assert Pow2(24) == 0x100_0000;
  }

  lemma OrBytes(w: nat, b0: nat, b1: nat, b2: nat, b3: nat)
    requires Width(w) && b0 < 256 && b1 < 256 && b2 < 256 && b3 < 256
    ensures Or(Or(Or(b0, ShiftLeft(w, b1, 8)), ShiftLeft(w, b2, 16)), ShiftLeft(w, b3, 24)) ==
            b0 + 0x100 * b1 + 0x1_0000 * b2 + 0x100_0000 * b3
  {
    hide Or, Up, Pow2;
    PowersOf256();
    UpIsTimes(b1, 8);
    UpIsTimes(b2, 16);
    UpIsTimes(b3, 24);
    OrApart(b0, b1, 8);
    OrApart(b0 + 0x100 * b1, b2, 16);
    OrApart(b0 + 0x100 * b1 + 0x1_0000 * b2, b3, 24);
  }

  method Decode(w: nat, s: seq<byte>) returns (x: seq<nat>)
    requires Width(w) && |s| == BLOCK
    ensures x == Words(s)
  {
    hide Or, ShiftLeft;
    x := [];
    var j := 0;
    for i := 0 to 16
      invariant j == 4 * i && |x| == i && forall k | 0 <= k < i :: x[k] == WordAt(s, k)
    {
      OrBytes(w, s[j], s[j + 1], s[j + 2], s[j + 3]);
      x := x + [Or(Or(Or(s[j], ShiftLeft(w, s[j + 1], 8)), ShiftLeft(w, s[j + 2], 16)), ShiftLeft(w, s[j + 3], 24))];
      j := j + 4;
    }
  }

  lemma ByteOf(a: nat)
    ensures And(a, 0xff) == a % 0x100
  {
    hide Pow2, And;
    PowersOf256();
    AndMask(a, 8);
  }

  lemma LowParts(a: nat)
    ensures Low(a) % 0x100 == a % 0x100 && Low(a) / 0x100 % 0x100 == a / 0x100 % 0x100
    ensures Low(a) / 0x1_0000 % 0x100 == a / 0x1_0000 % 0x100 && Low(a) / 0x100_0000 % 0x100 == a / 0x100_0000 % 0x100
  {
    hide Low;
    LowPart(a, 1, 0x100_0000);
    LowPart(a, 0x100, 0x1_0000);
    LowPart(a, 0x1_0000, 0x100);
    LowPart(a, 0x100_0000, 1);
  }

  lemma LowPart(a: nat, d: nat, h: nat)
    requires d > 0 && d * (0x100 * h) == WORD
    ensures Low(a) / d % 0x100 == a / d % 0x100
  {
    var q, r := a / WORD, Low(a);
    assert a == WORD * q + r;
    assert d * (0x100 * (h * q)) == d * (0x100 * h) * q;
    Cut(a, 0x100 * (h * q), r, d);
    ModPlus(r / d, 0x100, h * q);
  }

  lemma Cut(a: nat, h: nat, r: nat, d: nat)
    requires d > 0 && a == d * h + r
    ensures a / d == h + r / d
  {
    assert d * h + r == d * (h + r / d) + r % d;
    ModUnique(a, d, h + r / d, r % d);
  }

  /** One word, whatever is above its low 32 bits. */
  method EncodeWord(a: nat) returns (s: seq<byte>)
    ensures s == WordBytes(Low(a))
  {
    LowParts(a);
    ByteOf(a);
    ByteOf(ShiftRight(a, 8));
    ByteOf(ShiftRight(a, 16));
    ByteOf(ShiftRight(a, 24));
    ShiftsRight(a);
    hide And, ShiftRight, Low;
    s := [And(a, 0xff), And(ShiftRight(a, 8), 0xff), And(ShiftRight(a, 16), 0xff), And(ShiftRight(a, 24), 0xff)];
  }

  lemma ShiftsRight(a: nat)
    ensures ShiftRight(a, 8) == a / 0x100 && ShiftRight(a, 16) == a / 0x1_0000 && ShiftRight(a, 24) == a / 0x100_0000
  {
    hide Down, Pow2;
    PowersOf256();
    DownIsQuotient(a, 8);
    DownIsQuotient(a, 16);
    DownIsQuotient(a, 24);
  }

  method Encode(src: seq<nat>) returns (dst: seq<byte>)
    ensures dst == LowBytes(src)
  {
    dst := [];
    assert src[..0] == [];
    for i := 0 to |src|
      invariant dst == LowBytes(src[..i])
    {
      var word := EncodeWord(src[i]);
      assert src[..i + 1][..i] == src[..i];
      dst := dst + word;
    }
    assert src[..|src|] == src;
  }

  function LowBytes(src: seq<nat>): (r: seq<byte>)
    ensures |r| == 4 * |src|
  {
    if src == [] then [] else LowBytes(src[..|src| - 1]) + WordBytes(Low(src[|src| - 1]))
  }

  // ---- The length ----

  /** What md5_final writes for the length, from a count of bytes kept in two
      unsigned longs. */
  function LengthField(w: nat, n: nat): (s: seq<byte>)
    requires w > 0
    ensures |s| == 8
  {
    var clow, chigh := n % w, n / w % w;
    WordBytes(Low(Up(clow, 3) % w)) + WordBytes(Low((Up(chigh, 3) % w + Down(clow, 29)) % w))
  }

  /** The two-word count is enough: always with 32-bit words; with 64-bit words
      unless its high word is used. */
  predicate LengthFits(w: nat, n: nat)
    requires w > 0
  {
    w == WORD || n / w % 0x2000_0000 == 0
  }

  lemma Parts(w: nat, n: nat)
    requires Width(w)
    ensures var clow, chigh := n % w, n / w % w;
      && Low(Up(clow, 3) % w) == Low(8 * n)
      && Low((Up(chigh, 3) % w + Down(clow, 29)) % w) == Low(8 * (n / w) + clow / 0x2000_0000)
  {
    hide Up, Down, Pow2, Low;
    var clow, chigh := n % w, n / w % w;
    UpIsTimes(clow, 3);
    UpIsTimes(chigh, 3);
    SmallPowers();
    DownIsQuotient(clow, 29);
    LengthParts(w, n);
  }

  lemma SmallPowers()
    ensures Pow2(3) == 8 && Pow2(29) == 0x2000_0000
  {
    assert Pow2(10) == 1024;
    assert Pow2(20) == 0x10_0000;
  }

  lemma LengthParts(w: nat, n: nat)
    requires Width(w)
    ensures var clow, chigh := n % w, n / w % w;
      && Low(8 * clow % w) == Low(8 * n)
      && Low((8 * chigh % w + clow / 0x2000_0000) % w) == Low(8 * (n / w) + clow / 0x2000_0000)
  {
    var clow, chigh := n % w, n / w % w;
    LowOfWrapped(w, 8 * clow);
    LowTimes(w, n);
    LowTimes(w, n / w);
    LowOfWrapped(w, 8 * chigh % w + clow / 0x2000_0000);
    LowOfWrapped(w, 8 * chigh);
    LowAdds(8 * chigh % w, 8 * (n / w), clow / 0x2000_0000);
  }

  lemma {:induction false} LowTimes(w: nat, n: nat)
    requires Width(w)
    ensures Low(8 * (n % w)) == Low(8 * n)
  {
    LowOfWrapped(w, n);
    LowOfTimes(n);
    LowOfTimes(n % w);
  }

  lemma {:induction false} LowOfTimes(n: nat)
    ensures Low(8 * n) == Low(8 * Low(n))
  {
    assert 8 * n == WORD * (8 * (n / WORD)) + 8 * Low(n);
    ModPlus(8 * Low(n), WORD, 8 * (n / WORD));
  }

  lemma {:induction false} LowAdds(a: nat, b: nat, c: nat)
    requires Low(a) == Low(b)
    ensures Low(a + c) == Low(b + c)
  {
    LowOfSum(a, c);
    LowOfSum(b, c);
  }

  lemma {:induction false} LowOfSum(a: nat, c: nat)
    ensures Low(a + c) == Low(Low(a) + c)
  {
    assert a + c == WORD * (a / WORD) + (Low(a) + c);
    ModPlus(Low(a) + c, WORD, a / WORD);
  }

  lemma BytesInjective(a: nat, b: nat)
    requires a < WORD && b < WORD && WordBytes(a) == WordBytes(b)
    ensures a == b
  {
    Digits(a);
    Digits(b);
    var s, t := WordBytes(a), WordBytes(b);
    assert s[0] == t[0] && s[1] == t[1] && s[2] == t[2] && s[3] == t[3];
  }

  lemma {:induction false} Digits(a: nat)
    requires a < WORD
    ensures a == a % 0x100 + 0x100 * (a / 0x100 % 0x100)
                + 0x1_0000 * (a / 0x1_0000 % 0x100) + 0x100_0000 * (a / 0x100_0000 % 0x100)
  {
    var b := a / 0x100;
    var c := b / 0x100;
    Cut(a, c, a % 0x1_0000, 0x1_0000);
    Cut(a, c / 0x100, a % 0x100_0000, 0x100_0000);
  }

  lemma {:induction false} HighWord(w: nat, n: nat)
    requires Width(w)
    ensures 8 * n / WORD == (if w == WORD then 8 * (n / w) else 8 * (n / w) * WORD) + n % w / 0x2000_0000
  {
    var h, l := n / w, n % w;
    assert n == w * h + l;
    Cut(8 * n, if w == WORD then 8 * h else 8 * h * WORD, 8 * l, WORD);
    Cut8(l);
  }

  lemma {:induction false} Cut8(l: nat)
    ensures 8 * l / WORD == l / 0x2000_0000
  {
    ModUnique(8 * l, WORD, l / 0x2000_0000, 8 * (l % 0x2000_0000));
  }

  /** The length field is that of RFC 1321 exactly if the count fits. */
  lemma LengthExact(w: nat, n: nat)
    requires Width(w)
    ensures LengthField(w, n) == Length64(n) <==> LengthFits(w, n)
  {
    hide WordBytes, Low;
    Parts(w, n);
    HighWord(w, n);
    var h, l := n / w, n % w / 0x2000_0000;
    var mine, theirs := Low(8 * h + l), Low(8 * n / WORD);
    LowIs(8 * n);
    LowIs(8 * n / WORD);
    LowIs(8 * h + l);
    assert LengthField(w, n) == Length64(n) <==> WordBytes(mine) == WordBytes(theirs) by {
      FieldEqual(WordBytes(Low(8 * n)), WordBytes(mine), WordBytes(theirs));
    }
    if WordBytes(mine) == WordBytes(theirs) {
      BytesInjective(mine, theirs);
    }
    HighFits(w, h, l);
  }

  /** With 64-bit longs the length of 2^64 bytes is not that of RFC 1321. */
  lemma LengthWraps()
    ensures var n := WORD * WORD; LengthField(WORD * WORD, n) != Length64(n)
  {
    hide LengthField, Length64;
    LengthExact(WORD * WORD, WORD * WORD);
  }

  lemma FieldEqual(a: seq<byte>, b: seq<byte>, c: seq<byte>)
    ensures a + b == a + c <==> b == c
  {
    if a + b == a + c {
      assert b == (a + b)[|a|..] && c == (a + c)[|a|..];
    }
  }

  lemma {:induction false} HighFits(w: nat, h: nat, l: nat)
    requires Width(w)
    ensures Low(8 * h + l) == Low((if w == WORD then 8 * h else 8 * h * WORD) + l) <==>
      w == WORD || h % 0x2000_0000 == 0
  {
    if w != WORD {
      var q, r := h / 0x2000_0000, h % 0x2000_0000;
      assert 8 * h == WORD * q + 8 * r;
      assert 8 * h * WORD == WORD * (8 * h);
      ModPlus(8 * r + l, WORD, q);
      ModPlus(l, WORD, 8 * h);
      LowDiffer(8 * r, l);
    }
  }

  lemma {:induction false} LowDiffer(a: nat, l: nat)
    requires a < WORD
    ensures Low(a + l) == Low(l) <==> a == 0
  {
    var q, p := (a + l) / WORD, l / WORD;
    assert a + l == WORD * q + Low(a + l) && l == WORD * p + Low(l);
    if Low(a + l) == Low(l) {
      assert a == WORD * (q - p);
    }
  }

  // ---- The context ----

  ghost function LowState(q: Quad): (r: Quad)
    ensures r.Words()
  {
    LowQuad(q.a, q.b, q.c, q.d)
  }

  ghost predicate Longs(w: nat, q: Quad) {
    q.a < w && q.b < w && q.c < w && q.d < w
  }

  /** md5_transform. */
  method Transform(w: nat, state: Quad, block: seq<byte>) returns (r: Quad)
    requires Width(w) && Longs(w, state) && |block| == BLOCK
    ensures Longs(w, r) && LowState(r) == Transformed(LowState(state), Words(block))
  {
    var x := Decode(w, block);
    var steps := new Block(w, x, LowState(state));
    var a, b, c, d := steps.Round1(state.a, state.b, state.c, state.d);
    a, b, c, d := steps.Round2(a, b, c, d);
    a, b, c, d := steps.Round3(a, b, c, d);
    a, b, c, d := steps.Round4(a, b, c, d);
    r := Quad(Sum(w, state.a, a), Sum(w, state.b, b), Sum(w, state.c, c), Sum(w, state.d, d));
    hide Sum, Low;
    LowSum(w, state.a, a);
    LowSum(w, state.b, b);
    LowSum(w, state.c, c);
    LowSum(w, state.d, d);
  }

  /** The state is that after the whole blocks of the data, and the buffer holds
      the rest. */
  ghost predicate Holding(state: Quad, held: seq<byte>, data: seq<byte>) {
    && |held| < BLOCK && |held| == |data| % BLOCK
    && held == data[|data| - |held|..]
    && LowState(state) == Folded(data[..|data| - |held|])
  }

  lemma HoldingFacts(state: Quad, held: seq<byte>, data: seq<byte>)
    requires Holding(state, held, data)
    ensures |held| == |data| % BLOCK && |held| <= |data| && held == data[|data| - |held|..]
    ensures var front := data[..|data| - |held|];
      |front| % BLOCK == 0 && LowState(state) == Folded(front)
  {
    hide Folded, LowState;
    Whole(|data|, BLOCK);
    ModUnique(|data| - |held|, BLOCK, |data| / BLOCK, 0);
  }

  lemma HoldMore(state: Quad, held: seq<byte>, data: seq<byte>, more: seq<byte>)
    requires Holding(state, held, data) && |held| + |more| < BLOCK
    ensures Holding(state, held + more, data + more)
  {
    hide Folded, LowState;
    var n := |data| - |held|;
    assert (data + more)[..n] == data[..n];
    assert (data + more)[n..] == data[n..] + more;
  }

  lemma HoldBlock(state: Quad, state': Quad, held: seq<byte>, data: seq<byte>, more: seq<byte>)
    requires Holding(state, held, data) && |held| + |more| == BLOCK
    requires LowState(state') == Transformed(LowState(state), Words(held + more))
    ensures Holding(state', [], data + more)
  {
    hide Transformed, Words, LowState, Folded;
    var n := |data| - |held|;
    assert data[..n] + (held + more) == data + more;
    FoldedMore(data[..n], held + more);
    assert (data + more)[..|data + more|] == data + more;
  }

  /** A count of bytes in two unsigned longs. */
  ghost predicate Counted(w: nat, n: nat, clow: nat, chigh: nat)
    requires w > 0
  {
    clow == n % w && chigh == n / w % w
  }

  class Context {
    const w: nat
    const buf: array<byte>
    var clow: nat
    var chigh: nat
    var state: Quad
    var ptr: nat
    ghost var data: seq<byte>

    /** The context has taken in `data`. */
    ghost predicate Valid()
      reads this, buf
    {
      && Width(w) && buf.Length == BLOCK && ptr < BLOCK && Longs(w, state)
      && Counted(w, |data|, clow, chigh)
      && Holding(state, buf[..ptr], data)
    }

    /** md5_init. */
    constructor (w: nat)
      requires Width(w)
      ensures Valid() && fresh(buf) && data == [] && this.w == w
    {
      this.w := w;
      clow, chigh := 0, 0;
      state := START;
      buf := new byte[BLOCK](_ => 0);
      ptr := 0;
      data := [];
    }

    /** Counts bytes in two unsigned longs. */
    method Count(len: nat, ghost n: nat)
      requires Width(w) && len < w && Counted(w, n, clow, chigh)
      modifies this`clow, this`chigh
      ensures Counted(w, n + len, clow, chigh)
    {
      CountMore(w, n, len);
      clow := (clow + len) % w;
      if clow < len {
        chigh := (chigh + 1) % w;
      }
    }

    /** memcpy to the free part of the buffer. */
    method Fill(more: seq<byte>)
      requires buf.Length == BLOCK && ptr + |more| <= BLOCK
      modifies buf
      ensures buf[..ptr + |more|] == old(buf[..ptr]) + more
    {
      forall k | 0 <= k < |more| {
        buf[ptr + k] := more[k];
      }
    }

    /** Fills the buffer up and transforms it. */
    method TakeBlock(more: seq<byte>, ghost before: seq<byte>)
      requires Width(w) && buf.Length == BLOCK && ptr < BLOCK && |more| == BLOCK - ptr
      requires Longs(w, state) && Holding(state, buf[..ptr], before)
      modifies this`state, this`ptr, buf
      ensures ptr == 0 && Longs(w, state) && Holding(state, buf[..ptr], before + more)
    {
      hide Holding, Transformed, Words, LowState;
      ghost var held, state0 := buf[..ptr], state;
      Fill(more);
      ptr := 0;
      assert buf[..] == buf[..BLOCK];
      state := Transform(w, state, buf[..]);
      HoldBlock(state0, state, held, before, more);
      assert buf[..ptr] == [];
    }

    /** The part of md5_update after the counting. */
    method Absorb(text: seq<byte>, ghost before: seq<byte>)
      requires Width(w) && buf.Length == BLOCK && ptr < BLOCK && Longs(w, state) && Holding(state, buf[..ptr], before)
      modifies this`state, this`ptr, buf
      ensures ptr < BLOCK && Longs(w, state) && Holding(state, buf[..ptr], before + text)
    {
      hide Holding, Longs;
      var i := BLOCK - ptr;
      var done := 0;
      assert before + text[..0] == before;
      while i <= |text| - done
        invariant 0 <= done <= |text| && i == BLOCK - ptr && ptr < BLOCK
        invariant Longs(w, state) && Holding(state, buf[..ptr], before + text[..done])
        decreases |text| - done
      {
        assert before + text[..done] + text[done..done + i] == before + text[..done + i];
        TakeBlock(text[done..done + i], before + text[..done]);
        done, i := done + i, BLOCK;
      }
      HoldMore(state, buf[..ptr], before + text[..done], text[done..]);
      Fill(text[done..]);
      ptr := ptr + (|text| - done);
      assert before + text[..done] + text[done..] == before + text;
    }

    /** md5_update. */
    method Update(text: seq<byte>)
      requires Valid() && |text| < w
      modifies this, buf
      ensures Valid() && data == old(data) + text
    {
      hide Holding, Longs, Counted;
      Count(|text|, |data|);
      Absorb(text, data);
      data := data + text;
    }

    /** The length field. */
    method Bits() returns (length: seq<byte>)
      requires Width(w) && Counted(w, |data|, clow, chigh)
      ensures length == LengthField(w, |data|)
    {
      var low := ShiftLeft(w, clow, 3);
      var high := Sum(w, ShiftLeft(w, chigh, 3), ShiftRight(clow, 29));
      length := Encode([low, high]);
      TwoWords(low, high);
    }

    /** A block of padding without the length field. */
    method PadBlock(i: nat, ghost front: seq<byte>) returns (ghost front': seq<byte>)
      requires Width(w) && buf.Length == BLOCK && ptr + i == BLOCK && Longs(w, state)
      requires |front| % BLOCK == 0 && LowState(state) == Folded(front)
      modifies this`state, this`ptr, buf
      ensures ptr == 0 && Longs(w, state) && |front'| % BLOCK == 0 && LowState(state) == Folded(front')
      ensures front' == front + (old(buf[..ptr]) + ZeroBytes(i))
    {
      hide Longs, Folded, Words, Transformed, LowState;
      Fill(ZeroBytes(i));
      assert buf[..] == buf[..ptr + i];
      FoldedMore(front, buf[..]);
      front' := front + buf[..];
      state := Transform(w, state, buf[..]);
      ptr := 0;
    }

    /** The padding up to the length field; `front` are the blocks that went into
        the state. */
    method PadOut(ghost bits: seq<byte>) returns (ghost front: seq<byte>)
      requires Width(w) && buf.Length == BLOCK && ptr < BLOCK && Longs(w, state)
      requires Holding(state, buf[..ptr], data) && |bits| == 8
      modifies this`state, this`ptr, buf
      ensures ptr == BLOCK - 8 && Longs(w, state) && |front| % BLOCK == 0 && LowState(state) == Folded(front)
      ensures front + (buf[..ptr] + bits) == Padded(data, bits)
    {
      hide Longs, Folded, Padded, Words, Transformed, LowState, Width, Holding;
      ghost var held := buf[..ptr];
      HoldingFacts(state, held, data);
      front := data[..|data| - ptr];
      PadOne(data, held, bits);
      PadTwo(data, held, bits);
      Fill([0x80]);
      ptr := ptr + 1;
      var i := BLOCK - ptr;
      if i < 8 {
        front := PadOver(i, front);
      } else {
        Fill(ZeroBytes(i - 8));
        ptr := ptr + (i - 8);
      }
    }

    /** Padding that reaches into a second block. */
    method PadOver(i: nat, ghost front: seq<byte>) returns (ghost front': seq<byte>)
      requires Width(w) && buf.Length == BLOCK && ptr + i == BLOCK && Longs(w, state)
      requires |front| % BLOCK == 0 && LowState(state) == Folded(front)
      modifies this`state, this`ptr, buf
      ensures ptr == BLOCK - 8 && Longs(w, state) && |front'| % BLOCK == 0 && LowState(state) == Folded(front')
      ensures front' == front + (old(buf[..ptr]) + ZeroBytes(i)) && buf[..ptr] == ZeroBytes(BLOCK - 8)
    {
      hide Longs, Folded, Words, Transformed, LowState, Width;
      front' := PadBlock(i, front);
      Fill(ZeroBytes(BLOCK - 8));
      ptr := BLOCK - 8;
    }

    /** md5_final: pads, adds the length, gives out the digest and erases the context. */
    method Final() returns (digest: seq<byte>)
      requires Valid()
      modifies this, buf
      ensures digest == Output(Folded(Padded(old(data), LengthField(w, |old(data)|))))
      ensures clow == chigh == 0 && state == Quad(0, 0, 0, 0) && buf[..] == ZeroBytes(BLOCK) && data == []
    {
      hide Longs, Folded, Words, Transformed, LowState, Padded, LengthField, Holding, Counted;
      var bits := Bits();
      ghost var front := PadOut(bits);
      ghost var last := buf[..ptr] + bits;
      Fill(bits);
      assert buf[..] == last;
      FoldedMore(front, last);
      state := Transform(w, state, buf[..]);
      digest := Encode([state.a, state.b, state.c, state.d]);
      FourWords(state);
      clow, chigh, state, ptr, data := 0, 0, Quad(0, 0, 0, 0), 0, [];
      forall k | 0 <= k < BLOCK {
        buf[k] := 0;
      }
    }
  }

  lemma {:induction false} PadOne(data: seq<byte>, held: seq<byte>, bits: seq<byte>)
    requires |held| == |data| % BLOCK && held == data[|data| - |held|..] && |bits| == 8
    ensures |held| < 56 ==>
      data[..|data| - |held|] + (held + [0x80] + ZeroBytes(55 - |held|) + bits) == Padded(data, bits)
  {
    if |held| < 56 {
      assert (55 - |data|) % BLOCK == 55 - |held|;
      assert data == data[..|data| - |held|] + held;
    }
  }

  lemma {:induction false} PadTwo(data: seq<byte>, held: seq<byte>, bits: seq<byte>)
    requires |held| == |data| % BLOCK && held == data[|data| - |held|..] && |bits| == 8
    ensures 56 <= |held| < BLOCK ==>
      data[..|data| - |held|] + (held + [0x80] + ZeroBytes(63 - |held|)) + (ZeroBytes(BLOCK - 8) + bits)
        == Padded(data, bits)
  {
    if 56 <= |held| {
      assert (55 - |data|) % BLOCK == 119 - |held|;
      assert data == data[..|data| - |held|] + held;
      assert ZeroBytes(63 - |held|) + ZeroBytes(BLOCK - 8) == ZeroBytes(119 - |held|);
    }
  }

  lemma {:induction false} TwoWords(a: nat, b: nat)
    ensures LowBytes([a, b]) == WordBytes(Low(a)) + WordBytes(Low(b))
  {
    assert [a, b][..1] == [a] && [a][..0] == [];
  }

  lemma FourWords(q: Quad)
    ensures LowBytes([q.a, q.b, q.c, q.d]) == Output(LowState(q))
  {
    TwoWords(q.a, q.b);
    assert [q.a, q.b, q.c, q.d][..3] == [q.a, q.b, q.c] && [q.a, q.b, q.c][..2] == [q.a, q.b];
  }

  lemma CountMore(w: nat, n: nat, len: nat)
    requires Width(w) && len < w
    ensures var low := (n % w + len) % w;
      low == (n + len) % w && (if low < len then (n / w % w + 1) % w else n / w % w) == (n + len) / w % w
  {
    var h, l := n / w, n % w;
    assert w > 0;
    hide Width;
    Whole(n, w);
    Carry(w, h, l, len);
    NextMod(h, w);
  }

  lemma Whole(n: nat, w: nat)
    requires w > 0
    ensures n == w * (n / w) + n % w
  {
  }

  lemma NextMod(h: nat, w: nat)
    requires w > 1
    ensures (h % w + 1) % w == (h + 1) % w
  {
    Whole(h, w);
    ModPlus(h % w + 1, w, h / w);
  }

  lemma Carry(w: nat, h: nat, l: nat, len: nat)
    requires w > 0 && l < w && len < w
    ensures (w * h + l + len) % w == (l + len) % w
    ensures (w * h + l + len) / w == if (l + len) % w < len then h + 1 else h
  {
    if l + len < w {
      ModUnique(w * h + l + len, w, h, l + len);
      ModUnique(l + len, w, 0, l + len);
    } else {
      assert w * (h + 1) == w * h + w;
      ModUnique(w * h + l + len, w, h + 1, l + len - w);
      ModUnique(l + len, w, 1, l + len - w);
    }
  }

  // ---- Digests of messages in pieces ----

  function Joined(pieces: seq<seq<byte>>): seq<byte> {
    if pieces == [] then [] else Joined(pieces[..|pieces| - 1]) + pieces[|pieces| - 1]
  }

  /** However a message is split over calls of md5_update, the digest is that of
      RFC 1321 whenever the count of bytes fits. */
  method DigestOf(w: nat, pieces: seq<seq<byte>>) returns (digest: seq<byte>)
    requires Width(w) && forall i | 0 <= i < |pieces| :: |pieces[i]| < w
    ensures LengthFits(w, |Joined(pieces)|) ==> digest == Digest(Joined(pieces))
    ensures digest == Output(Folded(Padded(Joined(pieces), LengthField(w, |Joined(pieces)|))))
  {
    var ctx := new Context(w);
    hide Folded, Padded, LengthField, LengthFits, Holding, Counted, Longs, Digest, Output, Joined;
    JoinedNone();
    assert pieces[..0] == [];
    for i := 0 to |pieces|
      invariant ctx.Valid() && ctx.w == w && fresh(ctx) && fresh(ctx.buf) && ctx.data == Joined(pieces[..i])
    {
      ctx.Update(pieces[i]);
      JoinedMore(pieces, i);
    }
    assert pieces[..|pieces|] == pieces;
    DigestFits(w, ctx.data);
    digest := ctx.Final();
  }

  lemma JoinedNone()
    ensures Joined([]) == []
  {
  }

  lemma JoinedMore(pieces: seq<seq<byte>>, i: nat)
    requires i < |pieces|
    ensures Joined(pieces[..i + 1]) == Joined(pieces[..i]) + pieces[i]
  {
    assert pieces[..i + 1][..i] == pieces[..i];
  }

  lemma DigestFits(w: nat, data: seq<byte>)
    requires Width(w)
    ensures LengthFits(w, |data|) ==> Output(Folded(Padded(data, LengthField(w, |data|)))) == Digest(data)
  {
    hide LengthField, Length64, Output, Folded, Padded;
    LengthExact(w, |data|);
  }

  // ---- HMAC ----

  function Masked(s: seq<byte>, mask: byte): (r: seq<byte>)
    ensures |r| == |s|
  {
    seq(|s|, i requires 0 <= i < |s| => XorByte(s[i], mask))
  }

  function XorByte(a: byte, b: byte): byte {
    PowersOf256();
    BitwiseBound(ONE, a, b, 8);
    Xor(a, b)
  }

  ghost function BlockKey(key: seq<byte>): (k: seq<byte>)
    ensures |k| == BLOCK
  {
    var k := if |key| > BLOCK then Digest(key) else key;
    k + ZeroBytes(BLOCK - |k|)
  }

  /** Section 2 of RFC 2104, with MD5. */
  ghost function Hmac(key: seq<byte>, text: seq<byte>): seq<byte> {
    var k := BlockKey(key);
    Digest(Masked(k, 0x5c) + Digest(Masked(k, 0x36) + text))
  }

  const HEX: string := "0123456789abcdef"

  function Hex(s: seq<byte>): string {
    if s == [] then "" else Hex(s[..|s| - 1]) + [HEX[s[|s| - 1] / 16], HEX[s[|s| - 1] % 16]]
  }

  method HexOf(digest: seq<byte>) returns (s: string)
    ensures s == Hex(digest)
  {
    s := "";
    assert digest[..0] == [];
    for i := 0 to |digest|
      invariant s == Hex(digest[..i])
    {
      var j := digest[i];
      Nibbles(j);
      s := s + [HEX[ShiftRight(j, 4)], HEX[And(j, 0xf)]];
      assert digest[..i + 1][..i] == digest[..i];
    }
    assert digest[..|digest|] == digest;
  }

  lemma Nibbles(j: byte)
    ensures ShiftRight(j, 4) == j / 16 < 16 && And(j, 0xf) == j % 16
  {
    assert Pow2(4) == 16;
    DownIsQuotient(j, 4);
    AndMask(j, 4);
  }

  method MaskPad(pad: seq<byte>, mask: byte) returns (r: seq<byte>)
    ensures r == Masked(pad, mask)
  {
    r := [];
    for i := 0 to |pad|
      invariant r == Masked(pad, mask)[..i]
    {
      r := r + [XorByte(pad[i], mask)];
    }
  }

  /** hmac_md5. */
  method HmacMd5(w: nat, text: seq<byte>, key: seq<byte>) returns (s: string)
    requires Width(w) && |text| < w && |key| < w
    ensures LengthFits(w, BLOCK + |text|) ==> s == Hex(Hmac(key, text))
  {
    hide Masked, Folded, Padded, LengthField, Length64, Output;
    var k := key;
    if |key| > BLOCK {
      JoinedOne(key);
      k := DigestOf(w, [key]);
      Fits(w, |key|);
    }
    var pad := k + ZeroBytes(BLOCK - |k|);
    var ipad := MaskPad(pad, 0x36);
    var opad := MaskPad(pad, 0x5c);
    JoinedTwo(ipad, text);
    var digest := DigestOf(w, [ipad, text]);
    JoinedTwo(opad, digest);
    var outer := DigestOf(w, [opad, digest]);
    Fits(w, BLOCK + 16);
    s := HexOf(outer);
  }

  lemma Fits(w: nat, n: nat)
    requires Width(w) && n < w
    ensures LengthFits(w, n)
  {
  }

  lemma {:induction false} JoinedOne(a: seq<byte>)
    ensures Joined([a]) == a
  {
    assert [a][..0] == [] && [] + a == a;
  }

  lemma JoinedTwo(a: seq<byte>, b: seq<byte>)
    ensures Joined([a, b]) == a + b
  {
    JoinedOne(a);
    assert [a, b][..1] == [a];
  }
}
