/** The base64 transfer encoding (RFC 2045, section 6.8). */
module Base64 {
  import opened Sequences
  import opened Messages
  import opened Buffers

  const PAD: bv8 := 0x3d

  // ---- The alphabet ----

  /** The letter of six bits. */
  function Letter(x: bv8): bv8
    requires x < 64
  {
    if x < 26 then x + 0x41 else if x < 52 then x - 26 + 0x61 else if x < 62 then x - 52 + 0x30
    else if x == 62 then 0x2b else 0x2f
  }

  datatype Class = Data(bits: bv8) | White | Pad | Junk

  /** What the decoder takes a character for. */
  function Classify(c: bv8): Class {
    if 0x41 <= c <= 0x5a then Data(c - 0x41)
    else if 0x61 <= c <= 0x7a then Data(c - 0x61 + 26)
    else if 0x30 <= c <= 0x39 then Data(c - 0x30 + 52)
    else if c == 0x2b then Data(62)
    else if c == 0x2f then Data(63)
    else if c == PAD then Pad
    else if c == 0 || c == 9 || c == LF || c == 12 || c == CR || c == 0x20 then White
    else Junk
  }

  lemma LetterIsData(x: bv8)
    requires x < 64
    ensures Classify(Letter(x)) == Data(x)
  {
  }

  // ---- Bytes and groups of six bits ----

  function First(a: bv8, b: bv8): bv8 { (a << 2) | (b >> 4) }
  function Second(b: bv8, c: bv8): bv8 { (b << 4) | (c >> 2) }
  function Third(c: bv8, d: bv8): bv8 { (c << 6) | d }

  /** The whole bytes in groups of six bits. */
  function BytesOf(g: seq<bv8>): (s: seq<bv8>)
    ensures |s| == 3 * (|g| / 4) + (if |g| % 4 == 0 then 0 else |g| % 4 - 1)
  {
    if |g| < 2 then []
    else if |g| == 2 then [First(g[0], g[1])]
    else if |g| == 3 then [First(g[0], g[1]), Second(g[1], g[2])]
    else [First(g[0], g[1]), Second(g[1], g[2]), Third(g[2], g[3])] + BytesOf(g[4..])
  }

  lemma {:induction false} BytesAppend(g: seq<bv8>, h: seq<bv8>)
    requires |g| % 4 == 0
    ensures BytesOf(g + h) == BytesOf(g) + BytesOf(h)
  {
    hide First, Second, Third;
    if g == [] {
      assert g + h == h;
    } else {
      assert (g + h)[4..] == g[4..] + h;
      BytesAppend(g[4..], h);
      BytesFirst(g);
      BytesFirst(g + h);
      hide BytesOf;
      Assoc([First(g[0], g[1]), Second(g[1], g[2]), Third(g[2], g[3])], BytesOf(g[4..]), BytesOf(h));
    }
  }

  lemma BytesFirst(g: seq<bv8>)
    requires |g| >= 4
    ensures BytesOf(g) == [First(g[0], g[1]), Second(g[1], g[2]), Third(g[2], g[3])] + BytesOf(g[4..])
  {
    hide First, Second, Third;
  }

  function Sextet(x: bv8): bv8 { x & 0x3f }

  /** The quads of letters of the bytes, padded at the end. */
  function Quads(s: seq<bv8>): (t: seq<bv8>)
    ensures |t| == 4 * ((|s| + 2) / 3)
  {
    if s == [] then []
    else if |s| == 1 then [Letter(s[0] >> 2), Letter(Sextet(s[0] << 4)), PAD, PAD]
    else if |s| == 2 then [Letter(s[0] >> 2), Letter(Sextet((s[0] << 4) + (s[1] >> 4))), Letter(Sextet(s[1] << 2)), PAD]
    else
      [Letter(s[0] >> 2), Letter(Sextet((s[0] << 4) + (s[1] >> 4))),
       Letter(Sextet((s[1] << 2) + (s[2] >> 6))), Letter(Sextet(s[2]))]
         + Quads(s[3..])
  }

  /** The quads with a line break after every fifteen and at the end; `i` are on the
      line already. */
  function Lines(t: seq<bv8>, i: nat): (r: seq<bv8>)
    requires i < 15
    ensures |r| >= 2
  {
    if |t| < 4 then [CR, LF]
    else if i == 14 then t[..4] + [CR, LF] + Lines(t[4..], 0)
    else t[..4] + Lines(t[4..], i + 1)
  }

  function Encoded(s: seq<bv8>): seq<bv8> {
    Lines(Quads(s), 0)
  }

  // ---- Encoding ----

  method PutQuad(ret: array<bv8>, d: nat, w: bv8, x: bv8, y: bv8, z: bv8) returns (d': nat)
    requires d + 4 <= ret.Length
    modifies ret
    ensures d' == d + 4 && ret[..d'] == old(ret[..d]) + [w, x, y, z]
  {
    d' := Put(ret, d, w);
    d' := Put(ret, d', x);
    d' := Put(ret, d', y);
    d' := Put(ret, d', z);
  }

  /** The length that rfc822_binary predicts. */
  function Predicted(n: nat): nat {
    var i := (n + 2) / 3 * 4;
    i + 2 * (i / 60 + 1)
  }

  function Quad(a: bv8, b: bv8, c: bv8): seq<bv8> {
    [Letter(a >> 2), Letter(Sextet((a << 4) + (b >> 4))), Letter(Sextet((b << 2) + (c >> 6))), Letter(Sextet(c))]
  }

  /** What is still to be written, one quad on. */
  lemma {:induction false} FirstQuad(s: seq<bv8>, i: nat)
    requires s != [] && i < 15
    ensures |Quads(s)| >= 4
    ensures Lines(Quads(s), i) ==
      Quads(s)[..4] + ((if i == 14 then [CR, LF] else []) + Lines(Quads(s)[4..], if i == 14 then 0 else i + 1))
    ensures |s| >= 3 ==> Quads(s)[..4] == Quad(s[0], s[1], s[2]) && Quads(s)[4..] == Quads(s[3..])
  {
    if |s| >= 3 {
      assert Quads(s) == Quad(s[0], s[1], s[2]) + Quads(s[3..]);
    }
  }

  lemma Predict(src: seq<bv8>)
    ensures |Encoded(src)| == Predicted(|src|)
  {
    hide Lines, Quads;
    LinesLength(Quads(src), 0, (|src| + 2) / 3);
    Sixtieth((|src| + 2) / 3);
  }

  lemma Sixtieth(q: nat)
    ensures q * 4 / 60 == q / 15
  {
  }

  lemma {:induction false} LinesLength(t: seq<bv8>, i: nat, q: nat)
    requires i < 15 && |t| == 4 * q
    ensures |Lines(t, i)| == 4 * q + 2 * ((i + q) / 15) + 2
  {
    if q > 0 {
      LinesLength(t[4..], if i == 14 then 0 else i + 1, q - 1);
    }
  }

  function Break(i: nat): seq<bv8> {
    if i == 14 then [CR, LF] else []
  }

  function OnLine(i: nat): nat {
    if i == 14 then 0 else i + 1
  }

  /** A quad, and a line break after the fifteenth on the line. */
  method PutGroup(ret: array<bv8>, d: nat, i: nat, w: bv8, x: bv8, y: bv8, z: bv8) returns (d': nat, i': nat)
    requires i < 15 && d + 4 + |Break(i)| <= ret.Length
    modifies ret
    ensures d' == d + 4 + |Break(i)| && i' == OnLine(i)
    ensures ret[..d'] == old(ret[..d]) + ([w, x, y, z] + Break(i))
  {
    d' := PutQuad(ret, d, w, x, y, z);
    i' := i + 1;
    if i' == 15 {
      i' := 0;
      d' := PutBreak(ret, d');
    }
  }

  /** What is written and what is to be written make up the text. */
  ghost predicate Sum(out: seq<bv8>, rest: seq<bv8>, i: nat, text: seq<bv8>)
    requires i < 15
  {
    out + Lines(Quads(rest), i) == text
  }

  lemma {:induction false} SumStep(out: seq<bv8>, rest: seq<bv8>, i: nat, text: seq<bv8>)
    requires i < 15 && Sum(out, rest, i, text) && rest != []
    ensures |out| + 4 + |Break(i)| + 2 <= |text|
    ensures |rest| >= 3 ==> Sum(out + (Quad(rest[0], rest[1], rest[2]) + Break(i)), rest[3..], OnLine(i), text)
    ensures |rest| < 3 ==> Sum(out + (Quads(rest) + Break(i)), [], OnLine(i), text)
  {
    hide Lines, Quads, Quad;
    FirstQuad(rest, i);
    var q, more := Quads(rest)[..4], Lines(Quads(rest)[4..], OnLine(i));
    assert out + (q + (Break(i) + more)) == out + (q + Break(i)) + more;
    if |rest| < 3 {
      LastQuad(rest);
      assert Quads([]) == [] by { NoLines(i); }
    }
  }

  /** rfc822_binary: the quads in lines, and the predicted length is exact. */
  method Encode(src: seq<bv8>) returns (text: seq<bv8>)
    ensures text == Encoded(src) && |text| == Predicted(|src|)
  {
    hide Quads, Lines, Letter, Sum;
    var len := Predicted(|src|);
    Predict(src);
    var ret := new bv8[len + 1];
    var d: nat, i: nat := 0, 0;
    var s := src;
    SumStart(src);
    assert ret[..0] == [];
    while |s| >= 3
      invariant i < 15 && d <= len && Sum(ret[..d], s, i, Encoded(src))
      decreases |s|
    {
      SumStep(ret[..d], s, i, Encoded(src));
      d, i := PutGroup(ret, d, i, Letter(s[0] >> 2), Letter(Sextet((s[0] << 4) + (s[1] >> 4))),
                       Letter(Sextet((s[1] << 2) + (s[2] >> 6))), Letter(Sextet(s[2])));
      s := s[3..];
    }
    if |s| > 0 {
      SumStep(ret[..d], s, i, Encoded(src));
      LastQuad(s);
      d, i := PutGroup(ret, d, i, Letter(s[0] >> 2), Letter(Sextet((s[0] << 4) + (if |s| == 2 then s[1] >> 4 else 0))),
                       if |s| == 2 then Letter(Sextet((s[1] << 2) + 0)) else PAD, PAD);
      s := [];
    }
    SumEnd(ret[..d], i, Encoded(src));
    d := PutBreak(ret, d);
    ret[d] := 0;
    text := ret[..d];
  }

  lemma {:induction false} SumStart(src: seq<bv8>)
    ensures Sum([], src, 0, Encoded(src))
  {
    assert [] + Encoded(src) == Encoded(src);
  }

  lemma SumEnd(out: seq<bv8>, i: nat, text: seq<bv8>)
    requires i < 15 && Sum(out, [], i, text)
    ensures out + [CR, LF] == text && |out| + 2 == |text|
  {
  }

  lemma NoLines(i: nat)
    requires i < 15
    ensures Lines(Quads([]), i) == Lines([], i) == [CR, LF]
  {
  }

  lemma LastQuad(s: seq<bv8>)
    requires 1 <= |s| <= 2
    ensures Quads(s) == [Letter(s[0] >> 2), Letter(Sextet((s[0] << 4) + (if |s| == 2 then s[1] >> 4 else 0))),
                         if |s| == 2 then Letter(Sextet((s[1] << 2) + 0)) else PAD, PAD]
    ensures Quads(s)[..4] == Quads(s) && Quads(s)[4..] == []
  {
  }

  // ---- The text that is written ----

  /** The character `c` stands for the number `x` in table 1 of section 6.8 of RFC 2045. */
  predicate StandsFor(c: bv8, x: bv8) {
    || (x < 26 && c == 0x41 + x) || (26 <= x < 52 && c == 0x61 + (x - 26)) || (52 <= x < 62 && c == 0x30 + (x - 52))
    || (x == 62 && c == 0x2b) || (x == 63 && c == 0x2f)
  }

  lemma LetterStands(x: bv8)
    requires x < 64
    ensures StandsFor(Letter(x), x)
  {
  }

  /** Three bytes, or what there is of them, as four characters. */
  predicate QuadOf(s: seq<bv8>, q: seq<bv8>) {
    && |q| == 4 && s != []
    && StandsFor(q[0], s[0] >> 2)
    && StandsFor(q[1], ((s[0] & 0x03) << 4) | (if |s| > 1 then s[1] >> 4 else 0))
    && (if |s| == 1 then q[2] == 0x3d
        else StandsFor(q[2], ((s[1] & 0x0f) << 2) | (if |s| > 2 then s[2] >> 6 else 0)))
    && if |s| <= 2 then q[3] == 0x3d else StandsFor(q[3], s[2] & 0x3f)
  }

  lemma SextetsAre(a: bv8, b: bv8)
    ensures a >> 2 < 64 && Sextet(a << 4) == ((a & 0x03) << 4) | 0 && Sextet(a) == a & 0x3f
    ensures Sextet((a << 4) + (b >> 4)) == ((a & 0x03) << 4) | (b >> 4)
    ensures Sextet((a << 2) + (b >> 6)) == ((a & 0x0f) << 2) | (b >> 6)
    ensures Sextet(a << 2) == ((a & 0x0f) << 2) | 0
  {
  }

  lemma {:induction false} QuadAt(s: seq<bv8>, k: nat)
    requires 3 * k < |s|
    ensures QuadOf(s[3 * k..], Quads(s)[4 * k..4 * k + 4])
  {
    if k == 0 {
      assert s[0..] == s;
      FirstQuadOf(s);
    } else {
      hide QuadOf, Letter, Sextet;
      QuadAt(s[3..], k - 1);
      assert s[3..][3 * (k - 1)..] == s[3 * k..];
      QuadsRest(s);
      assert Quads(s[3..])[4 * (k - 1)..4 * (k - 1) + 4] == Quads(s)[4 * k..4 * k + 4];
    }
  }

  lemma QuadsRest(s: seq<bv8>)
    requires |s| >= 3
    ensures |Quads(s)| >= 4 && Quads(s)[4..] == Quads(s[3..])
  {
    hide Letter, Sextet;
  }

  lemma FirstQuadOf(s: seq<bv8>)
    requires s != []
    ensures QuadOf(s, Quads(s)[0..4])
  {
    var a, b := s[0], if |s| > 1 then s[1] else 0;
    SextetSmall(a, b, if |s| > 2 then s[2] else 0);
    SextetsSmall(a << 4, b << 2);
    SextetsAre(a, b);
    SextetsAre(b, if |s| > 2 then s[2] else 0);
    SextetsAre(if |s| > 2 then s[2] else 0, 0);
    LettersStand(s);
    hide Letter, Sextet, StandsFor;
  }

  lemma LettersStand(s: seq<bv8>)
    ensures forall x | x < 64 :: StandsFor(Letter(x), x)
  {
    forall x | x < 64
      ensures StandsFor(Letter(x), x)
    {
      LetterStands(x);
    }
  }

  /** Where quad `k` of `n` stands, and the breaks after every fifteenth and at the end. */
  predicate Placed(r: seq<bv8>, t: seq<bv8>, i: nat, n: nat, k: nat) {
    var p := 4 * k + 2 * ((i + k) / 15);
    if k >= n then k == n && |r| == p + 2 && r[p..] == [0x0d, 0x0a]
    else
      && p + 4 <= |r| && 4 * k + 4 <= |t| && r[p..p + 4] == t[4 * k..4 * k + 4]
      && ((i + k) % 15 == 14 ==> p + 6 <= |r| && r[p + 4..p + 6] == [0x0d, 0x0a])
  }

  lemma {:induction false} LinesAt(t: seq<bv8>, i: nat, n: nat, k: nat)
    requires i < 15 && |t| == 4 * n && k <= n
    ensures Placed(Lines(t, i), t, i, n, k)
    decreases n
  {
    hide Placed, Lines;
    if n == 0 {
      NoQuads(t, i);
    } else {
      LinesFirst(t, i);
      if k > 0 {
        LinesAt(t[4..], OnLine(i), n - 1, k - 1);
        PlacedNext(Lines(t, i), t, i, n, k, Lines(t[4..], OnLine(i)));
      } else {
        PlacedFirst(Lines(t, i), t, i, n, Lines(t[4..], OnLine(i)));
      }
    }
  }

  lemma NoQuads(t: seq<bv8>, i: nat)
    requires i < 15 && |t| == 0
    ensures Placed(Lines(t, i), t, i, 0, 0)
  {
  }

  lemma PlacedFirst(r: seq<bv8>, t: seq<bv8>, i: nat, n: nat, rest: seq<bv8>)
    requires i < 15 && |t| == 4 * n && n > 0 && r == t[..4] + Break(i) + rest
    ensures Placed(r, t, i, n, 0)
  {
  }

  lemma PlacedNext(r: seq<bv8>, t: seq<bv8>, i: nat, n: nat, k: nat, rest: seq<bv8>)
    requires i < 15 && |t| == 4 * n && 0 < k <= n && r == t[..4] + Break(i) + rest
    requires Placed(rest, t[4..], OnLine(i), n - 1, k - 1)
    ensures Placed(r, t, i, n, k)
  {
    var a := t[..4] + Break(i);
    var p := 4 * (k - 1) + 2 * ((OnLine(i) + (k - 1)) / 15);
    Position(i, k);
    Moved(r, a, rest, p, if k == n then 2 else 4);
    if (i + k) % 15 == 14 && k < n {
      Moved(r, a, rest, p + 4, 2);
    }
    assert k < n ==> t[4..][4 * (k - 1)..4 * (k - 1) + 4] == t[4 * k..4 * k + 4];
  }

  lemma Position(i: nat, k: nat)
    requires i < 15 && k > 0
    ensures 4 + |Break(i)| + (4 * (k - 1) + 2 * ((OnLine(i) + (k - 1)) / 15)) == 4 * k + 2 * ((i + k) / 15)
    ensures (OnLine(i) + (k - 1)) % 15 == (i + k) % 15
  {
  }

  lemma Moved(r: seq<bv8>, a: seq<bv8>, b: seq<bv8>, p: nat, n: nat)
    requires r == a + b && p + n <= |b|
    ensures r[|a| + p..|a| + p + n] == b[p..p + n] && (p + n == |b| ==> r[|a| + p..] == b[p..])
  {
  }

  lemma LinesFirst(t: seq<bv8>, i: nat)
    requires i < 15 && |t| >= 4
    ensures Lines(t, i) == t[..4] + Break(i) + Lines(t[4..], OnLine(i))
  {
    assert t[..4] + [] == t[..4];
  }

  /** The text is the quads of three bytes each, fifteen on a line, and a break at the
      end. */
  lemma EncodedQuad(s: seq<bv8>, k: nat)
    requires 3 * k < |s|
    ensures var t, p := Encoded(s), 4 * k + 2 * (k / 15);
      && p + 6 <= |t| && QuadOf(s[3 * k..], t[p..p + 4])
      && (k % 15 == 14 || 3 * k + 3 >= |s| ==> t[p + 4..p + 6] == [0x0d, 0x0a])
  {
    hide Quads, Lines, QuadOf, Placed;
    var n := (|s| + 2) / 3;
    LinesAt(Quads(s), 0, n, k);
    LinesAt(Quads(s), 0, n, k + 1);
    QuadAt(s, k);
    PlacedHere(Encoded(s), Quads(s), n, k);
  }

  lemma PlacedHere(r: seq<bv8>, t: seq<bv8>, n: nat, k: nat)
    requires k < n && |t| == 4 * n && Placed(r, t, 0, n, k) && Placed(r, t, 0, n, k + 1)
    ensures var p := 4 * k + 2 * (k / 15);
      && p + 6 <= |r| && r[p..p + 4] == t[4 * k..4 * k + 4]
      && (k % 15 == 14 || k + 1 == n ==> r[p + 4..p + 6] == [0x0d, 0x0a])
  {
    var p := 4 * k + 2 * (k / 15);
    if k % 15 != 14 {
      Fifteenth(k);
      assert p + 4 == 4 * (k + 1) + 2 * ((k + 1) / 15);
      if k + 1 == n {
        assert |r| == p + 6;
        assert r[p + 4..] == r[p + 4..p + 6];
      }
    }
  }

  lemma Fifteenth(k: nat)
    requires k % 15 != 14
    ensures (k + 1) / 15 == k / 15
  {
  }

  // ---- Decoding ----

  /** The data before the first character that is neither data nor white space. */
  function DataOf(src: seq<bv8>): (g: seq<bv8>)
    ensures |g| <= |src|
  {
    if src == [] then []
    else if Classify(src[0]).Data? then [Classify(src[0]).bits] + DataOf(src[1..])
    else if Classify(src[0]).White? then DataOf(src[1..])
    else []
  }

  /** Where that character is. */
  function StopAt(src: seq<bv8>): (k: nat)
    ensures k <= |src|
  {
    if src == [] || Classify(src[0]).Pad? || Classify(src[0]).Junk? then 0 else 1 + StopAt(src[1..])
  }

  /** The text up to the end, or to padding where it may stand; anything else is an
      error, but what follows the padding is not looked at. */
  function Decoded(src: seq<bv8>): Option<seq<bv8>> {
    var g, k := DataOf(src), StopAt(src);
    if k == |src| then Some(BytesOf(g))
    else if Classify(src[k]).Junk? then None
    else if |g| % 4 == 3 || (|g| % 4 == 2 && k + 1 < |src| && src[k + 1] == PAD) then Some(BytesOf(g))
    else None
  }

  lemma {:induction false} BytesMore(g: seq<bv8>, x: bv8)
    ensures |g| % 4 == 0 ==> BytesOf(g + [x]) == BytesOf(g)
    ensures |g| % 4 == 1 ==> BytesOf(g + [x]) == BytesOf(g) + [First(g[|g| - 1], x)]
    ensures |g| % 4 == 2 ==> BytesOf(g + [x]) == BytesOf(g) + [Second(g[|g| - 1], x)]
    ensures |g| % 4 == 3 ==> BytesOf(g + [x]) == BytesOf(g) + [Third(g[|g| - 1], x)]
  {
    hide BytesOf, First, Second, Third;
    var n := |g| - |g| % 4;
    assert g == g[..n] + g[n..];
    BytesMoreAt(g[..n], g[n..], x);
  }

  lemma BytesMoreAt(front: seq<bv8>, h: seq<bv8>, x: bv8)
    requires |front| % 4 == 0 && |h| < 4
    ensures var g := front + h;
      && (|h| == 0 ==> BytesOf(g + [x]) == BytesOf(g))
      && (|h| == 1 ==> BytesOf(g + [x]) == BytesOf(g) + [First(g[|g| - 1], x)])
      && (|h| == 2 ==> BytesOf(g + [x]) == BytesOf(g) + [Second(g[|g| - 1], x)])
      && (|h| == 3 ==> BytesOf(g + [x]) == BytesOf(g) + [Third(g[|g| - 1], x)])
  {
    hide BytesOf, First, Second, Third;
    Assoc(front, h, [x]);
    BytesAppend(front, h);
    BytesAppend(front, h + [x]);
    BytesTail(h, x);
    var more :=
      if |h| == 0 then [] else if |h| == 1 then [First(h[0], x)]
      else if |h| == 2 then [Second(h[1], x)] else [Third(h[2], x)];
    Assoc(BytesOf(front), BytesOf(h), more);
    assert h != [] ==> (front + h)[|front + h| - 1] == h[|h| - 1];
    assert BytesOf(h) + [] == BytesOf(h);
  }

  lemma {:induction false} BytesTail(h: seq<bv8>, x: bv8)
    requires |h| < 4
    ensures |h| == 0 ==> BytesOf(h + [x]) == BytesOf(h)
    ensures |h| == 1 ==> BytesOf(h + [x]) == BytesOf(h) + [First(h[0], x)]
    ensures |h| == 2 ==> BytesOf(h + [x]) == BytesOf(h) + [Second(h[1], x)]
    ensures |h| == 3 ==> BytesOf(h + [x]) == BytesOf(h) + [Third(h[2], x)]
  {
    if |h| == 3 {
      assert (h + [x])[4..] == [];
    }
  }

  /** The bits of the next byte that are there already. */
  function Partial(g: seq<bv8>): bv8 {
    if |g| % 4 == 1 then g[|g| - 1] << 2
    else if |g| % 4 == 2 then g[|g| - 1] << 4
    else if |g| % 4 == 3 then g[|g| - 1] << 6
    else 0
  }

  /** Installs six bits. */
  method Install(ret: array<bv8>, d: nat, e: nat, c: bv8, ghost g: seq<bv8>) returns (d': nat, e': nat)
    requires e == |g| % 4 && d == |BytesOf(g)| && d + 1 < ret.Length && ret[..d] == BytesOf(g)
    requires e > 0 ==> ret[d] == Partial(g)
    modifies ret
    ensures e' == |g + [c]| % 4 && d' == |BytesOf(g + [c])| && d' < ret.Length && ret[..d'] == BytesOf(g + [c])
    ensures e' > 0 ==> ret[d'] == Partial(g + [c])
  {
    BytesMore(g, c);
    hide BytesOf;
    d', e' := d, e + 1;
    if e == 0 {
      ret[d'] := c << 2;
    } else if e == 1 {
      ret[d'] := ret[d'] | (c >> 4);
      d' := d' + 1;
      ret[d'] := c << 4;
    } else if e == 2 {
      ret[d'] := ret[d'] | (c >> 2);
      d' := d' + 1;
      ret[d'] := c << 6;
    } else {
      ret[d'] := ret[d'] | c;
      d' := d' + 1;
      e' := 0;
    }
  }

  /** The first `i` characters are decoded, or the first of two paddings was met. */
  ghost predicate Decoding(src: seq<bv8>, i: nat, g: seq<bv8>, e: nat) {
    && i <= |src| && |g| <= i
    && (|| (e == |g| % 4 && g + DataOf(src[i..]) == DataOf(src) && i + StopAt(src[i..]) == StopAt(src))
        || (e == 3 && |g| % 4 == 2 && g == DataOf(src) && 0 < i < |src| && StopAt(src) == i - 1
            && Classify(src[i - 1]).Pad? && src[i] == PAD))
  }

  lemma DecodingNext(src: seq<bv8>, i: nat, g: seq<bv8>, e: nat)
    requires Decoding(src, i, g, e) && i < |src|
    ensures var c := Classify(src[i]);
      && (c.Data? ==> e == |g| % 4 && Decoding(src, i + 1, g + [c.bits], (e + 1) % 4))
      && (c.White? ==> Decoding(src, i + 1, g, e))
      && (c.Junk? ==> Decoded(src) == None)
      && (c.Pad? && e == 3 ==> Decoded(src) == Some(BytesOf(g)))
      && (c.Pad? && e == 2 ==>
            if i + 1 < |src| && src[i + 1] == PAD then Decoding(src, i + 1, g, 3) else Decoded(src) == None)
      && (c.Pad? && e == 2 ==> |g| % 4 == 2)
      && (c.Pad? && e < 2 ==> Decoded(src) == None)
  {
    hide Decoding, Decoded, Classify, BytesOf;
    DecodingMore(src, i, g, e);
    DecodingStops(src, i, g, e);
  }

  /** The rest of the text after a character. */
  lemma RestFirst(src: seq<bv8>, i: nat)
    requires i < |src|
    ensures var c, t := Classify(src[i]), src[i + 1..];
      && (c.Data? ==> DataOf(src[i..]) == [c.bits] + DataOf(t) && StopAt(src[i..]) == 1 + StopAt(t))
      && (c.White? ==> DataOf(src[i..]) == DataOf(t) && StopAt(src[i..]) == 1 + StopAt(t))
      && (c.Pad? || c.Junk? ==> DataOf(src[i..]) == [] && StopAt(src[i..]) == 0)
  {
    hide Classify;
    assert src[i..][1..] == src[i + 1..];
  }

  lemma DecodingMore(src: seq<bv8>, i: nat, g: seq<bv8>, e: nat)
    requires Decoding(src, i, g, e) && i < |src|
    ensures var c := Classify(src[i]);
      && (c.Data? ==> e == |g| % 4 && Decoding(src, i + 1, g + [c.bits], (e + 1) % 4))
      && (c.White? ==> Decoding(src, i + 1, g, e))
  {
    RestFirst(src, i);
    PadIsPad(src[i]);
    hide DataOf, StopAt, Classify;
    var c := Classify(src[i]);
    if c.Data? {
      Assoc(g, [c.bits], DataOf(src[i + 1..]));
    }
  }

  lemma PadIsPad(c: bv8)
    ensures Classify(c).Pad? <==> c == PAD
  {
  }

  /** At padding or junk the data have ended, here or one character before. */
  lemma StopFacts(src: seq<bv8>, i: nat, g: seq<bv8>, e: nat)
    requires Decoding(src, i, g, e) && i < |src| && (Classify(src[i]).Pad? || Classify(src[i]).Junk?)
    ensures DataOf(src) == g
    ensures if StopAt(src) == i then e == |g| % 4
            else e == 3 && |g| % 4 == 2 && 0 < i && StopAt(src) == i - 1 && Classify(src[i - 1]).Pad? && src[i] == PAD
  {
    RestFirst(src, i);
    hide DataOf, StopAt, Classify;
    assert g + [] == g;
  }

  lemma DecodingStops(src: seq<bv8>, i: nat, g: seq<bv8>, e: nat)
    requires Decoding(src, i, g, e) && i < |src|
    ensures var c := Classify(src[i]);
      && (c.Junk? ==> Decoded(src) == None)
      && (c.Pad? && e == 3 ==> Decoded(src) == Some(BytesOf(g)))
      && (c.Pad? && e == 2 ==>
            if i + 1 < |src| && src[i + 1] == PAD then Decoding(src, i + 1, g, 3) else Decoded(src) == None)
      && (c.Pad? && e == 2 ==> |g| % 4 == 2)
      && (c.Pad? && e < 2 ==> Decoded(src) == None)
  {
    PadIsPad(src[i]);
    if Classify(src[i]).Pad? || Classify(src[i]).Junk? {
      StopFacts(src, i, g, e);
      assert |g| <= i;
      hide DataOf, StopAt, Classify, BytesOf, Decoded;
      Decided(src);
    }
  }

  /** What the character decides at which the data end. */
  lemma Decided(src: seq<bv8>)
    requires StopAt(src) < |src|
    ensures var g, k := DataOf(src), StopAt(src);
      Decoded(src) ==
        if Classify(src[k]).Junk? then None
        else if |g| % 4 == 3 || (|g| % 4 == 2 && k + 1 < |src| && src[k + 1] == PAD) then Some(BytesOf(g))
        else None
  {
    hide DataOf, StopAt, Classify, BytesOf;
  }

  /** rfc822_base64, for every text; the buffer is always large enough. */
  method Decode(src: seq<bv8>) returns (r: Option<seq<bv8>>)
    ensures r == Decoded(src)
  {
    hide BytesOf, Decoding, Decoded, Classify;
    var ret := new bv8[4 + |src| * 3 / 4 + 1](_ => 0);
    var d: nat, e: nat, i: nat := 0, 0, 0;
    ghost var g := [];
    DecodingStart(src);
    while i < |src|
      invariant Decoding(src, i, g, e) && e <= 3 && |g| <= i <= |src|
      invariant d == |BytesOf(g)| && ret[..d] == BytesOf(g) && (e == |g| % 4 && e > 0 ==> ret[d] == Partial(g))
    {
      DecodingNext(src, i, g, e);
      var c := Classify(src[i]);
      i := i + 1;
      match c {
        case Data(bits) =>
          d, e := Install(ret, d, e, bits, g);
          g := g + [bits];
        case White =>
        case Pad =>
          if e == 3 {
            while i < |src| {
              i := i + 1;
            }
            return Some(ret[..d]);
          } else if e == 2 && i < |src| && src[i] == PAD {
            e := 3;
          } else {
            return None;
          }
        case Junk =>
          return None;
      }
    }
    DecodingEnd(src, g, e);
    ret[d] := 0;
    r := Some(ret[..d]);
  }

  lemma {:induction false} DecodingStart(src: seq<bv8>)
    ensures Decoding(src, 0, [], 0) && BytesOf([]) == []
  {
    assert src[0..] == src && [] + DataOf(src) == DataOf(src);
  }

  lemma DecodingEnd(src: seq<bv8>, g: seq<bv8>, e: nat)
    requires Decoding(src, |src|, g, e)
    ensures Decoded(src) == Some(BytesOf(g))
  {
    assert g + [] == g;
  }

  // ---- What the decoder makes of any text ----

  predicate IsLetter(c: bv8) {
    0x41 <= c <= 0x5a || 0x61 <= c <= 0x7a || 0x30 <= c <= 0x39 || c == 0x2b || c == 0x2f
  }

  /** NUL, a tab, a line feed, a form feed, a carriage return or a blank. */
  predicate IsBlank(c: bv8) {
    c == 0 || c == 9 || c == 10 || c == 12 || c == 13 || c == 32
  }

  lemma ClassIs(c: bv8)
    ensures (Classify(c).Data? <==> IsLetter(c)) && (Classify(c).White? <==> IsBlank(c))
    ensures Classify(c).Pad? <==> c == 0x3d
  {
  }

  predicate Ordinary(a: seq<bv8>) {
    forall i | 0 <= i < |a| :: IsLetter(a[i]) || IsBlank(a[i])
  }

  /** How many letters there are. */
  function Letters(a: seq<bv8>): nat {
    if a == [] then 0 else (if IsLetter(a[0]) then 1 else 0) + Letters(a[1..])
  }

  lemma {:induction false} OrdinaryRead(a: seq<bv8>, b: seq<bv8>)
    requires Ordinary(a)
    ensures DataOf(a + b) == DataOf(a) + DataOf(b) && StopAt(a + b) == |a| + StopAt(b)
    ensures |DataOf(a)| == Letters(a)
  {
    if a == [] {
      assert a + b == b;
    } else {
      hide Classify, IsLetter, IsBlank;
      ClassIs(a[0]);
      OrdinaryRead(a[1..], b);
      OneMore(a[0], a[1..]);
      OneMore(a[0], a[1..] + b);
      assert [a[0]] + a[1..] == a && [a[0]] + (a[1..] + b) == a + b;
      hide DataOf, StopAt;
      Assoc(if Classify(a[0]).Data? then [Classify(a[0]).bits] else [], DataOf(a[1..]), DataOf(b));
    }
  }

  /** The same data and the same rest of the text decode to the same. */
  lemma DecodedSame(s: seq<bv8>, t: seq<bv8>)
    requires DataOf(s) == DataOf(t) && s[StopAt(s)..] == t[StopAt(t)..]
    ensures Decoded(s) == Decoded(t)
  {
    hide DataOf, StopAt, BytesOf, Classify;
    var x, y := s[StopAt(s)..], t[StopAt(t)..];
    assert x != [] ==> x[0] == s[StopAt(s)] == t[StopAt(t)];
    assert |x| > 1 ==> x[1] == s[StopAt(s) + 1] == t[StopAt(t) + 1];
  }

  /** A blank among letters changes nothing. */
  lemma BlankSkipped(a: seq<bv8>, c: bv8, b: seq<bv8>)
    requires Ordinary(a) && IsBlank(c)
    ensures Decoded(a + [c] + b) == Decoded(a + b)
  {
    Assoc(a, [c], b);
    OrdinaryRead(a, b);
    OrdinaryRead(a, [c] + b);
    ClassIs(c);
    OneMore(c, b);
    hide DataOf, StopAt, Ordinary, Decoded, Classify, IsBlank;
    assert [] + DataOf(b) == DataOf(b);
    var k := StopAt(b);
    assert (a + b)[|a| + k..] == b[k..];
    assert (a + ([c] + b))[|a| + 1 + k..] == b[k..];
    DecodedSame(a + ([c] + b), a + b);
  }

  /** A character that is neither a letter nor a blank nor '=' makes the text invalid. */
  lemma JunkRefused(a: seq<bv8>, c: bv8, b: seq<bv8>)
    requires Ordinary(a) && !IsLetter(c) && !IsBlank(c) && c != 0x3d
    ensures Decoded(a + [c] + b) == None
  {
    Assoc(a, [c], b);
    OrdinaryRead(a, [c] + b);
    ClassIs(c);
    assert StopAt([c] + b) == 0;
    hide DataOf, StopAt, Ordinary, BytesOf;
    assert (a + ([c] + b))[|a|] == c;
  }

  /** '=' is valid as the fourth character of a quad, or as the third before another. */
  lemma PadTaken(a: seq<bv8>, b: seq<bv8>)
    requires Ordinary(a)
    ensures Decoded(a + [0x3d] + b).Some? <==>
      Letters(a) % 4 == 3 || (Letters(a) % 4 == 2 && b != [] && b[0] == 0x3d)
  {
    Assoc(a, [0x3d], b);
    OrdinaryRead(a, [0x3d] + b);
    assert StopAt([0x3d] + b) == 0 && DataOf([0x3d] + b) == [];
    hide DataOf, StopAt, Ordinary, BytesOf;
    var t := a + ([0x3d] + b);
    assert t[|a|] == 0x3d;
    assert b != [] ==> t[|a| + 1] == b[0];
    assert Classify(t[|a|]).Pad?;
  }

  // ---- Round trip ----

  lemma QuadRound(a: bv8, b: bv8, c: bv8)
    ensures First(a >> 2, Sextet((a << 4) + (b >> 4))) == a
    ensures Second(Sextet((a << 4) + (b >> 4)), Sextet((b << 2) + (c >> 6))) == b
    ensures Third(Sextet((b << 2) + (c >> 6)), Sextet(c)) == c
    ensures First(a >> 2, Sextet(a << 4)) == a
    ensures Second(Sextet((a << 4) + (b >> 4)), Sextet(b << 2)) == b
  {
  }

  /** Whatever the encoder makes of the bytes, the decoder gives them back. */
  lemma RoundTrip(s: seq<bv8>)
    ensures Decoded(Encoded(s)) == Some(s)
  {
    LinesRead(s, 0);
  }

  /** How the decoder reads on from a quad of data. */
  lemma QuadData(a: bv8, b: bv8, c: bv8, d: bv8, rest: seq<bv8>)
    requires a < 64 && b < 64 && c < 64 && d < 64
    ensures var t := [Letter(a), Letter(b), Letter(c), Letter(d)] + rest;
      DataOf(t) == [a, b, c, d] + DataOf(rest) && StopAt(t) == 4 + StopAt(rest)
  {
    hide Letter, Classify, DataOf, StopAt;
    LetterIsData(a);
    LetterIsData(b);
    LetterIsData(c);
    LetterIsData(d);
    OneMore(Letter(d), rest);
    OneMore(Letter(c), [Letter(d)] + rest);
    OneMore(Letter(b), [Letter(c)] + ([Letter(d)] + rest));
    OneMore(Letter(a), [Letter(b)] + ([Letter(c)] + ([Letter(d)] + rest)));
    Listed(Letter(a), Letter(b), Letter(c), Letter(d), rest);
    assert [a] + ([b] + ([c] + ([d] + DataOf(rest)))) == [a, b, c, d] + DataOf(rest);
  }

  lemma {:induction false} OneMore(x: bv8, rest: seq<bv8>)
    requires Classify(x).Data? || Classify(x).White?
    ensures DataOf([x] + rest) == (if Classify(x).Data? then [Classify(x).bits] else []) + DataOf(rest)
    ensures StopAt([x] + rest) == 1 + StopAt(rest)
  {
    assert ([x] + rest)[1..] == rest;
    assert [] + DataOf(rest) == DataOf(rest);
  }

  lemma {:induction false} BreakSkipped(rest: seq<bv8>)
    ensures DataOf([CR, LF] + rest) == DataOf(rest) && StopAt([CR, LF] + rest) == 2 + StopAt(rest)
  {
    OneMore(LF, rest);
    OneMore(CR, [LF] + rest);
    assert [CR, LF] + rest == [CR] + ([LF] + rest);
    assert [] + DataOf(rest) == DataOf(rest);
  }

  lemma {:induction false} DecodedMore(p: seq<bv8>, t: seq<bv8>, q: seq<bv8>)
    requires |q| == 4 && DataOf(p + t) == q + DataOf(t) && StopAt(p + t) == |p| + StopAt(t)
    ensures Decoded(p + t) == if Decoded(t) == None then None else Some(BytesOf(q) + Decoded(t).value)
  {
    BytesAppend(q, DataOf(t));
    var k := StopAt(t);
    if k < |t| {
      assert (p + t)[|p| + k] == t[k];
    }
    if k + 1 < |t| {
      assert (p + t)[|p| + k + 1] == t[k + 1];
    }
  }

  lemma {:induction false} LinesRead(s: seq<bv8>, i: nat)
    requires i < 15
    ensures Decoded(Lines(Quads(s), i)) == Some(s)
  {
    if s == [] {
      NoLines(i);
      BreakSkipped([]);
      assert [CR, LF] + [] == [CR, LF];
    } else {
      FirstQuad(s, i);
      if |s| >= 3 {
        LinesRead(s[3..], OnLine(i));
        GroupRead(s, i);
      } else {
        LastRead(s, i);
      }
    }
  }

  lemma {:induction false} GroupRead(s: seq<bv8>, i: nat)
    requires |s| >= 3 && i < 15 && Decoded(Lines(Quads(s[3..]), OnLine(i))) == Some(s[3..])
    requires Lines(Quads(s), i) == Quad(s[0], s[1], s[2]) + (Break(i) + Lines(Quads(s[3..]), OnLine(i)))
    ensures Decoded(Lines(Quads(s), i)) == Some(s)
  {
    hide Lines, Quads, Letter, Sextet, First, Second, Third, Decoded, DataOf, StopAt, BytesOf, Quad;
    var t := Lines(Quads(s[3..]), OnLine(i));
    var q := QuadRead(s[0], s[1], s[2], Break(i) + t);
    BreakSkipped(t);
    assert [] + t == t;
    var p := Quad(s[0], s[1], s[2]) + Break(i);
    assert p + t == Quad(s[0], s[1], s[2]) + (Break(i) + t);
    DecodedMore(p, t, q);
    assert s == [s[0], s[1], s[2]] + s[3..];
  }

  lemma QuadRead(a: bv8, b: bv8, c: bv8, rest: seq<bv8>) returns (q: seq<bv8>)
    ensures |q| == 4 && BytesOf(q) == [a, b, c] && |Quad(a, b, c)| == 4
    ensures DataOf(Quad(a, b, c) + rest) == q + DataOf(rest) && StopAt(Quad(a, b, c) + rest) == 4 + StopAt(rest)
  {
    hide Letter, Sextet, First, Second, Third, DataOf, StopAt;
    q := [a >> 2, Sextet((a << 4) + (b >> 4)), Sextet((b << 2) + (c >> 6)), Sextet(c)];
    SextetSmall(a, b, c);
    QuadData(q[0], q[1], q[2], q[3], rest);
    QuadRound(a, b, c);
    assert q[4..] == [];
  }

  lemma SextetSmall(a: bv8, b: bv8, c: bv8)
    ensures a >> 2 < 64 && Sextet((a << 4) + (b >> 4)) < 64 && Sextet((b << 2) + (c >> 6)) < 64 && Sextet(c) < 64
  {
  }

  lemma SextetsSmall(a: bv8, b: bv8)
    ensures Sextet(a) < 64 && Sextet(b) < 64
  {
  }

  lemma LastRead(s: seq<bv8>, i: nat)
    requires 1 <= |s| <= 2 && i < 15 && Lines(Quads(s), i) == Quads(s) + (Break(i) + Lines([], OnLine(i)))
    ensures Decoded(Lines(Quads(s), i)) == Some(s)
  {
    hide Lines, Letter, Sextet, First, Second, Decoded;
    var rest := Break(i) + Lines([], OnLine(i));
    SextetSmall(s[0], 0, 0);
    if |s| == 1 {
      assert s == [s[0]];
      QuadRound(s[0], 0, 0);
      SextetsSmall(s[0] << 4, 0);
      OneData(s[0] >> 2, Sextet(s[0] << 4), rest);
    } else {
      assert s == [s[0], s[1]];
      QuadRound(s[0], s[1], 0);
      SextetsSmall((s[0] << 4) + (s[1] >> 4), s[1] << 2);
      TwoData(s[0] >> 2, Sextet((s[0] << 4) + (s[1] >> 4)), Sextet(s[1] << 2), rest);
    }
  }

  lemma OneData(a: bv8, b: bv8, rest: seq<bv8>)
    requires a < 64 && b < 64
    ensures Decoded([Letter(a), Letter(b), PAD, PAD] + rest) == Some([First(a, b)])
  {
    hide Letter, First;
    LetterIsData(a);
    LetterIsData(b);
    var t := [PAD, PAD] + rest;
    assert DataOf(t) == [] && StopAt(t) == 0;
    OneMore(Letter(b), t);
    OneMore(Letter(a), [Letter(b)] + t);
    assert [Letter(a), Letter(b), PAD, PAD] + rest == [Letter(a)] + ([Letter(b)] + t);
  }

  lemma TwoData(a: bv8, b: bv8, c: bv8, rest: seq<bv8>)
    requires a < 64 && b < 64 && c < 64
    ensures Decoded([Letter(a), Letter(b), Letter(c), PAD] + rest) == Some([First(a, b), Second(b, c)])
  {
    hide Letter, First, Second;
    LetterIsData(a);
    LetterIsData(b);
    LetterIsData(c);
    var t := [PAD] + rest;
    assert DataOf(t) == [] && StopAt(t) == 0;
    OneMore(Letter(c), t);
    OneMore(Letter(b), [Letter(c)] + t);
    OneMore(Letter(a), [Letter(b)] + ([Letter(c)] + t));
    Listed(Letter(a), Letter(b), Letter(c), PAD, rest);
    hide DataOf, StopAt;
  }

  lemma Listed(a: bv8, b: bv8, c: bv8, d: bv8, rest: seq<bv8>)
    ensures [a, b, c, d] + rest == [a] + ([b] + ([c] + ([d] + rest)))
  {
  }
}
