/** The quoted-printable transfer encoding (RFC 2045, section 6.7). */
module QuotedPrintable {
  import opened Buffers

  const EQUALS: bv8 := 0x3d
  const SPACE: bv8 := 0x20

  /** The longest line, without the '=' of a soft line break. */
  const MAXL: nat := 75

  function HexDigit(x: bv8): bv8
    requires x < 16
  {
    if x < 10 then x + 0x30 else x - 10 + 0x41
  }

  predicate IsHex(c: bv8) {
    0x30 <= c <= 0x39 || 0x41 <= c <= 0x46 || 0x61 <= c <= 0x66
  }

  function HexValue(c: bv8): bv8 {
    c - (if 0x30 <= c <= 0x39 then 0x30 else (if c <= 0x5a then 0x41 else 0x61) - 10)
  }

  function HexByte(c: bv8, e: bv8): bv8 {
    (HexValue(c) << 4) + HexValue(e)
  }

  lemma HexRound(c: bv8)
    ensures c >> 4 < 16 && c & 0xf < 16
    ensures IsHex(HexDigit(c >> 4)) && IsHex(HexDigit(c & 0xf)) && HexByte(HexDigit(c >> 4), HexDigit(c & 0xf)) == c
  {
  }

  // ---- What the encoder writes ----

  /** Must be quoted if `next` follows. */
  predicate Quoted(c: bv8, next: bv8) {
    c < 0x20 || c == 0x7f || c & 0x80 != 0 || c == EQUALS || (c == SPACE && next == CR)
  }

  function Unit(c: bv8, next: bv8): (u: seq<bv8>)
    ensures 1 <= |u| <= 3 && u != [CR, LF]
  {
    if Quoted(c, next) then
      HexRound(c);
      [EQUALS, HexDigit(c >> 4), HexDigit(c & 0xf)]
    else [c]
  }

  /** The characters and line breaks of a text; `beyond` is the byte behind it. */
  function Units(s: seq<bv8>, beyond: bv8): (us: seq<seq<bv8>>)
    ensures forall i | 0 <= i < |us| :: 1 <= |us[i]| <= 3
  {
    if s == [] then []
    else if IsBreak(s) then [[CR, LF]] + Units(s[2..], beyond)
    else [Unit(s[0], After(s, beyond))] + Units(s[1..], beyond)
  }

  predicate IsBreak(s: seq<bv8>) {
    |s| > 1 && s[0] == CR && s[1] == LF
  }

  function After(s: seq<bv8>, beyond: bv8): bv8 {
    if |s| > 1 then s[1] else beyond
  }

  /** Soft line breaks where the line would get too long; `lp` is on it already. */
  function Fold(us: seq<seq<bv8>>, lp: nat): seq<bv8> {
    if us == [] then []
    else if us[0] == [CR, LF] then us[0] + Fold(us[1..], 0)
    else if lp + |us[0]| > MAXL then [EQUALS, CR, LF] + us[0] + Fold(us[1..], |us[0]|)
    else us[0] + Fold(us[1..], lp + |us[0]|)
  }

  function Encoded(s: seq<bv8>, beyond: bv8): seq<bv8> {
    Fold(Units(s, beyond), 0)
  }

  /** What is written first, how long the line is then, and what is left. */
  function Chunk(s: seq<bv8>, beyond: bv8, lp: nat): seq<bv8>
    requires s != []
  {
    if IsBreak(s) then [CR, LF]
    else
      var u := Unit(s[0], After(s, beyond));
      (if lp + |u| > MAXL then [EQUALS, CR, LF] else []) + u
  }

  function OnLine(s: seq<bv8>, beyond: bv8, lp: nat): nat
    requires s != []
  {
    if IsBreak(s) then 0
    else
      var n := |Unit(s[0], After(s, beyond))|;
      if lp + n > MAXL then n else lp + n
  }

  function Left(s: seq<bv8>): (r: seq<bv8>)
    requires s != []
    ensures |r| < |s|
  {
    if IsBreak(s) then s[2..] else s[1..]
  }

  lemma {:induction false} FoldStep(s: seq<bv8>, beyond: bv8, lp: nat)
    requires s != []
    ensures Fold(Units(s, beyond), lp) == Chunk(s, beyond, lp) + Fold(Units(Left(s), beyond), OnLine(s, beyond, lp))
  {
    hide Unit, After;
    if IsBreak(s) {
      assert Units(s, beyond)[1..] == Units(s[2..], beyond);
    } else {
      assert Units(s, beyond)[1..] == Units(s[1..], beyond);
      var u := Unit(s[0], After(s, beyond));
      assert [] + u == u;
    }
  }

  /** No line of the text is longer than 76 characters, the first `lp` of the first
      being there already. */
  predicate LinesFit(t: seq<bv8>, lp: nat)
    decreases |t|
  {
    if t == [] then lp <= 76
    else if IsBreak(t) then lp <= 76 && LinesFit(t[2..], 0)
    else LinesFit(t[1..], lp + 1)
  }

  lemma {:induction false} FitPlain(u: seq<bv8>, t: seq<bv8>, lp: nat)
    requires |u| == 1 && u[0] != CR
    ensures LinesFit(u + t, lp) == LinesFit(t, lp + 1)
  {
    assert (u + t)[1..] == t;
  }

  lemma {:induction false} FitBreak(t: seq<bv8>, lp: nat)
    ensures LinesFit([CR, LF] + t, lp) <==> lp <= 76 && LinesFit(t, 0)
  {
    assert ([CR, LF] + t)[2..] == t;
  }

  lemma FitUnit(c: bv8, next: bv8, t: seq<bv8>, lp: nat)
    ensures LinesFit(Unit(c, next) + t, lp) == LinesFit(t, lp + |Unit(c, next)|)
  {
    if Quoted(c, next) {
      HexRound(c);
      var h, l := HexDigit(c >> 4), HexDigit(c & 0xf);
      FitPlain([l], t, lp + 2);
      FitPlain([h], [l] + t, lp + 1);
      FitPlain([EQUALS], [h] + ([l] + t), lp);
      assert Unit(c, next) + t == [EQUALS] + ([h] + ([l] + t));
    } else {
      FitPlain([c], t, lp);
    }
  }

  /** Encoded lines are at most 76 characters long. */
  lemma {:induction false} EncodedFits(s: seq<bv8>, beyond: bv8, lp: nat)
    requires lp <= MAXL
    ensures LinesFit(Fold(Units(s, beyond), lp), lp)
    decreases |s|
  {
    if s != [] {
      var lp' := OnLine(s, beyond, lp);
      var rest := Fold(Units(Left(s), beyond), lp');
      EncodedFits(Left(s), beyond, lp');
      FoldStep(s, beyond, lp);
      ChunkFits(s, beyond, lp, rest);
    }
  }

  lemma ChunkFits(s: seq<bv8>, beyond: bv8, lp: nat, rest: seq<bv8>)
    requires s != [] && lp <= MAXL && LinesFit(rest, OnLine(s, beyond, lp))
    ensures LinesFit(Chunk(s, beyond, lp) + rest, lp)
  {
    hide LinesFit, Unit;
    if IsBreak(s) {
      FitBreak(rest, lp);
    } else {
      var u := Unit(s[0], After(s, beyond));
      if lp + |u| > MAXL {
        FitUnit(s[0], After(s, beyond), rest, 0);
        FitBreak(u + rest, lp + 1);
        FitPlain([EQUALS], [CR, LF] + (u + rest), lp);
        assert [EQUALS, CR, LF] + u + rest == [EQUALS] + ([CR, LF] + (u + rest));
      } else {
        FitUnit(s[0], After(s, beyond), rest, lp);
        assert [] + u == u;
      }
    }
  }

  /** A soft line break comes only after 25 bytes of the source. */
  lemma {:induction false} EncodedLength(s: seq<bv8>, beyond: bv8, lp: nat, cur: nat)
    requires lp <= 3 * cur
    ensures |Fold(Units(s, beyond), lp)| <= 3 * |s| + 3 * ((|s| + cur) / 25)
    decreases |s|
  {
    if s != [] {
      FoldStep(s, beyond, lp);
      ChunkLength(s, beyond, lp);
      hide Fold, Units, Chunk, OnLine, Left, IsBreak;
      if IsBreak(s) {
        EncodedLength(Left(s), beyond, 0, 0);
        LengthStep(|s|, cur);
      } else if |Chunk(s, beyond, lp)| > 3 {
        EncodedLength(Left(s), beyond, OnLine(s, beyond, lp), 1);
        LengthStep(|s|, cur);
      } else {
        EncodedLength(Left(s), beyond, OnLine(s, beyond, lp), cur + 1);
      }
    }
  }

  lemma LengthStep(n: nat, cur: nat)
    ensures n / 25 <= (n + cur) / 25 && (n > 1 ==> (n - 2) / 25 <= (n + cur) / 25)
    ensures cur >= 25 ==> n / 25 + 1 <= (n + cur) / 25
  {
  }

  /** What is written for one or two bytes, and how long the line is then. */
  lemma ChunkLength(s: seq<bv8>, beyond: bv8, lp: nat)
    requires s != []
    ensures var n, lp' := |Chunk(s, beyond, lp)|, OnLine(s, beyond, lp);
      if IsBreak(s) then n == 2 && lp' == 0 && |s| > 1 && |Left(s)| == |s| - 2
      else |Left(s)| == |s| - 1 && if n > 3 then lp + 3 > MAXL && n <= 6 && lp' <= 3 else lp' <= lp + 3
  {
    hide Unit;
  }

  /** The size of the buffer of rfc822_8bit. */
  function BufferSize(n: nat): nat {
    3 * n + 3 * (3 * n / MAXL + 1)
  }

  lemma BufferHolds(s: seq<bv8>, beyond: bv8)
    ensures |Encoded(s, beyond)| + 1 <= BufferSize(|s|)
  {
    EncodedLength(s, beyond, 0, 0);
    assert 3 * |s| / MAXL == |s| / 25;
  }

  // ---- The text that is written ----

  /** A text of printable characters but '=', of quoted bytes, and of soft and hard line
      breaks, with no blank before a break. */
  predicate Proper(t: seq<bv8>)
    decreases |t|
  {
    t == [] ||
    (if t[0] == 0x3d then |t| > 2 && (Upper(t[1], t[2]) || (t[1] == 0x0d && t[2] == 0x0a)) && Proper(t[3..])
     else if t[0] == 0x0d then |t| > 1 && t[1] == 0x0a && Proper(t[2..])
     else 0x20 <= t[0] <= 0x7e && (t[0] == 0x20 && |t| > 1 ==> t[1] != 0x0d) && Proper(t[1..]))
  }

  /** Two digits in capitals. */
  predicate Upper(a: bv8, b: bv8) {
    (0x30 <= a <= 0x39 || 0x41 <= a <= 0x46) && (0x30 <= b <= 0x39 || 0x41 <= b <= 0x46)
  }

  lemma {:induction false} ProperUnit(c: bv8, next: bv8, t: seq<bv8>)
    requires Proper(t) && (c == SPACE && t != [] && t[0] == CR ==> next == CR)
    ensures Proper(Unit(c, next) + t)
  {
    var u := Unit(c, next);
    UnitBytes(c, next);
    assert (u + t)[|u|..] == t;
  }

  lemma UnitBytes(c: bv8, next: bv8)
    ensures var u := Unit(c, next);
      || (|u| == 3 && u[0] == 0x3d && Upper(u[1], u[2]))
      || (|u| == 1 && 0x20 <= u[0] <= 0x7e && u[0] != 0x3d && (u[0] == 0x20 ==> c == SPACE && next != CR))
  {
  }

  lemma {:induction false} ProperBreak(t: seq<bv8>)
    requires Proper(t)
    ensures Proper([CR, LF] + t) && Proper([EQUALS, CR, LF] + t)
  {
    assert ([CR, LF] + t)[2..] == t && ([EQUALS, CR, LF] + t)[3..] == t;
  }

  lemma ProperChunk(s: seq<bv8>, beyond: bv8, lp: nat, rest: seq<bv8>)
    requires s != [] && Proper(rest)
    requires !IsBreak(s) && rest != [] && rest[0] == CR ==> After(s, beyond) == CR
    ensures Proper(Chunk(s, beyond, lp) + rest)
  {
    hide Proper, Unit;
    ProperBreak(rest);
    if !IsBreak(s) {
      var u := Unit(s[0], After(s, beyond));
      ProperUnit(s[0], After(s, beyond), rest);
      ProperBreak(u + rest);
      assert [EQUALS, CR, LF] + u + rest == [EQUALS, CR, LF] + (u + rest);
      assert [] + u == u;
    }
  }

  lemma {:induction false} FoldStarts(s: seq<bv8>, beyond: bv8, lp: nat)
    ensures var t := Fold(Units(s, beyond), lp); t != [] && t[0] == CR ==> s != [] && s[0] == CR
  {
    if s != [] {
      FoldStep(s, beyond, lp);
      UnitBytes(s[0], After(s, beyond));
      hide Fold, Units, Unit;
    }
  }

  lemma {:induction false} EncodedProper(s: seq<bv8>, beyond: bv8, lp: nat)
    ensures Proper(Fold(Units(s, beyond), lp))
    decreases |s|
  {
    if s != [] {
      hide Fold, Units, Proper, Chunk, OnLine;
      EncodedProper(Left(s), beyond, OnLine(s, beyond, lp));
      FoldStep(s, beyond, lp);
      FoldStarts(Left(s), beyond, OnLine(s, beyond, lp));
      ProperChunk(s, beyond, lp, Fold(Units(Left(s), beyond), OnLine(s, beyond, lp)));
    } else {
      assert Fold([], lp) == [];
    }
  }

  lemma {:induction false} ProperAt(t: seq<bv8>, i: nat)
    requires Proper(t) && i < |t|
    ensures t[i] == 0x3d ==>
      i + 2 < |t| && (Upper(t[i + 1], t[i + 2]) || (t[i + 1] == 0x0d && t[i + 2] == 0x0a))
    ensures 0x20 <= t[i] <= 0x7e || (t[i] == 0x0d && i + 1 < |t| && t[i + 1] == 0x0a)
      || (t[i] == 0x0a && i > 0 && t[i - 1] == 0x0d)
    ensures t[i] == 0x20 && i + 1 < |t| ==> t[i + 1] != 0x0d
    decreases |t|
  {
    var n := if t[0] == 0x3d then 3 else if t[0] == 0x0d then 2 else 1;
    if i >= n {
      ProperAt(t[n..], i - n);
    }
  }

  /** Rule 1 to 5 of section 6.7 of RFC 2045: in the text that is written every '=' is
      followed by two digits in capitals or by a line break, everything else is
      printable or part of a line break, and no blank stands before a break. */
  lemma EncodedText(s: seq<bv8>, beyond: bv8, i: nat)
    requires i < |Encoded(s, beyond)|
    ensures var t := Encoded(s, beyond);
      t[i] == 0x3d ==>
        && i + 2 < |t|
        && (|| (t[i + 1] == 0x0d && t[i + 2] == 0x0a)
            || forall k | i < k <= i + 2 :: 0x30 <= t[k] <= 0x39 || 0x41 <= t[k] <= 0x46)
    ensures var t := Encoded(s, beyond);
      || 0x20 <= t[i] <= 0x7e || (t[i] == 0x0d && i + 1 < |t| && t[i + 1] == 0x0a)
      || (t[i] == 0x0a && i > 0 && t[i - 1] == 0x0d)
    ensures var t := Encoded(s, beyond); t[i] == 0x20 && i + 1 < |t| ==> t[i + 1] != 0x0d
  {
    EncodedProper(s, beyond, 0);
    hide Proper, Fold, Units;
    ProperAt(Encoded(s, beyond), i);
  }

  /** A line of at most 75 printable characters but '=' is written as it is. */
  lemma {:induction false} PlainKept(s: seq<bv8>, beyond: bv8, lp: nat)
    requires lp + |s| <= 75 && forall i | 0 <= i < |s| :: 0x21 <= s[i] <= 0x7e && s[i] != 0x3d
    ensures Fold(Units(s, beyond), lp) == s
  {
    if s != [] {
      hide Fold, Units, Unit, Chunk, OnLine, Left;
      PlainChunk(s, beyond, lp);
      PlainKept(s[1..], beyond, lp + 1);
      FoldStep(s, beyond, lp);
      assert s == [s[0]] + s[1..];
    }
  }

  lemma PlainChunk(s: seq<bv8>, beyond: bv8, lp: nat)
    requires s != [] && lp < 75 && 0x21 <= s[0] <= 0x7e && s[0] != 0x3d
    ensures Chunk(s, beyond, lp) == [s[0]] && OnLine(s, beyond, lp) == lp + 1 && Left(s) == s[1..]
  {
    assert [] + [s[0]] == [s[0]];
  }

  // ---- Encoding ----

  /** What is written and what is to be written make up the text. */
  ghost predicate Sum(out: seq<bv8>, rest: seq<bv8>, beyond: bv8, lp: nat, text: seq<bv8>) {
    out + Fold(Units(rest, beyond), lp) == text
  }

  lemma {:induction false} SumStep(out: seq<bv8>, s: seq<bv8>, beyond: bv8, lp: nat, text: seq<bv8>)
    requires Sum(out, s, beyond, lp, text) && s != []
    ensures |out| + |Chunk(s, beyond, lp)| <= |text|
    ensures Sum(out + Chunk(s, beyond, lp), Left(s), beyond, OnLine(s, beyond, lp), text)
  {
    hide Fold, Units, Chunk, Left, OnLine;
    FoldStep(s, beyond, lp);
    var c, more := Chunk(s, beyond, lp), Fold(Units(Left(s), beyond), OnLine(s, beyond, lp));
    assert out + (c + more) == out + c + more;
  }

  lemma Regroup(out: seq<bv8>, s: seq<bv8>, beyond: bv8, lp: nat)
    requires s != []
    ensures IsBreak(s) ==> Chunk(s, beyond, lp) == [CR, LF]
    ensures !IsBreak(s) ==> var u := Unit(s[0], After(s, beyond));
      out + Chunk(s, beyond, lp) == if lp + |u| > MAXL then out + [EQUALS, CR, LF] + u else out + u
  {
  }

  /** One turn of the loop. */
  method PutChunk(ret: array<bv8>, d: nat, s: seq<bv8>, beyond: bv8, lp: nat) returns (d': nat, lp': nat)
    requires s != [] && d + |Chunk(s, beyond, lp)| < ret.Length
    modifies ret
    ensures d' == d + |Chunk(s, beyond, lp)| && d' < ret.Length && lp' == OnLine(s, beyond, lp)
    ensures ret[..d'] == old(ret[..d]) + Chunk(s, beyond, lp)
  {
    hide HexDigit, Chunk;
    Regroup(ret[..d], s, beyond, lp);
    var c := s[0];
    if c == CR && |s| > 1 && s[1] == LF {
      d' := PutBreak(ret, d);
      lp' := 0;
    } else {
      var next := if |s| > 1 then s[1] else beyond;
      if c < 0x20 || c == 0x7f || c & 0x80 != 0 || c == EQUALS || (c == SPACE && next == CR) {
        d', lp' := PutQuoted(ret, d, lp, c, next);
      } else {
        d', lp' := PutPlain(ret, d, lp, c, next);
      }
    }
  }

  method PutQuoted(ret: array<bv8>, d: nat, lp: nat, c: bv8, ghost next: bv8) returns (d': nat, lp': nat)
    requires Quoted(c, next) && d + (if lp + 3 > MAXL then 6 else 3) < ret.Length
    modifies ret
    ensures d' == d + (if lp + 3 > MAXL then 6 else 3) && lp' == (if lp + 3 > MAXL then 3 else lp + 3)
    ensures |Unit(c, next)| == 3
    ensures ret[..d'] == (if lp + 3 > MAXL then old(ret[..d]) + [EQUALS, CR, LF] else old(ret[..d])) + Unit(c, next)
  {
    hide HexDigit;
    HexRound(c);
    d', lp' := d, lp + 3;
    if lp' > MAXL {
      d' := PutThree(ret, d', EQUALS, CR, LF);
      lp' := 3;
    }
    d' := PutThree(ret, d', EQUALS, HexDigit(c >> 4), HexDigit(c & 0xf));
  }

  method PutPlain(ret: array<bv8>, d: nat, lp: nat, c: bv8, ghost next: bv8) returns (d': nat, lp': nat)
    requires !Quoted(c, next) && d + (if lp + 1 > MAXL then 4 else 1) < ret.Length
    modifies ret
    ensures d' == d + (if lp + 1 > MAXL then 4 else 1) && lp' == (if lp + 1 > MAXL then 1 else lp + 1)
    ensures |Unit(c, next)| == 1
    ensures ret[..d'] == (if lp + 1 > MAXL then old(ret[..d]) + [EQUALS, CR, LF] else old(ret[..d])) + Unit(c, next)
  {
    d', lp' := d, lp + 1;
    if lp' > MAXL {
      d' := PutThree(ret, d', EQUALS, CR, LF);
      lp' := 1;
    }
    d' := Put(ret, d', c);
  }

  /** rfc822_8bit: the units in folded lines, inside its buffer. */
  method Encode(src: seq<bv8>, beyond: bv8) returns (text: seq<bv8>)
    ensures text == Encoded(src, beyond)
  {
    hide Sum, Chunk, OnLine, Encoded;
    var ret := new bv8[BufferSize(|src|)];
    BufferHolds(src, beyond);
    var d: nat, lp: nat := 0, 0;
    var s := src;
    ghost var all := Encoded(src, beyond);
    SumStart(src, beyond);
    assert ret[..0] == [];
    while s != []
      invariant d <= |all| && Sum(ret[..d], s, beyond, lp, all)
      decreases |s|
    {
      SumStep(ret[..d], s, beyond, lp, all);
      d, lp := PutChunk(ret, d, s, beyond, lp);
      s := Left(s);
    }
    SumEnd(ret[..d], beyond, lp, all);
    ret[d] := 0;
    text := ret[..d];
  }

  method PutThree(ret: array<bv8>, d: nat, a: bv8, b: bv8, c: bv8) returns (d': nat)
    requires d + 3 <= ret.Length
    modifies ret
    ensures d' == d + 3 && ret[..d'] == old(ret[..d]) + [a, b, c]
  {
    d' := Put(ret, d, a);
    d' := Put(ret, d', b);
    d' := Put(ret, d', c);
  }

  lemma {:induction false} SumStart(s: seq<bv8>, beyond: bv8)
    ensures Sum([], s, beyond, 0, Encoded(s, beyond))
  {
    assert [] + Encoded(s, beyond) == Encoded(s, beyond);
  }

  lemma {:induction false} SumEnd(out: seq<bv8>, beyond: bv8, lp: nat, text: seq<bv8>)
    requires Sum(out, [], beyond, lp, text)
    ensures out == text
  {
    assert out + [] == out;
  }

  // ---- Decoding ----

  function Blanks(n: nat): seq<bv8> {
    seq(n, _ => SPACE)
  }

  /** The text that is read after the kept text and `held` spaces, which count only if
      something visible or a soft line break follows. */
  function Read(s: seq<bv8>, held: nat): seq<bv8>
    decreases |s|
  {
    if s == [] then Blanks(held)
    else if s[0] == EQUALS then
      if |s| == 1 then Blanks(held)
      else if s[1] == 0 then Read(s[1..], held)
      else if s[1] == CR then Blanks(held) + Read(if |s| > 2 && s[2] == LF then s[3..] else s[2..], 0)
      else if s[1] == LF then Blanks(held) + Read(s[2..], 0)
      else if IsHex(s[1]) && |s| > 2 && s[2] != 0 && IsHex(s[2]) then
        Blanks(held) + ([HexByte(s[1], s[2])] + Read(s[3..], 0))
      else Blanks(held) + ([EQUALS, s[1]] + Read(if IsHex(s[1]) && |s| > 2 then s[3..] else s[2..], 0))
    else if s[0] == SPACE then Read(s[1..], held + 1)
    else if s[0] == CR || s[0] == LF then [s[0]] + Read(s[1..], 0)
    else Blanks(held) + ([s[0]] + Read(s[1..], 0))
  }

  /** ret[..t] is kept, ret[t..d] are spaces. */
  ghost predicate Reading(ret: array<bv8>, t: nat, d: nat, rest: seq<bv8>, text: seq<bv8>)
    reads ret
  {
    t <= d <= ret.Length && ret[t..d] == Blanks(d - t) && ret[..t] + Read(rest, d - t) == text
  }

  /** rfc822_qprint, for every text; the buffer is always large enough. */
  method Decode(src: seq<bv8>) returns (r: seq<bv8>)
    ensures r == Read(src, 0)
  {
    var ret := new bv8[|src| + 1];
    var d: nat, t: nat := 0, 0;
    var s := src;
    ghost var text := Read(src, 0);
    assert ret[..0] + text == text;
    while s != []
      invariant d + |s| <= |src| && Reading(ret, t, d, s, text)
      decreases |s|
    {
      hide Reading, Read;
      d, t, s := Step(ret, d, t, s, text);
    }
    ret[d] := 0;
    r := ret[..d];
    assert r == ret[..t] + ret[t..d];
  }

  /** One turn of the loop. */
  method Step(ret: array<bv8>, d: nat, t: nat, s: seq<bv8>, ghost text: seq<bv8>)
    returns (d': nat, t': nat, s': seq<bv8>)
    requires s != [] && d + |s| < ret.Length && Reading(ret, t, d, s, text)
    modifies ret
    ensures |s'| < |s| && d' + |s'| <= d + |s| && Reading(ret, t', d', s', text)
  {
    d', t', s' := d, t, s[1..];
    assert ret[..d] == ret[..t] + Blanks(d - t);
    var c := s[0];
    if c == EQUALS {
      d', t', s' := StepEquals(ret, d, t, s, text);
    } else if c == SPACE {
      d' := Put(ret, d', c);
    } else {
      if c == CR || c == LF {
        d' := t';
      }
      d' := Put(ret, d', c);
      t' := d';
    }
  }

  /** After a '='. */
  method StepEquals(ret: array<bv8>, d: nat, t: nat, s: seq<bv8>, ghost text: seq<bv8>)
    returns (d': nat, t': nat, s': seq<bv8>)
    requires s != [] && s[0] == EQUALS && d + |s| < ret.Length && Reading(ret, t, d, s, text)
    modifies ret
    ensures |s'| < |s| && d' + |s'| <= d + |s| && Reading(ret, t', d', s', text)
  {
    ghost var held := d - t;
    ReadEquals(s, held);
    hide Read, HexByte;
    d', t', s' := d, t, s[1..];
    assert ret[..d] == ret[..t] + Blanks(held);
    if s' != [] {
      var c := s'[0];
      s' := s'[1..];
      if c == 0 {
        s' := s[1..];
      } else if c == CR || c == LF {
        if c == CR && s' != [] && s'[0] == LF {
          s' := s'[1..];
        }
        t' := d';
        Kept(ret[..t], held, [], Read(s', 0));
      } else {
        d', t', s' := StepOther(ret, d, t, s, text);
      }
    }
  }

  /** After a '=' with a code, or with something else that is visible. */
  method StepOther(ret: array<bv8>, d: nat, t: nat, s: seq<bv8>, ghost text: seq<bv8>)
    returns (d': nat, t': nat, s': seq<bv8>)
    requires |s| > 1 && s[0] == EQUALS && s[1] != 0 && s[1] != CR && s[1] != LF
    requires d + |s| < ret.Length && Reading(ret, t, d, s, text)
    modifies ret
    ensures |s'| < |s| && d' + |s'| <= d + |s| && Reading(ret, t', d', s', text)
  {
    ghost var held, rest := d - t, s[1..][1..];
    ReadEquals(s, held);
    hide Read, HexByte, IsHex, Blanks;
    ghost var out := ret[..d];
    assert out[..t] == ret[..t] && out[t..] == ret[t..d];
    d', s' := StepCode(ret, d, s[1], s[1..][1..]);
    t' := d';
    ghost var x :=
      if IsHex(s[1]) && rest != [] && rest[0] != 0 && IsHex(rest[0]) then [HexByte(s[1], rest[0])] else [EQUALS, s[1]];
    TextKept(out, t, held, x, Read(s', 0), text);
    assert ret[d'..d'] == Blanks(0) && ret[..d'] == out + x;
  }

  /** The held spaces and what follows are kept. */
  lemma TextKept(out: seq<bv8>, t: nat, held: nat, x: seq<bv8>, more: seq<bv8>, text: seq<bv8>)
    requires t + held == |out| && out[t..] == Blanks(held) && out[..t] + (Blanks(held) + (x + more)) == text
    ensures out + x + more == text && Blanks(0) == []
  {
    Kept(out[..t], held, x, more);
    assert out == out[..t] + out[t..];
  }

  /** What an '=' and its code stand for. */
  lemma ReadEquals(s: seq<bv8>, held: nat)
    requires s != [] && s[0] == EQUALS
    ensures |s| == 1 ==> s[1..] == [] && Read(s, held) == Read([], held)
    ensures |s| > 1 && s[1] == 0 ==> Read(s, held) == Read(s[1..], held)
    ensures |s| > 1 && (s[1] == CR || s[1] == LF) ==>
      var rest := s[1..][1..];
      Read(s, held) == Blanks(held) + Read(if s[1] == CR && rest != [] && rest[0] == LF then rest[1..] else rest, 0)
    ensures |s| > 1 && s[1] != 0 && s[1] != CR && s[1] != LF ==>
      var c, rest := s[1], s[1..][1..];
      var hex := IsHex(c) && rest != [] && rest[0] != 0 && IsHex(rest[0]);
      Read(s, held) == Blanks(held) +
        ((if hex then [HexByte(c, rest[0])] else [EQUALS, c])
         + Read(if IsHex(c) && rest != [] then rest[1..] else rest, 0))
  {
    hide HexByte;
    if |s| > 1 {
      assert s[1..][1..] == s[2..];
      if |s| > 2 {
        assert s[1..][1..][1..] == s[3..];
      }
    }
  }

  /** Two hexadecimal digits, or what is there instead. */
  method StepCode(ret: array<bv8>, d: nat, c: bv8, rest: seq<bv8>) returns (d': nat, s': seq<bv8>)
    requires d + 1 + |rest| < ret.Length - 1
    modifies ret
    ensures var hex := IsHex(c) && rest != [] && rest[0] != 0 && IsHex(rest[0]);
      && s' == (if IsHex(c) && rest != [] then rest[1..] else rest)
      && d' == d + (if hex then 1 else 2) && d' < ret.Length
      && ret[..d'] == old(ret[..d]) + (if hex then [HexByte(c, rest[0])] else [EQUALS, c])
  {
    var e: bv8 := 0;
    s' := rest;
    var hex := IsHex(c) && s' != [];
    if hex {
      e := s'[0];
      s' := s'[1..];
    }
    if hex && e != 0 && IsHex(e) {
      d' := Put(ret, d, HexByte(c, e));
    } else {
      d' := Put(ret, d, EQUALS);
      d' := Put(ret, d', c);
    }
  }

  lemma Kept(kept: seq<bv8>, held: nat, x: seq<bv8>, rest: seq<bv8>)
    ensures kept + (Blanks(held) + (x + rest)) == kept + Blanks(held) + x + rest
    ensures kept + (Blanks(held) + rest) == kept + Blanks(held) + rest
    ensures Blanks(0) == []
  {
  }

  // ---- What the decoder makes of any text ----

  /** An escape of two digits, in capitals or not, is the byte of those digits. */
  lemma EscapeRead(a: bv8, b: bv8, t: seq<bv8>)
    requires 0x30 <= a <= 0x39 || 0x41 <= a <= 0x46 || 0x61 <= a <= 0x66
    requires 0x30 <= b <= 0x39 || 0x41 <= b <= 0x46 || 0x61 <= b <= 0x66
    ensures var h: bv8 := if a <= 0x39 then a - 0x30 else if a <= 0x46 then a - 0x37 else a - 0x57;
      var l: bv8 := if b <= 0x39 then b - 0x30 else if b <= 0x46 then b - 0x37 else b - 0x57;
      Read([0x3d, a, b] + t, 0) == [16 * h + l] + Read(t, 0)
  {
    var s := [0x3d, a, b] + t;
    ReadEquals(s, 0);
    assert s[1..][1..][1..] == t;
    DigitsValue(a, b);
    hide Read, HexByte;
    NoneBefore([HexByte(a, b)] + Read(t, 0));
  }

  lemma NoneBefore(s: seq<bv8>)
    ensures Blanks(0) + s == s
  {
  }

  lemma DigitsValue(a: bv8, b: bv8)
    requires 0x30 <= a <= 0x39 || 0x41 <= a <= 0x46 || 0x61 <= a <= 0x66
    requires 0x30 <= b <= 0x39 || 0x41 <= b <= 0x46 || 0x61 <= b <= 0x66
    ensures var h: bv8 := if a <= 0x39 then a - 0x30 else if a <= 0x46 then a - 0x37 else a - 0x57;
      var l: bv8 := if b <= 0x39 then b - 0x30 else if b <= 0x46 then b - 0x37 else b - 0x57;
      HexByte(a, b) == 16 * h + l
  {
  }

  /** A soft line break goes, and blanks before it stay. */
  lemma SoftRead(n: nat, t: seq<bv8>)
    ensures Read(Blanks(n) + ([0x3d, 0x0d, 0x0a] + t), 0) == Blanks(n) + Read(t, 0)
  {
    var s := [0x3d, 0x0d, 0x0a] + t;
    BlanksHeld(n, s, 0);
    ReadEquals(s, n);
    assert s[1..][1..][1..] == t;
  }

  /** Blanks before a hard line break go. */
  lemma HardRead(n: nat, t: seq<bv8>)
    ensures Read(Blanks(n) + ([0x0d, 0x0a] + t), 0) == [0x0d, 0x0a] + Read(t, 0)
  {
    BlanksHeld(n, [0x0d, 0x0a] + t, 0);
    BreakRead(n, t);
    hide Read;
  }

  lemma {:induction false} BreakRead(n: nat, t: seq<bv8>)
    ensures Read([0x0d, 0x0a] + t, n) == [0x0d, 0x0a] + Read(t, 0)
  {
    var s := [0x0d, 0x0a] + t;
    assert s[1..] == [0x0a] + t && s[1..][1..] == t;
    assert [0x0d] + ([0x0a] + Read(t, 0)) == [0x0d, 0x0a] + Read(t, 0);
  }

  /** Any other character stays, and so do blanks before it. */
  lemma {:induction false} OtherRead(n: nat, c: bv8, t: seq<bv8>)
    requires c != 0x3d && c != 0x20 && c != 0x0d && c != 0x0a
    ensures Read(Blanks(n) + ([c] + t), 0) == Blanks(n) + ([c] + Read(t, 0))
  {
    BlanksHeld(n, [c] + t, 0);
    assert ([c] + t)[1..] == t;
  }

  lemma {:induction false} BlanksHeld(n: nat, s: seq<bv8>, held: nat)
    ensures Read(Blanks(n) + s, held) == Read(s, held + n)
  {
    if n == 0 {
      NoneBefore(s);
    } else {
      var t := Blanks(n) + s;
      assert t[0] == SPACE && t[1..] == Blanks(n - 1) + s;
      BlanksHeld(n - 1, s, held + 1);
    }
  }

  // ---- Round trip ----

  lemma {:induction false} ReadSoft(t: seq<bv8>, held: nat)
    ensures Read([EQUALS, CR, LF] + t, held) == Blanks(held) + Read(t, 0)
  {
    assert ([EQUALS, CR, LF] + t)[3..] == t;
  }

  lemma {:induction false} ReadBreak(t: seq<bv8>)
    ensures Read([CR, LF] + t, 0) == [CR, LF] + Read(t, 0)
  {
    var s := [CR, LF] + t;
    assert s[1..] == [LF] + t;
    assert s[1..][1..] == t;
    assert Read(s, 0) == [CR] + ([LF] + Read(t, 0));
  }

  lemma {:induction false} ReadUnit(c: bv8, next: bv8, t: seq<bv8>, held: nat)
    ensures Read(Unit(c, next) + t, held) ==
      if c == SPACE && next != CR then Read(t, held + 1) else Blanks(held) + ([c] + Read(t, 0))
  {
    var s := Unit(c, next) + t;
    if Quoted(c, next) {
      HexRound(c);
      hide HexDigit, HexByte;
      assert s[3..] == t;
      NotSpecial(c);
    } else {
      assert s[1..] == t;
    }
  }

  lemma NotSpecial(c: bv8)
    ensures c >> 4 < 16 && c & 0xf < 16 && HexDigit(c >> 4) != 0 && HexDigit(c >> 4) != CR && HexDigit(c >> 4) != LF
    ensures HexDigit(c & 0xf) != 0
  {
  }

  /** Whatever the encoder makes of the bytes, the decoder gives them back. */
  lemma RoundTrip(s: seq<bv8>, beyond: bv8)
    ensures Read(Encoded(s, beyond), 0) == s
  {
    ReadFolded(s, beyond, 0, 0);
    assert Blanks(0) + s == s;
  }

  lemma {:induction false} ReadFolded(s: seq<bv8>, beyond: bv8, lp: nat, held: nat)
    requires held > 0 && s != [] ==> s[0] != CR
    ensures Read(Fold(Units(s, beyond), lp), held) == Blanks(held) + s
    decreases |s|
  {
    if s == [] {
      assert Blanks(held) + [] == Blanks(held);
    } else {
      FoldStep(s, beyond, lp);
      hide Read, Blanks, Unit, Fold, Units;
      var lp' := OnLine(s, beyond, lp);
      var rest := Fold(Units(Left(s), beyond), lp');
      if IsBreak(s) {
        ReadFolded(s[2..], beyond, 0, 0);
        ReadBreak(rest);
        NoBlanks();
        assert [] + s == s && [] + s[2..] == s[2..] && s == [CR, LF] + s[2..];
      } else {
        ReadChunk(s, beyond, lp, held, rest);
        var next := After(s, beyond);
        var base := if lp + |Unit(s[0], next)| > MAXL then 0 else held;
        var held' := if s[0] == SPACE && next != CR then base + 1 else 0;
        ReadFolded(s[1..], beyond, lp', held');
        BlanksMore(base, s);
        BlanksMore(held, s);
        NoBlanks();
        assert [] + s == s && [] + s[1..] == s[1..];
      }
    }
  }

  lemma NoBlanks()
    ensures Blanks(0) == []
  {
  }

  lemma {:induction false} BlanksMore(n: nat, s: seq<bv8>)
    requires s != []
    ensures s[0] == SPACE ==> Blanks(n + 1) + s[1..] == Blanks(n) + s
    ensures Blanks(n) + ([s[0]] + s[1..]) == Blanks(n) + s
  {
    assert s == [s[0]] + s[1..];
    assert Blanks(n + 1) == Blanks(n) + [SPACE];
  }

  lemma ReadChunk(s: seq<bv8>, beyond: bv8, lp: nat, held: nat, rest: seq<bv8>)
    requires s != [] && !IsBreak(s)
    ensures var next := After(s, beyond);
      var soft := lp + |Unit(s[0], next)| > MAXL;
      var base := if soft then 0 else held;
      var r := if s[0] == SPACE && next != CR then Read(rest, base + 1) else Blanks(base) + ([s[0]] + Read(rest, 0));
      Read(Chunk(s, beyond, lp) + rest, held) == if soft then Blanks(held) + r else r
  {
    hide Read, Unit, Blanks;
    var u := Unit(s[0], After(s, beyond));
    if lp + |u| > MAXL {
      ReadUnit(s[0], After(s, beyond), rest, 0);
      ReadSoft(u + rest, held);
      assert [EQUALS, CR, LF] + u + rest == [EQUALS, CR, LF] + (u + rest);
    } else {
      ReadUnit(s[0], After(s, beyond), rest, held);
      assert [] + u == u;
    }
  }
}
