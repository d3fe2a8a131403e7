/** The scan for the parts of a multipart body (RFC 2046, section 5.1.1). */
module Multipart {
  import opened Buffers

  const DASH: bv8 := 0x2d
  const SPACE: bv8 := 0x20
  const TAB: bv8 := 0x09

  datatype Part = Part(offset: nat, size: nat)

  /** text[start..end] is the content; the boundary has no line breaks in it. */
  datatype Content = Content(text: seq<bv8>, start: nat, end: nat, cookie: seq<bv8>) {
    ghost predicate Valid() {
      start <= end <= |text|
    }

    ghost predicate Plain() {
      forall k | 0 <= k < |cookie| :: !Breaks(cookie[k])
    }
  }

  predicate Breaks(c: bv8) {
    c == CR || c == LF
  }

  // ---- Where the delimiters are ----

  /** A line starts here: after LF, or after a CR without LF. */
  ghost predicate LineStart(t: Content, q: nat)
    requires t.Valid() && t.start <= q <= t.end
  {
    q == t.start || t.text[q - 1] == LF || (t.text[q - 1] == CR && (q == t.end || t.text[q] != LF))
  }

  /** The line starts with "--" and the boundary. */
  ghost predicate Dashed(t: Content, q: nat)
    requires t.Valid() && t.start <= q
  {
    && q + 2 + |t.cookie| <= t.end && t.text[q] == DASH && t.text[q + 1] == DASH
    && t.text[q + 2..q + 2 + |t.cookie|] == t.cookie
  }

  /** The first character at or after `q` that is neither blank nor tab. */
  ghost function SkipBlanks(t: Content, q: nat): (r: nat)
    requires t.Valid() && t.start <= q <= t.end
    ensures q <= r <= t.end
    decreases t.end - q
  {
    if q < t.end && (t.text[q] == SPACE || t.text[q] == TAB) then SkipBlanks(t, q + 1) else q
  }

  /** After "--" and the boundary at the end of the line, "--" closes. */
  ghost predicate Closing(t: Content, q: nat)
    requires t.Valid() && t.start <= q && Dashed(t, q)
  {
    var r := q + 2 + |t.cookie|;
    r + 2 <= t.end && t.text[r] == DASH && t.text[r + 1] == DASH && (r + 2 == t.end || Breaks(t.text[r + 2]))
  }

  /** Only blanks follow on the line. */
  ghost predicate Separates(t: Content, q: nat)
    requires t.Valid() && t.start <= q && Dashed(t, q)
  {
    var r := SkipBlanks(t, q + 2 + |t.cookie|);
    r == t.end || Breaks(t.text[r])
  }

  /** Where the next line starts. */
  ghost function BodyStart(t: Content, q: nat): (b: nat)
    requires t.Valid() && t.start <= q && Dashed(t, q)
    ensures q < b <= t.end
  {
    var r := SkipBlanks(t, q + 2 + |t.cookie|);
    if r == t.end then r
    else if t.text[r] == CR && r + 1 < t.end && t.text[r + 1] == LF then r + 2
    else r + 1
  }

  /** The source looks for delimiters only where more than one fits; after CRLF,
      unless that ended a delimiter, where one fits. */
  ghost predicate Enough(t: Content, q: nat, begun: bool)
    requires t.Valid() && t.start <= q <= t.end
  {
    var j := |t.cookie| + 2;
    t.end - q > j || (t.end - q == j && !begun && q >= t.start + 2 && t.text[q - 2] == CR && t.text[q - 1] == LF)
  }

  ghost predicate Hit(t: Content, q: nat, begun: bool)
    requires t.Valid() && t.start <= q <= t.end
  {
    LineStart(t, q) && Enough(t, q, begun) && Dashed(t, q) && (Closing(t, q) || Separates(t, q))
  }

  /** The line break before a line. */
  ghost function Before(t: Content, q: nat): (m: nat)
    requires t.Valid() && t.start <= q <= t.end
    ensures m <= q
  {
    if q >= t.start + 2 && t.text[q - 2] == CR && t.text[q - 1] == LF then q - 2 else if q > 0 then q - 1 else 0
  }

  /** The parts, `open` being the start of one if there is one already. */
  ghost function Parts(t: Content, q: nat, open: seq<nat>): (ps: seq<Part>)
    requires t.Valid() && t.start <= q <= t.end && |open| <= 1
    decreases t.end - q
  {
    if Hit(t, q, open == [q]) then
      Ended(open, Before(t, q)) + (if Closing(t, q) then [] else Parts(t, BodyStart(t, q), [BodyStart(t, q)]))
    else if q < t.end then Parts(t, q + 1, open)
    else Ended(open, t.end)
  }

  /** The open part, if there is one, with its end. */
  ghost function Ended(open: seq<nat>, m: nat): (ps: seq<Part>)
    requires |open| <= 1
  {
    if open == [] then [] else [Part(open[0], if m > open[0] then m - open[0] else 0)]
  }

  /** Parts in order, apart from each other, and from `lo` up to `hi`. */
  ghost predicate Apart(ps: seq<Part>, lo: nat, hi: nat) {
    if ps == [] then lo <= hi
    else lo <= ps[0].offset && Apart(ps[1..], ps[0].offset + ps[0].size, hi)
  }

  lemma ApartWider(ps: seq<Part>, lo: nat, lo': nat, hi: nat)
    requires Apart(ps, lo', hi) && lo <= lo'
    ensures Apart(ps, lo, hi)
  {
  }

  /** The parts lie in order in the content, without overlap. */
  lemma {:induction false} PartsApart(t: Content, q: nat, open: seq<nat>)
    requires t.Valid() && t.start <= q <= t.end && |open| <= 1 && (open != [] ==> t.start <= open[0] <= q)
    ensures Apart(Parts(t, q, open), if open == [] then t.start else open[0], t.end)
    decreases t.end - q
  {
    hide Parts, Closing, Dashed, BodyStart, Before, Hit, Ended, Apart;
    PartsNext(t, q, open);
    if Hit(t, q, open == [q]) {
      HitDashed(t, q, open == [q]);
      var from := if Closing(t, q) then q else BodyStart(t, q);
      var rest := if Closing(t, q) then [] else Parts(t, from, [from]);
      if Closing(t, q) {
        ApartNone(q, t.end);
      } else {
        PartsApart(t, from, [from]);
      }
      ApartOpened(open, Before(t, q), rest, t.start, from, t.end);
    } else if q < t.end {
      PartsApart(t, q + 1, open);
    } else {
      ApartNone(q, t.end);
      ApartOpened(open, t.end, [], t.start, t.end, t.end);
      assert Ended(open, t.end) + [] == Ended(open, t.end);
    }
  }

  lemma PartsNext(t: Content, q: nat, open: seq<nat>)
    requires t.Valid() && t.start <= q <= t.end && |open| <= 1
    ensures Hit(t, q, open == [q]) ==>
      && Dashed(t, q)
      && Parts(t, q, open) ==
         Ended(open, Before(t, q)) + (if Closing(t, q) then [] else Parts(t, BodyStart(t, q), [BodyStart(t, q)]))
    ensures !Hit(t, q, open == [q]) ==>
      Parts(t, q, open) == if q < t.end then Parts(t, q + 1, open) else Ended(open, t.end)
  {
    hide Closing, BodyStart, Before, Ended;
  }

  lemma HitDashed(t: Content, q: nat, begun: bool)
    requires t.Valid() && t.start <= q <= t.end && Hit(t, q, begun)
    ensures Dashed(t, q)
  {
  }

  lemma ApartNone(lo: nat, hi: nat)
    requires lo <= hi
    ensures Apart([], lo, hi)
  {
  }

  /** The open part, if there is one, before parts that start later. */
  lemma ApartOpened(open: seq<nat>, m: nat, rest: seq<Part>, start: nat, from: nat, hi: nat)
    requires |open| <= 1 && m <= from && start <= from && (open != [] ==> open[0] <= from) && Apart(rest, from, hi)
    ensures Apart(Ended(open, m) + rest, if open == [] then start else open[0], hi)
  {
    if open == [] {
      assert [] + rest == rest;
      ApartWider(rest, start, from, hi);
    } else {
      var p := Ended(open, m)[0];
      assert ([p] + rest)[1..] == rest;
      ApartWider(rest, p.offset + p.size, from, hi);
    }
  }

  // ---- The scan ----

  datatype Outcome = Neither | Separator | Closer

  /** Tests for a delimiter at the start of a line, taking characters off the content
      as it goes; `i` counts those that are left. */
  method TestLine(t: Content, q: nat, left: nat) returns (p: nat, i: nat, c: bv8, o: Outcome)
    requires t.Valid() && t.start <= q <= t.end && left == t.end - q >= |t.cookie| + 2
    ensures q < p <= t.end && i == t.end - p
    ensures o == Closer <==> Dashed(t, q) && Closing(t, q)
    ensures o == Separator <==> Dashed(t, q) && !Closing(t, q) && Separates(t, q)
    ensures o == Separator ==> p == BodyStart(t, q)
    ensures o != Closer ==> c == t.text[p - 1] || (p == t.end && c == LF)
    ensures o == Neither && t.Plain() ==> forall x | q <= x < p - 1 :: !Breaks(t.text[x])
  {
    p, i, o := q, left, Neither;
    c, p, i := t.text[p], p + 1, i - 1;
    if c != DASH {
      return;
    }
    c, p, i := t.text[p], p + 1, i - 1;
    if c != DASH {
      return;
    }
    var matched;
    p, i, c, matched := TestCookie(t, q, p, i, c);
    if matched {
      p, i, c, o := TestEnd(t, q, p, i);
    }
  }

  /** Compares with the boundary as long as the characters are the same. */
  method TestCookie(t: Content, q: nat, at: nat, left: nat, before: bv8) returns (p: nat, i: nat, c: bv8, matched: bool)
    requires t.Valid() && t.start <= q && at == q + 2 <= t.end && left == t.end - at >= |t.cookie|
    requires t.text[q] == DASH && t.text[q + 1] == DASH == before
    ensures at <= p <= t.end && i == t.end - p && c == t.text[p - 1]
    ensures matched <==> Dashed(t, q)
    ensures matched ==> p == q + 2 + |t.cookie|
    ensures t.Plain() ==> forall x | q <= x < (if matched then p else p - 1) :: !Breaks(t.text[x])
  {
    p, i, c := at, left, before;
    var k := |t.cookie|;
    while k > 0
      invariant 0 <= k <= |t.cookie| && p == q + 2 + (|t.cookie| - k) && i == t.end - p >= k
      invariant c == t.text[p - 1] && t.text[q + 2..p] == t.cookie[..|t.cookie| - k]
      invariant t.Plain() ==> forall x | q <= x < p :: !Breaks(t.text[x])
    {
      c, p, i := t.text[p], p + 1, i - 1;
      if t.cookie[|t.cookie| - k] != c {
        assert q + 2 + |t.cookie| <= t.end && t.text[q + 2..q + 2 + |t.cookie|][|t.cookie| - k] == c;
        matched := false;
        return;
      }
      assert t.text[q + 2..p] == t.text[q + 2..p - 1] + [c];
      assert t.cookie[..|t.cookie| - k + 1] == t.cookie[..|t.cookie| - k] + [c];
      k := k - 1;
    }
    assert t.cookie[..|t.cookie|] == t.cookie;
    matched := true;
  }

  /** Tests what follows "--" and the boundary. */
  method TestEnd(t: Content, q: nat, at: nat, left: nat) returns (p: nat, i: nat, c: bv8, o: Outcome)
    requires t.Valid() && t.start <= q && Dashed(t, q) && at == q + 2 + |t.cookie| && left == t.end - at
    ensures at <= p <= t.end && i == t.end - p
    ensures o == Closer <==> Closing(t, q)
    ensures o == Separator <==> !Closing(t, q) && Separates(t, q)
    ensures o == Separator ==> p == BodyStart(t, q)
    ensures o != Closer ==> c == t.text[p - 1] || (p == t.end && c == LF)
    ensures o == Neither ==> forall x | at <= x < p - 1 :: !Breaks(t.text[x])
  {
    p, i, o := at, left, Neither;
    p, i, c := Next(t, p, i);
    if c == DASH {
      if i > 0 {
        p, i, c := Next(t, p, i);
        if c == DASH {
          if i > 0 {
            p, i, c := Next(t, p, i);
            if c == CR || c == LF {
              o := Closer;
            }
          } else {
            o := Closer;
          }
        }
      }
      return;
    }
    ghost var taken := left > 0;
    while c == SPACE || c == TAB
      invariant at <= p <= t.end && i == t.end - p
      invariant if taken then at < p && c == t.text[p - 1] && SkipBlanks(t, p - 1) == SkipBlanks(t, at)
                else p == t.end && c == LF && SkipBlanks(t, at) == t.end
      invariant forall x | at <= x < p - 1 :: !Breaks(t.text[x])
      decreases i, taken
    {
      taken := i > 0;
      p, i, c := Next(t, p, i);
    }
    if c == CR {
      if i > 0 && t.text[p] == LF {
        c, p, i := t.text[p], p + 1, i - 1;
      }
      o := Separator;
    } else if c == LF {
      o := Separator;
    }
  }

  /** The next character, or a line break at the end. */
  method Next(t: Content, p: nat, i: nat) returns (p': nat, i': nat, c: bv8)
    requires t.Valid() && t.start <= p <= t.end && i == t.end - p
    ensures i' == t.end - p'
    ensures if p < t.end then p' == p + 1 && c == t.text[p] else p' == p && c == LF
  {
    p', i', c := p, i, LF;
    if i > 0 {
      c, p', i' := t.text[p], p + 1, i - 1;
    }
  }

  /** No delimiter starts before `p`. */
  lemma {:induction false} PartsSkip(t: Content, q: nat, p: nat, open: seq<nat>)
    requires t.Valid() && t.start <= q <= p <= t.end && |open| <= 1
    requires forall x | q <= x < p :: !Hit(t, x, open == [x])
    ensures Parts(t, q, open) == Parts(t, p, open)
    decreases p - q
  {
    if q < p {
      PartsSkip(t, q + 1, p, open);
    }
  }

  /** The scan is at `p` after the character `c`; the parts in `done` are closed. */
  ghost predicate Scanning(t: Content, p: nat, c: bv8, done: seq<Part>, open: seq<nat>) {
    && t.Valid() && t.start <= p <= t.end && |open| <= 1 && (open != [] ==> t.start <= open[0] <= p)
    && (p < t.end ==> if p == t.start then c == LF else c == t.text[p - 1])
    && (p >= t.start + 2 && t.text[p - 2] == CR && t.text[p - 1] == LF && p < t.end ==> open == [p])
    && done + Parts(t, p, open) == Parts(t, t.start, [])
  }

  lemma {:induction false} ScanStart(t: Content)
    requires t.Valid()
    ensures Scanning(t, t.start, LF, [], [])
  {
    assert [] + Parts(t, t.start, []) == Parts(t, t.start, []);
  }

  /** Inside a line. */
  lemma {:induction false} ScanOver(t: Content, p: nat, c: bv8, done: seq<Part>, open: seq<nat>)
    requires Scanning(t, p, c, done, open) && p < t.end && !Breaks(c)
    ensures Scanning(t, p + 1, t.text[p], done, open)
  {
    assert !LineStart(t, p);
    PartsSkip(t, p, p + 1, open);
  }

  /** A line starts at `q`, with no delimiter at it. */
  lemma ScanNeither(t: Content, q: nat, p: nat, c: bv8, done: seq<Part>, open: seq<nat>)
    requires t.Valid() && t.start <= q < p <= t.end && |open| <= 1 && (open != [] ==> t.start <= open[0] <= q)
    requires LineStart(t, q) && !Hit(t, q, open == [q])
    requires done + Parts(t, q, open) == Parts(t, t.start, [])
    requires c == t.text[p - 1] || (p == t.end && c == LF)
    requires forall x | q <= x < p - 1 :: !Breaks(t.text[x])
    ensures Scanning(t, p, c, done, open)
  {
    forall x | q <= x < p
      ensures !Hit(t, x, open == [x])
    {
      if x > q {
        assert !Breaks(t.text[x - 1]);
      }
    }
    PartsSkip(t, q, p, open);
  }

  /** Where the line starts that the scan has come to. */
  lemma {:induction false} ScanLine(t: Content, p: nat, c: bv8, done: seq<Part>, open: seq<nat>, q: nat)
    requires Scanning(t, p, c, done, open) && Breaks(c) && t.end - p > |t.cookie| + 2
    requires q == if c == CR && t.text[p] == LF then p + 1 else p
    ensures LineStart(t, q) && Enough(t, q, open == [q]) && done + Parts(t, q, open) == Parts(t, t.start, [])
    ensures Ended(open, Before(t, q)) == Ended(open, if p > 0 then p - 1 else 0)
  {
    if q == p + 1 {
      assert !LineStart(t, p);
      PartsSkip(t, p, q, open);
    }
  }

  lemma ScanHit(t: Content, q: nat, done: seq<Part>, open: seq<nat>, ended: seq<Part>)
    requires t.Valid() && t.start <= q <= t.end && |open| <= 1 && Hit(t, q, open == [q])
    requires done + Parts(t, q, open) == Parts(t, t.start, []) && ended == Ended(open, Before(t, q))
    ensures Closing(t, q) ==> done + ended == Parts(t, t.start, [])
    ensures !Closing(t, q) ==> done + ended + Parts(t, BodyStart(t, q), [BodyStart(t, q)]) == Parts(t, t.start, [])
  {
    var rest := if Closing(t, q) then [] else Parts(t, BodyStart(t, q), [BodyStart(t, q)]);
    assert done + (ended + rest) == done + ended + rest;
    assert done + ended + [] == done + ended;
  }

  /** A delimiter that separates parts. */
  lemma ScanSeparator(t: Content, q: nat, c: bv8, done: seq<Part>)
    requires t.Valid() && t.start <= q <= t.end && Dashed(t, q) && Separates(t, q)
    requires var b := BodyStart(t, q); c == t.text[b - 1] || (b == t.end && c == LF)
    requires done + Parts(t, BodyStart(t, q), [BodyStart(t, q)]) == Parts(t, t.start, [])
    ensures Scanning(t, BodyStart(t, q), c, done, [BodyStart(t, q)])
  {
  }

  /** Too little is left for another delimiter. */
  lemma ScanEnd(t: Content, p: nat, c: bv8, done: seq<Part>, open: seq<nat>)
    requires Scanning(t, p, c, done, open) && t.end - p <= |t.cookie| + 2
    ensures done + Ended(open, t.end) == Parts(t, t.start, [])
  {
    forall x | p <= x <= t.end
      ensures !Hit(t, x, open == [x])
    {
    }
    PartsSkip(t, p, t.end, open);
  }

  /** Parts in order up to `hi`, and one more. */
  lemma {:induction false} ApartMore(ps: seq<Part>, p: Part, lo: nat, mid: nat, hi: nat)
    requires Apart(ps, lo, mid) && mid <= p.offset && p.offset + p.size <= hi
    ensures Apart(ps + [p], lo, hi)
  {
    if ps != [] {
      assert (ps + [p])[1..] == ps[1..] + [p];
      ApartMore(ps[1..], p, ps[0].offset + ps[0].size, mid, hi);
    } else {
      assert [p][1..] == [];
    }
  }

  lemma ScanningFacts(t: Content, p: nat, c: bv8, done: seq<Part>, open: seq<nat>)
    requires Scanning(t, p, c, done, open)
    ensures t.Valid() && t.start <= p <= t.end && |open| <= 1 && (open != [] ==> t.start <= open[0] <= p)
  {
  }

  lemma HitIs(t: Content, q: nat, begun: bool)
    requires t.Valid() && t.start <= q <= t.end && LineStart(t, q) && Enough(t, q, begun)
    ensures Hit(t, q, begun) <==> Dashed(t, q) && (Closing(t, q) || Separates(t, q))
  {
    hide LineStart, Enough, Dashed, Closing, Separates;
  }

  /** After the test of a line. */
  lemma AfterLine(t: Content, p0: nat, c0: bv8, parts: seq<Part>, part: seq<nat>, q: nat, p: nat, c: bv8, o: Outcome)
    requires t.Plain() && Scanning(t, p0, c0, parts, part) && Breaks(c0) && t.end - p0 > |t.cookie| + 2
    requires q == (if c0 == CR && t.text[p0] == LF then p0 + 1 else p0) < p <= t.end
    requires o == Closer <==> Dashed(t, q) && Closing(t, q)
    requires o == Separator <==> Dashed(t, q) && !Closing(t, q) && Separates(t, q)
    requires o == Separator ==> p == BodyStart(t, q)
    requires o != Closer ==> c == t.text[p - 1] || (p == t.end && c == LF)
    requires o == Neither ==> forall x | q <= x < p - 1 :: !Breaks(t.text[x])
    ensures var ended := Ended(part, if p0 > 0 then p0 - 1 else 0);
      && (o == Neither ==> Scanning(t, p, c, parts, part))
      && (o == Closer ==> parts + ended == Parts(t, t.start, []))
      && (o == Separator ==> Scanning(t, p, c, parts + ended, [p]))
  {
    ScanningFacts(t, p0, c0, parts, part);
    hide Scanning, Parts, Hit, LineStart, Enough, Dashed, Closing, Separates, BodyStart, Before, Breaks, Ended;
    ScanLine(t, p0, c0, parts, part, q);
    HitIs(t, q, part == [q]);
    if o == Neither {
      ScanNeither(t, q, p, c, parts, part);
    } else {
      ScanHit(t, q, parts, part, Ended(part, if p0 > 0 then p0 - 1 else 0));
      if o == Separator {
        ScanSeparator(t, q, c, parts + Ended(part, if p0 > 0 then p0 - 1 else 0));
      }
    }
  }

  /** Closes the part, if there is one, at `m`. */
  method Close(parts: seq<Part>, part: seq<nat>, m: nat, ghost lo: nat, ghost p: nat) returns (parts': seq<Part>)
    requires |part| <= 1 && m <= p && (part != [] ==> part[0] <= p)
    requires Apart(parts, lo, if part == [] then p else part[0])
    ensures parts' == parts + Ended(part, m) && Apart(parts', lo, p)
  {
    if part == [] {
      assert parts + [] == parts;
      return parts;
    }
    ApartMore(parts, Part(part[0], if m > part[0] then m - part[0] else 0), lo, part[0], p);
    parts' := parts + [Part(part[0], if m > part[0] then m - part[0] else 0)];
  }

  lemma {:induction false} ApartUpTo(ps: seq<Part>, lo: nat, hi: nat, hi': nat)
    requires Apart(ps, lo, hi) && hi <= hi'
    ensures Apart(ps, lo, hi')
  {
    if ps != [] {
      ApartUpTo(ps[1..], ps[0].offset + ps[0].size, hi, hi');
    }
  }

  /** The scan of rfc822_parse_content. With a boundary without line breaks it finds
      exactly the parts between the delimiters; with every boundary they lie in
      order, apart and in the content, and the count of the characters left
      never falls below 0. */
  method Scan(t: Content) returns (parts: seq<Part>)
    requires t.Valid()
    ensures t.Plain() ==> parts == Parts(t, t.start, [])
    ensures Apart(parts, t.start, t.end)
  {
    hide Scanning, Parts, Hit, LineStart, Enough, Dashed, Closing, Separates, BodyStart, Before, Apart, Content.Plain;
    hide Ended;
    var j := |t.cookie| + 2;
    var c, p: nat, i: nat := LF, t.start, t.end - t.start;
    var part: seq<nat> := [];
    ghost var closed := false;
    parts := [];
    ScanStart(t);
    NoParts(t.start);
    while i > j
      invariant t.start <= p <= t.end && |part| <= 1 && (part != [] ==> t.start <= part[0] <= p)
      invariant closed ==> part == [] && i <= j && (t.Plain() ==> parts == Parts(t, t.start, []))
      invariant !closed ==> i == t.end - p && (t.Plain() ==> Scanning(t, p, c, parts, part))
      invariant Apart(parts, t.start, if part == [] then p else part[0])
      decreases i
    {
      var m := if p > 0 then p - 1 else 0;
      if c == CR || c == LF {
        ghost var p0, c0 := p, c;
        if c == CR && t.text[p] == LF {
          c, p, i := LF, p + 1, i - 1;
        }
        ghost var q := p;
        var o;
        p, i, c, o := TestLine(t, p, i);
        if t.Plain() {
          AfterLine(t, p0, c0, parts, part, q, p, c, o);
        }
        if part == [] {
          ApartUpTo(parts, t.start, p0, p);
        }
        if o == Closer {
          parts := Close(parts, part, m, t.start, p);
          part, i, closed := [], 1, true;
        } else if o == Separator {
          parts := Close(parts, part, m, t.start, p);
          part := [p];
        }
      } else {
        if t.Plain() {
          ScanOver(t, p, c, parts, part);
        }
        if part == [] {
          ApartUpTo(parts, t.start, p, p + 1);
        }
        c, p, i := t.text[p], p + 1, i - 1;
      }
    }
    if !closed && t.Plain() {
      ScanEnd(t, p, c, parts, part);
    }
    if part == [] {
      ApartUpTo(parts, t.start, p, t.end);
    }
    parts := Finish(parts, part, i, p, t.start, t.end);
  }

  lemma NoParts(p: nat)
    ensures Apart([], p, p)
  {
  }

  /** The size of a part that no delimiter closes. */
  method Finish(parts: seq<Part>, part: seq<nat>, i: nat, p: nat, ghost lo: nat, ghost hi: nat)
    returns (parts': seq<Part>)
    requires |part| <= 1 && (part != [] ==> part[0] <= p && p + i == hi)
    requires Apart(parts, lo, if part == [] then hi else part[0])
    ensures parts' == parts + Ended(part, hi) && (part == [] ==> parts' == parts) && Apart(parts', lo, hi)
  {
    if part == [] {
      assert parts + [] == parts;
      return parts;
    }
    var size := i + if p > part[0] then p - part[0] else 0;
    ApartMore(parts, Part(part[0], size), lo, part[0], hi);
    parts' := parts + [Part(part[0], size)];
  }

  // ---- What a delimiter is ----

  lemma {:induction false} BlanksTold(t: Content, r: nat, e: nat)
    requires t.Valid() && t.start <= r <= e <= t.end && (e == t.end || Breaks(t.text[e]))
    requires forall k | r <= k < e :: !Breaks(t.text[k])
    ensures var z := SkipBlanks(t, r);
      z <= e && (z == e <==> forall k | r <= k < e :: t.text[k] == 0x20 || t.text[k] == 0x09)
      && (z < e ==> !Breaks(t.text[z]))
    decreases e - r
  {
    if r < e && (t.text[r] == SPACE || t.text[r] == TAB) {
      BlanksTold(t, r + 1, e);
    }
  }

  /** Of a line that ends at `e` and is longer than a delimiter, or has more text behind
      it: it is a delimiter exactly if it starts with "--" and the boundary and goes on
      with "--" alone, which closes, or with blanks and tabs alone. */
  lemma LineTold(t: Content, q: nat, e: nat, begun: bool)
    requires t.Valid() && t.Plain() && t.start <= q <= e <= t.end && t.end - q > |t.cookie| + 2
    requires forall k | q <= k < e :: t.text[k] != 0x0d && t.text[k] != 0x0a
    requires e == t.end || t.text[e] == 0x0d || t.text[e] == 0x0a
    ensures var r := q + 2 + |t.cookie|;
      var begins := q == t.start || t.text[q - 1] == 0x0a || (t.text[q - 1] == 0x0d && t.text[q] != 0x0a);
      var dashed := r <= e && t.text[q] == 0x2d && t.text[q + 1] == 0x2d && t.text[q + 2..r] == t.cookie;
      && (Hit(t, q, begun) <==>
            begins && dashed
            && (t.text[r..e] == [0x2d, 0x2d] || forall k | r <= k < e :: t.text[k] == 0x20 || t.text[k] == 0x09))
      && (dashed ==> Dashed(t, q) && (Closing(t, q) <==> t.text[r..e] == [0x2d, 0x2d]))
  {
    DashedTold(t, q, e);
    if Dashed(t, q) {
      CloseTold(t, q, e);
      BlanksTold(t, q + 2 + |t.cookie|, e);
    }
    hide Dashed, Closing, SkipBlanks, Content.Plain;
  }

  lemma DashedTold(t: Content, q: nat, e: nat)
    requires t.Valid() && t.Plain() && t.start <= q <= e <= t.end && (e == t.end || Breaks(t.text[e]))
    ensures Dashed(t, q) <==>
      q + 2 + |t.cookie| <= e && t.text[q] == 0x2d && t.text[q + 1] == 0x2d
      && t.text[q + 2..q + 2 + |t.cookie|] == t.cookie
  {
    if Dashed(t, q) {
      CookieAt(t, q);
    }
  }

  lemma CookieAt(t: Content, q: nat)
    requires t.Valid() && t.start <= q && Dashed(t, q)
    ensures forall k | q + 2 <= k < q + 2 + |t.cookie| :: t.text[k] == t.cookie[k - q - 2]
  {
  }

  lemma CloseTold(t: Content, q: nat, e: nat)
    requires t.Valid() && t.start <= q && Dashed(t, q) && q + 2 + |t.cookie| <= e <= t.end
    requires forall k | q <= k < e :: !Breaks(t.text[k])
    requires e == t.end || Breaks(t.text[e])
    ensures Closing(t, q) <==> t.text[q + 2 + |t.cookie|..e] == [0x2d, 0x2d]
  {
    var r := q + 2 + |t.cookie|;
    hide Dashed;
    if Closing(t, q) {
      assert r != e && r + 1 != e;
      assert r + 2 == t.end || e <= r + 2;
      assert e == r + 2;
      assert t.text[r..e] == [t.text[r], t.text[r + 1]];
    }
    if t.text[r..e] == [0x2d, 0x2d] {
      assert e == r + 2;
      assert [t.text[r], t.text[r + 1]] == t.text[r..e];
    }
  }

  /** Behind the blanks of a delimiter line that ends at `e` the body starts, on the next
      line. */
  lemma BodyTold(t: Content, q: nat, e: nat)
    requires t.Valid() && t.start <= q && Dashed(t, q) && q + 2 + |t.cookie| <= e <= t.end
    requires forall k | q + 2 + |t.cookie| <= k < e :: t.text[k] == 0x20 || t.text[k] == 0x09
    requires e == t.end || t.text[e] == 0x0d || t.text[e] == 0x0a
    ensures BodyStart(t, q) ==
      if e == t.end then e
      else if t.text[e] == 0x0d && e + 1 < t.end && t.text[e + 1] == 0x0a then e + 2 else e + 1
  {
    BlanksTold(t, q + 2 + |t.cookie|, e);
    hide Dashed;
  }

  /** From the body behind one delimiter to the next delimiter there is one part, up to
      the line break before that: CRLF, or a single character. */
  lemma PartBetween(t: Content, b: nat, q: nat)
    requires t.Valid() && t.start < b <= q <= t.end && Hit(t, q, b == q)
    requires forall x, begun | b <= x < q :: !Hit(t, x, begun)
    ensures var m := if q >= t.start + 2 && t.text[q - 2] == 0x0d && t.text[q - 1] == 0x0a then q - 2 else q - 1;
      Parts(t, b, [b]) ==
        [Part(b, if m > b then m - b else 0)]
        + if Closing(t, q) then [] else Parts(t, BodyStart(t, q), [BodyStart(t, q)])
  {
    hide Hit, Closing, BodyStart, Parts;
    PartsSkip(t, b, q, [b]);
    PartsNext(t, q, [b]);
  }

  // ---- Multiparts as they are written ----

  /** What rfc822_output_text writes: `ps` are the parts with their headers. */
  function Composed(cookie: seq<bv8>, ps: seq<seq<bv8>>): seq<bv8> {
    if ps == [] then Delimiter(cookie) + ([DASH, DASH, CR, LF] + [])
    else Delimiter(cookie) + ([CR, LF] + (ps[0] + ([CR, LF] + Composed(cookie, ps[1..]))))
  }

  function Delimiter(cookie: seq<bv8>): seq<bv8> {
    [DASH, DASH] + cookie
  }

  /** Two parts with their delimiters: "--" and the boundary on a line before each, and
      "--", the boundary and "--" at the end. */
  lemma TwoComposed(cookie: seq<bv8>, p: seq<bv8>, q: seq<bv8>)
    ensures Composed(cookie, [p, q]) ==
      ([0x2d, 0x2d] + cookie) + ([0x0d, 0x0a] + (p + ([0x0d, 0x0a]
      + (([0x2d, 0x2d] + cookie) + ([0x0d, 0x0a] + (q + ([0x0d, 0x0a]
      + (([0x2d, 0x2d] + cookie) + [0x2d, 0x2d, 0x0d, 0x0a]))))))))
  {
    assert [p, q][1..] == [q] && [q][1..] == [];
    assert [0x2d, 0x2d, 0x0d, 0x0a] + [] == [0x2d, 0x2d, 0x0d, 0x0a];
    assert Composed(cookie, []) == ([0x2d, 0x2d] + cookie) + [0x2d, 0x2d, 0x0d, 0x0a];
  }

  /** No line of the part starts with "--" and the boundary. */
  ghost predicate Clean(cookie: seq<bv8>, p: seq<bv8>) {
    forall x {:trigger p[x..]} | 0 <= x <= |p| - |cookie| - 2 ::
      x == 0 || Breaks(p[x - 1]) ==> p[x..][..|cookie| + 2] != Delimiter(cookie)
  }

  /** Where the parts lie if the first delimiter is at `q`. */
  ghost function Placed(cookie: seq<bv8>, ps: seq<seq<bv8>>, q: nat): seq<Part> {
    if ps == [] then []
    else
      var b := q + |cookie| + 4;
      [Part(b, |ps[0]|)] + Placed(cookie, ps[1..], b + |ps[0]| + 2)
  }

  lemma {:induction false} Peel(s: seq<bv8>, q: nat, a: seq<bv8>, b: seq<bv8>)
    requires q <= |s| && s[q..] == a + b
    ensures q + |a| <= |s| && s[q..q + |a|] == a && s[q + |a|..] == b
  {
    assert s[q..][..|a|] == a && s[q..][|a|..] == b;
  }

  /** A delimiter is where "--" and the boundary are. */
  lemma DashedIs(t: Content, q: nat)
    requires t.Valid() && t.start <= q
    ensures Dashed(t, q) <==> q + 2 + |t.cookie| <= t.end && t.text[q..q + 2 + |t.cookie|] == Delimiter(t.cookie)
  {
    if q + 2 + |t.cookie| <= t.end {
      var s := t.text[q..q + 2 + |t.cookie|];
      assert s[2..] == t.text[q + 2..q + 2 + |t.cookie|];
      assert s == [t.text[q], t.text[q + 1]] + s[2..];
    }
  }

  /** No delimiter starts in a clean part. */
  lemma NoneInPart(t: Content, b: nat, p: seq<bv8>, x: nat, begun: bool)
    requires t.Valid() && t.Plain() && Clean(t.cookie, p) && t.start <= b <= x < b + |p| + 2 <= t.end
    requires t.text[b..b + |p|] == p && t.text[b + |p|] == CR && t.text[b + |p| + 1] == LF
    ensures !Hit(t, x, begun)
  {
    var n := |t.cookie| + 2;
    if x < b + |p| {
      DashedIs(t, x);
      if x + n <= b + |p| {
        hide Dashed, Closing, Separates, Delimiter;
        assert p[x - b..][..n] == t.text[x..x + n];
        assert x > b ==> p[x - b - 1] == t.text[x - 1];
      } else if x + n <= t.end {
        hide Dashed, Closing, Separates, Clean;
        NotDelimiter(t, x, b + |p|);
      }
    }
  }

  /** There is no line break in a delimiter. */
  lemma {:induction false} NotDelimiter(t: Content, x: nat, e: nat)
    requires t.Valid() && t.Plain() && x < e < x + 2 + |t.cookie| <= t.end && t.text[e] == CR
    ensures t.text[x..x + 2 + |t.cookie|] != Delimiter(t.cookie)
  {
    var s, d := t.text[x..x + 2 + |t.cookie|], Delimiter(t.cookie);
    assert s[e - x] == CR;
    assert d[e - x] != CR;
  }

  /** The scan finds exactly the parts that were written. */
  lemma {:induction false} ComposedParts(t: Content, q: nat, ps: seq<seq<bv8>>, open: seq<nat>)
    requires t.Valid() && t.Plain() && t.start <= q <= t.end == |t.text| && |open| <= 1
    requires t.text[q..] == Composed(t.cookie, ps) && LineStart(t, q) && forall p <- ps :: Clean(t.cookie, p)
    ensures Parts(t, q, open) == Ended(open, Before(t, q)) + Placed(t.cookie, ps, q)
    decreases |ps|
  {
    hide Parts, Hit, LineStart, Enough, Dashed, Closing, Separates, BodyStart, Before, Ended, Clean, Content.Plain;
    hide Composed, Delimiter;
    PartsNext(t, q, open);
    if ps == [] {
      LastWritten(t, q);
      ClosingIs(t, q);
    } else {
      var b := q + |t.cookie| + 4;
      assert Placed(t.cookie, ps, q) == [Part(b, |ps[0]|)] + Placed(t.cookie, ps[1..], b + |ps[0]| + 2);
      hide Placed;
      FirstWritten(t, q, ps);
      SeparatorIs(t, q);
      assert ps[0] in ps;
      PartWritten(t, b, ps[0]);
      ComposedParts(t, b + |ps[0]| + 2, ps[1..], [b]);
    }
  }

  lemma {:induction false} LastWritten(t: Content, q: nat)
    requires q <= |t.text| && t.text[q..] == Composed(t.cookie, [])
    ensures q + 6 + |t.cookie| == |t.text| && t.text[q..q + 2 + |t.cookie|] == Delimiter(t.cookie)
    ensures t.text[q + 2 + |t.cookie|..q + 6 + |t.cookie|] == [DASH, DASH, CR, LF]
  {
    Peel(t.text, q, Delimiter(t.cookie), [DASH, DASH, CR, LF] + []);
    Peel(t.text, q + 2 + |t.cookie|, [DASH, DASH, CR, LF], []);
  }

  lemma {:induction false} ComposedFirst(cookie: seq<bv8>, ps: seq<seq<bv8>>)
    requires ps != []
    ensures |Delimiter(cookie)| == |cookie| + 2
    ensures Composed(cookie, ps) == Delimiter(cookie) + ([CR, LF] + (ps[0] + ([CR, LF] + Composed(cookie, ps[1..]))))
  {
  }

  lemma {:induction false} FirstWritten(t: Content, q: nat, ps: seq<seq<bv8>>)
    requires q <= |t.text| && ps != [] && t.text[q..] == Composed(t.cookie, ps)
    ensures var n, b := |t.cookie| + 2, q + |t.cookie| + 4;
      && b + |ps[0]| + 2 <= |t.text| && t.text[q..q + n] == Delimiter(t.cookie) && t.text[q + n..q + n + 2] == [CR, LF]
      && t.text[b..b + |ps[0]|] == ps[0] && t.text[b + |ps[0]|..b + |ps[0]| + 2] == [CR, LF]
      && t.text[b + |ps[0]| + 2..] == Composed(t.cookie, ps[1..])
  {
    var d, n, b := Delimiter(t.cookie), |t.cookie| + 2, q + |t.cookie| + 4;
    var more := Composed(t.cookie, ps[1..]);
    ComposedFirst(t.cookie, ps);
    hide Composed, Delimiter;
    Peel(t.text, q, d, [CR, LF] + (ps[0] + ([CR, LF] + more)));
    Peel(t.text, q + n, [CR, LF], ps[0] + ([CR, LF] + more));
    Peel(t.text, b, ps[0], [CR, LF] + more);
    Peel(t.text, b + |ps[0]|, [CR, LF], more);
  }

  lemma {:induction false} ClosingIs(t: Content, q: nat)
    requires t.Valid() && t.start <= q && q + 6 + |t.cookie| == t.end && LineStart(t, q)
    requires t.text[q..q + 2 + |t.cookie|] == Delimiter(t.cookie)
    requires t.text[q + 2 + |t.cookie|..q + 6 + |t.cookie|] == [DASH, DASH, CR, LF]
    ensures Dashed(t, q) && Closing(t, q) && forall begun :: Hit(t, q, begun)
  {
    DashedIs(t, q);
    var s := t.text[q + 2 + |t.cookie|..q + 6 + |t.cookie|];
    assert s[0] == DASH && s[1] == DASH && s[2] == CR;
  }

  lemma {:induction false} SeparatorIs(t: Content, q: nat)
    requires t.Valid() && t.start <= q && q + 4 + |t.cookie| <= t.end && LineStart(t, q)
    requires t.text[q..q + 2 + |t.cookie|] == Delimiter(t.cookie)
    requires t.text[q + 2 + |t.cookie|..q + 4 + |t.cookie|] == [CR, LF]
    ensures Dashed(t, q) && !Closing(t, q) && BodyStart(t, q) == q + 4 + |t.cookie|
    ensures forall begun :: Hit(t, q, begun)
  {
    DashedIs(t, q);
    var s := t.text[q + 2 + |t.cookie|..q + 4 + |t.cookie|];
    assert s[0] == CR && s[1] == LF;
  }

  /** The scan passes a clean part. */
  lemma PartWritten(t: Content, b: nat, p: seq<bv8>)
    requires t.Valid() && t.Plain() && Clean(t.cookie, p) && t.start <= b && b + |p| + 2 <= t.end
    requires t.text[b..b + |p|] == p && t.text[b + |p|..b + |p| + 2] == [CR, LF]
    ensures Parts(t, b, [b]) == Parts(t, b + |p| + 2, [b])
    ensures LineStart(t, b + |p| + 2) && Ended([b], Before(t, b + |p| + 2)) == [Part(b, |p|)]
  {
    var e := b + |p|;
    LineWritten(t, e);
    hide Hit, Parts, Clean;
    forall x | b <= x < e + 2
      ensures !Hit(t, x, [b] == [x])
    {
      NoneInPart(t, b, p, x, [b] == [x]);
    }
    PartsSkip(t, b, e + 2, [b]);
  }

  lemma LineWritten(t: Content, e: nat)
    requires t.Valid() && t.start <= e && e + 2 <= t.end && t.text[e..e + 2] == [CR, LF]
    ensures t.text[e] == CR && t.text[e + 1] == LF && LineStart(t, e + 2) && Before(t, e + 2) == e
  {
    var s := t.text[e..e + 2];
    assert s[0] == t.text[e] && s[1] == t.text[e + 1];
  }

  lemma {:induction false} PlacedTexts(t: Content, q: nat, ps: seq<seq<bv8>>)
    requires q <= |t.text| && t.text[q..] == Composed(t.cookie, ps)
    ensures var r := Placed(t.cookie, ps, q);
      |r| == |ps| && forall k | 0 <= k < |ps| ::
        r[k].offset + r[k].size <= |t.text| && t.text[r[k].offset..r[k].offset + r[k].size] == ps[k]
    decreases |ps|
  {
    if ps != [] {
      FirstWritten(t, q, ps);
      hide Composed;
      PlacedTexts(t, q + |t.cookie| + 6 + |ps[0]|, ps[1..]);
      var b, rest := q + |t.cookie| + 4, Placed(t.cookie, ps[1..], q + |t.cookie| + 6 + |ps[0]|);
      assert Placed(t.cookie, ps, q) == [Part(b, |ps[0]|)] + rest;
      hide Placed;
      forall k | 0 <= k < |ps|
        ensures var r := ([Part(b, |ps[0]|)] + rest)[k];
          r.offset + r.size <= |t.text| && t.text[r.offset..r.offset + r.size] == ps[k]
      {
        assert k > 0 ==> ps[k] == ps[1..][k - 1];
      }
    }
  }

  lemma NoneOpen(t: Content, ps: seq<seq<bv8>>)
    requires t.Valid() && t.start == 0
    ensures Ended([], Before(t, 0)) + Placed(t.cookie, ps, 0) == Placed(t.cookie, ps, 0)
  {
  }

  /** The parts that were written are the parts that are found. */
  method WriteAndScan(cookie: seq<bv8>, ps: seq<seq<bv8>>) returns (parts: seq<Part>)
    requires (forall k | 0 <= k < |cookie| :: !Breaks(cookie[k])) && forall p <- ps :: Clean(cookie, p)
    ensures |parts| == |ps|
    ensures var text := Composed(cookie, ps);
      forall k | 0 <= k < |ps| ::
        parts[k].offset + parts[k].size <= |text| && text[parts[k].offset..parts[k].offset + parts[k].size] == ps[k]
  {
    hide Composed, Clean, Parts, Placed, Ended, Apart;
    var text := Composed(cookie, ps);
    var t := Content(text, 0, |text|, cookie);
    assert t.text[0..] == text;
    ComposedParts(t, 0, ps, []);
    PlacedTexts(t, 0, ps);
    NoneOpen(t, ps);
    parts := Scan(t);
  }
}
