/** The Boyer-Moore type searches of misc.c. */
module StringSearch {
  /** Equal, or letters that differ only in case if `fold`. */
  predicate Same(fold: bool, a: bv8, b: bv8) {
    if fold then Lower(a) == Lower(b) else a == b
  }

  function Lower(c: bv8): bv8 {
    if 0x41 <= c <= 0x5a then c | 0x20 else c
  }

  predicate MatchAt(fold: bool, base: seq<bv8>, pat: seq<bv8>, k: int) {
    0 <= k <= |base| - |pat| && forall j | 0 <= j < |pat| :: Same(fold, base[k + j], pat[j])
  }

  /** The pattern stands somewhere in the base. */
  ghost predicate Contains(fold: bool, base: seq<bv8>, pat: seq<bv8>) {
    exists k :: MatchAt(fold, base, pat, k)
  }

  ghost predicate Has(fold: bool, pat: seq<bv8>, c: bv8) {
    exists j :: 0 <= j < |pat| && Same(fold, pat[j], c)
  }

  /** `mask` tells which characters the pattern has. */
  ghost predicate Masks(fold: bool, mask: seq<bool>, pat: seq<bv8>) {
    |mask| == 256 && forall c: bv8 :: Has(fold, pat, c) <==> mask[c as int]
  }

  lemma MasksMore(fold: bool, mask: seq<bool>, pat: seq<bv8>, mask': seq<bool>, p: bv8)
    requires Masks(fold, mask, pat) && |mask'| == 256
    requires forall c: bv8 :: Same(fold, p, c) || mask[c as int] <==> mask'[c as int]
    ensures Masks(fold, mask', pat + [p])
  {
    forall c: bv8
      ensures Has(fold, pat + [p], c) <==> mask'[c as int]
    {
      if Has(fold, pat, c) {
        var j :| 0 <= j < |pat| && Same(fold, pat[j], c);
        assert (pat + [p])[j] == pat[j];
      }
      if Same(fold, p, c) {
        assert (pat + [p])[|pat|] == p;
      }
    }
  }

  /** All the matches that end before `i` have been passed without one. */
  ghost predicate NoneBefore(fold: bool, base: seq<bv8>, pat: seq<bv8>, i: int) {
    forall k | k + |pat| - 1 < i :: !MatchAt(fold, base, pat, k)
  }

  /** With base[k] other than pat[j], no match is passed by the skip. */
  lemma Skip(fold: bool, base: seq<bv8>, pat: seq<bv8>, mask: seq<bool>, i: nat, j: nat)
    requires Masks(fold, mask, pat) && NoneBefore(fold, base, pat, i)
    requires j < |pat| <= i + 1 <= |base|
    requires !Same(fold, base[i + 1 - |pat| + j], pat[j])
    ensures NoneBefore(fold, base, pat, i + if mask[base[i + 1 - |pat| + j] as int] then 1 else j + 1)
  {
    var at := i + 1 - |pat| + j;
    var c := base[at];
    forall k | k + |pat| - 1 < i + if mask[c as int] then 1 else j + 1
      ensures !MatchAt(fold, base, pat, k)
    {
      if MatchAt(fold, base, pat, k) && k + |pat| - 1 >= i {
        assert Same(fold, base[k + (at - k)], pat[at - k]);
        assert Has(fold, pat, c);
        assert false;
      }
    }
  }

  lemma NoneAtAll(fold: bool, base: seq<bv8>, pat: seq<bv8>, i: int)
    requires NoneBefore(fold, base, pat, i) && i >= |base|
    ensures !Contains(fold, base, pat)
  {
  }

  method Mask(pat: seq<bv8>) returns (mask: array<bool>)
    ensures fresh(mask) && Masks(false, mask[..], pat)
  {
    mask := new bool[256](_ => false);
    for i := 0 to |pat|
      invariant Masks(false, mask[..], pat[..i])
    {
      ghost var was := mask[..];
      mask[pat[i] as int] := true;
      MasksMore(false, was, pat[..i], mask[..], pat[i]);
      assert pat[..i] + [pat[i]] == pat[..i + 1];
    }
    assert pat[..|pat|] == pat;
  }

  /** ssearch: in a base that is not empty it finds the pattern exactly if it is there. */
  method Ssearch(base: seq<bv8>, pat: seq<bv8>) returns (found: bool)
    ensures found <==> base != [] && Contains(false, base, pat)
  {
    hide Masks, NoneBefore, Contains;
    EmptyFound(false, base, pat);
    TooLong(false, base, pat);
    if |base| > 0 && |base| >= |pat| {
      if |pat| == 0 {
        return true;
      }
      var mask := Mask(pat);
      var patc := |pat| - 1;
      var i := patc;
      NoneYet(false, base, pat);
      while i < |base|
        invariant patc <= i && NoneBefore(false, base, pat, i) && Masks(false, mask[..], pat)
      {
        var j, k, c := patc, i, base[i];
        while c == pat[j]
          invariant 0 <= j <= patc && k == i - (patc - j) && c == base[k]
          invariant forall m | j < m <= patc :: base[i - patc + m] == pat[m]
          decreases j
        {
          if j == 0 {
            Found(false, base, pat, i - patc);
            return true;
          }
          j, k := j - 1, k - 1;
          c := base[k];
        }
        Skip(false, base, pat, mask[..], i, j);
        i := i + if mask[c as int] then 1 else j + 1;
      }
      NoneAtAll(false, base, pat, i);
    }
    return false;
  }

  function AlphaTab(c: bv8): bv8 {
    if 0x41 <= c <= 0x5a || 0x61 <= c <= 0x7a then 0xdf else 0xff
  }

  /** The masked comparison of the source is equality up to ASCII case. */
  lemma MaskedEqual(c: bv8, p: bv8)
    ensures (c ^ p) & AlphaTab(c) == 0 <==> Same(true, c, p)
  {
  }

  lemma BothCases(p: bv8, c: bv8)
    ensures AlphaTab(p) & 0x20 != 0 ==> (Same(true, p, c) <==> c == p)
    ensures AlphaTab(p) & 0x20 == 0 ==> (Same(true, p, c) <==> c == p & 0xdf || c == p | 0x20)
  {
  }

  method FoldedMask(pat: seq<bv8>) returns (mask: array<bool>)
    ensures fresh(mask) && Masks(true, mask[..], pat)
  {
    mask := new bool[256](_ => false);
    for i := 0 to |pat|
      invariant Masks(true, mask[..], pat[..i])
    {
      ghost var was := mask[..];
      var c := pat[i];
      if !mask[c as int] {
        if AlphaTab(c) & 0x20 != 0 {
          mask[c as int] := true;
        } else {
          mask[(c & 0xdf) as int] := true;
          mask[(c | 0x20) as int] := true;
        }
      }
      FoldedMore(was, pat[..i], mask[..], c);
      assert pat[..i] + [pat[i]] == pat[..i + 1];
    }
    assert pat[..|pat|] == pat;
  }

  lemma FoldedMore(mask: seq<bool>, pat: seq<bv8>, mask': seq<bool>, p: bv8)
    requires Masks(true, mask, pat)
    requires mask' == if mask[p as int] then mask else if AlphaTab(p) & 0x20 != 0 then mask[p as int := true]
                      else mask[(p & 0xdf) as int := true][(p | 0x20) as int := true]
    ensures Masks(true, mask', pat + [p])
  {
    hide AlphaTab, Same;
    if mask[p as int] {
      AlreadyThere(mask, pat, p);
    }
    hide Masks;
    forall c: bv8
      ensures Same(true, p, c) || mask[c as int] <==> mask'[c as int]
    {
      if !mask[p as int] {
        FoldedAt(mask, mask', p, c);
      }
    }
    MasksMore(true, mask, pat, mask', p);
  }

  lemma FoldedAt(mask: seq<bool>, mask': seq<bool>, p: bv8, c: bv8)
    requires |mask| == 256
    requires mask' == if AlphaTab(p) & 0x20 != 0 then mask[p as int := true]
                      else mask[(p & 0xdf) as int := true][(p | 0x20) as int := true]
    ensures Same(true, p, c) || mask[c as int] <==> mask'[c as int]
  {
    BothCases(p, c);
    hide Same;
    SameIndex(c, p);
    SameIndex(c, p & 0xdf);
    SameIndex(c, p | 0x20);
  }

  lemma SameIndex(c: bv8, d: bv8)
    ensures c as int == d as int <==> c == d
  {
  }

  lemma AlreadyThere(mask: seq<bool>, pat: seq<bv8>, p: bv8)
    requires Masks(true, mask, pat) && mask[p as int]
    ensures forall c: bv8 :: Same(true, p, c) ==> mask[c as int]
  {
    assert Has(true, pat, p);
    forall c: bv8 | Same(true, p, c)
      ensures mask[c as int]
    {
      assert Has(true, pat, c);
    }
  }

  /** search: the same up to the case of ASCII letters. */
  method Search(base: seq<bv8>, pat: seq<bv8>) returns (found: bool)
    ensures found <==> base != [] && Contains(true, base, pat)
  {
    hide Masks, NoneBefore, Contains, AlphaTab, Same;
    EmptyFound(true, base, pat);
    TooLong(true, base, pat);
    if |base| > 0 && |base| >= |pat| {
      if |pat| == 0 {
        return true;
      }
      var mask := FoldedMask(pat);
      ghost var marks := mask[..];
      var patc := |pat| - 1;
      var i := patc;
      NoneYet(true, base, pat);
      while i < |base|
        invariant patc <= i && NoneBefore(true, base, pat, i) && mask[..] == marks
      {
        var j, k, c := patc, i, base[i];
        MaskedEqual(c, pat[j]);
        while (c ^ pat[j]) & AlphaTab(c) == 0
          invariant 0 <= j <= patc && k == i - (patc - j) && c == base[k]
          invariant mask[..] == marks && ((c ^ pat[j]) & AlphaTab(c) == 0 <==> Same(true, c, pat[j]))
          invariant forall m | j < m <= patc :: Same(true, base[i - patc + m], pat[m])
          decreases j
        {
          if j == 0 {
            Found(true, base, pat, i - patc);
            return true;
          }
          j, k := j - 1, k - 1;
          c := base[k];
          MaskedEqual(c, pat[j]);
        }
        Skip(true, base, pat, marks, i, j);
        i := i + if mask[c as int] then 1 else j + 1;
      }
      NoneAtAll(true, base, pat, i);
    }
    return false;
  }

  lemma EmptyFound(fold: bool, base: seq<bv8>, pat: seq<bv8>)
    ensures pat == [] ==> Contains(fold, base, pat)
  {
    assert pat == [] ==> MatchAt(fold, base, pat, 0);
  }

  lemma NoneYet(fold: bool, base: seq<bv8>, pat: seq<bv8>)
    ensures NoneBefore(fold, base, pat, |pat| - 1)
  {
  }

  lemma Found(fold: bool, base: seq<bv8>, pat: seq<bv8>, k: int)
    requires MatchAt(fold, base, pat, k)
    ensures Contains(fold, base, pat)
  {
  }

  lemma TooLong(fold: bool, base: seq<bv8>, pat: seq<bv8>)
    ensures |base| < |pat| ==> !Contains(fold, base, pat)
  {
  }
}
