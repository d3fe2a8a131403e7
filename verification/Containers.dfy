/** The containers of the REFERENCES threading algorithm (RFC 5256, section 3)
    and the forest their links form while messages are being linked to the
    messages they refer to.  Containers are numbered from 1 in the order of
    their creation; 0 is the NIL link. */
module Containers {
  import opened Messages
  import opened Roses

  ghost function First(ks: seq<Cell>): nat {
    if ks == [] then NIL else ks[0]
  }

  ghost predicate Distinct(ks: seq<Cell>) {
    ks == [] || (ks[0] !in ks[1..] && Distinct(ks[1..]))
  }

  /** What comes after `x` in `ks`: its younger sister, or NIL. */
  ghost function Next(ks: seq<Cell>, x: Cell): nat {
    if ks == [] then NIL
    else if ks[0] == x then First(ks[1..])
    else Next(ks[1..], x)
  }

  /** `ks` with `x` taken out. */
  ghost function Without(ks: seq<Cell>, x: Cell): (r: seq<Cell>)
    ensures forall y <- r :: y in ks && y != x
    ensures forall y <- ks :: y != x ==> y in r
  {
    if ks == [] then []
    else if ks[0] == x then Without(ks[1..], x)
    else [ks[0]] + Without(ks[1..], x)
  }

  lemma {:induction false} NextAfter(done: seq<Cell>, rest: seq<Cell>)
    requires rest != [] && Distinct(done + rest)
    ensures Next(done + rest, rest[0]) == First(rest[1..])
  {
    if done == [] {
      assert done + rest == rest;
    } else {
      assert (done + rest)[1..] == done[1..] + rest;
      assert rest[0] in done[1..] + rest;
      NextAfter(done[1..], rest);
    }
  }

  lemma {:induction false} DistinctAppend(ks: seq<Cell>, x: Cell)
    requires Distinct(ks) && x !in ks
    ensures Distinct(ks + [x])
  {
    if ks != [] {
      assert (ks + [x])[1..] == ks[1..] + [x];
      DistinctAppend(ks[1..], x);
    }
  }

  /** Appending changes only what comes after the last one. */
  lemma {:induction false} NextAppend(ks: seq<Cell>, x: Cell, y: Cell)
    requires Distinct(ks) && x !in ks
    ensures Next(ks + [x], y) ==
            if y in ks then (if y == ks[|ks| - 1] then x else Next(ks, y)) else NIL
  {
    if ks == [] {
    } else {
      assert (ks + [x])[1..] == ks[1..] + [x];
      NextAppend(ks[1..], x, y);
      if |ks| > 1 {
        assert ks[1..][|ks| - 2] == ks[|ks| - 1];
      }
    }
  }

  /** Taking `x` out changes only what comes after its elder sister. */
  lemma {:induction false} NextWithout(ks: seq<Cell>, x: Cell, y: Cell)
    requires Distinct(ks) && y in ks && y != x
    ensures Next(Without(ks, x), y) == if Next(ks, y) == x then Next(ks, x) else Next(ks, y)
    ensures Next(ks, y) == x ==> x in ks
    ensures Distinct(Without(ks, x))
    ensures First(Without(ks, x)) == if ks[0] == x then Next(ks, x) else ks[0]
  {
    var rest := ks[1..];
    if ks[0] == x {
      WithoutAbsent(rest, x);
      if Next(rest, y) != NIL {
        NextNotFirst(rest, y);
      }
    } else if ks[0] == y {
      WithoutFacts(rest, x);
    } else {
      NextWithout(rest, x, y);
    }
  }

  lemma {:induction false} NextNotFirst(ks: seq<Cell>, y: Cell)
    requires Distinct(ks) && Next(ks, y) != NIL
    ensures Next(ks, y) in ks[1..]
  {
    if ks[0] != y {
      NextNotFirst(ks[1..], y);
    }
  }

  lemma {:induction false} NextIsMember(ks: seq<Cell>, y: Cell)
    requires Next(ks, y) != NIL
    ensures Next(ks, y) in ks
  {
    if ks[0] != y {
      NextIsMember(ks[1..], y);
    }
  }

  lemma {:induction false} NextInjective(ks: seq<Cell>, a: Cell, b: Cell)
    requires Distinct(ks) && a in ks && b in ks
    requires Next(ks, a) == Next(ks, b) != NIL
    ensures a == b
  {
    if ks[0] == a || ks[0] == b {
      if a != b {
        NextNotFirst(ks[1..], if ks[0] == a then b else a);
      }
    } else {
      NextInjective(ks[1..], a, b);
    }
  }

  lemma {:induction false} WithoutFacts(ks: seq<Cell>, x: Cell)
    requires Distinct(ks)
    ensures Distinct(Without(ks, x))
    ensures First(Without(ks, x)) == if ks != [] && ks[0] == x then Next(ks, x) else First(ks)
  {
    if ks != [] {
      WithoutFacts(ks[1..], x);
      if ks[0] == x {
        WithoutAbsent(ks[1..], x);
      }
    }
  }

  lemma {:induction false} WithoutAbsent(ks: seq<Cell>, x: Cell)
    requires x !in ks
    ensures Without(ks, x) == ks
  {
    if ks != [] {
      WithoutAbsent(ks[1..], x);
    }
  }

  /** Who is whose child.  `rank` grows along every parent link, so there is no cycle. */
  datatype Family = Family(kids: map<Cell, seq<Cell>>, parent: map<Cell, nat>,
                           rank: map<Cell, nat>, bound: nat)
  {
    ghost predicate Matched() {
      && kids.Keys == parent.Keys
      && (forall c {:trigger Distinct(kids[c])} | c in kids :: Distinct(kids[c]))
      && (forall c, k {:trigger k in kids[c]} | c in kids && k in kids[c] :: k in kids && parent[k] == c)
      && (forall c {:trigger parent[c]} | c in kids && parent[c] != NIL :: parent[c] in kids)
      && (forall c {:trigger c in kids[parent[c]]} | c in kids && parent[c] != NIL :: c in kids[parent[c]])
    }

    ghost predicate Ranked() {
      && kids.Keys == parent.Keys == rank.Keys
      && (forall c {:trigger rank[c]} | c in rank :: rank[c] < bound)
      && (forall c {:trigger parent[c]} | c in parent && parent[c] != NIL ::
            parent[c] in rank && rank[parent[c]] < rank[c])
    }

    ghost predicate Ok() {
      kids.Keys == parent.Keys == rank.Keys && Matched() && Ranked()
    }

    lemma InBound(c: Cell)
      requires Ok() && c in kids
      ensures rank[c] < bound
    {
    }

    ghost predicate Brood(c: Cell) {
      && c in kids && Distinct(kids[c])
      && forall k <- kids[c] :: k in kids && k in parent && parent[k] == c
    }

    /** The younger sister of `c`; roots have none. */
    ghost function Sister(c: Cell): nat {
      if c !in parent || parent[c] == NIL || parent[c] !in kids then NIL else Next(kids[parent[c]], c)
    }

    /** The eldest child of `c`. */
    ghost function Eldest(c: Cell): nat {
      if c !in kids then NIL else First(kids[c])
    }

    /** The three links say what the family says. */
    ghost predicate Says(parent: map<Cell, nat>, sibling: map<Cell, nat>, child: map<Cell, nat>) {
      && this.parent == parent
      && kids.Keys == parent.Keys == sibling.Keys == child.Keys
      && (forall c {:trigger child[c]} | c in child :: child[c] == Eldest(c))
      && (forall c {:trigger sibling[c]} | c in sibling :: sibling[c] == Sister(c))
    }

    lemma SaysKeys(parent: map<Cell, nat>, sibling: map<Cell, nat>, child: map<Cell, nat>)
      requires Says(parent, sibling, child)
      ensures this.parent == parent && kids.Keys == parent.Keys == sibling.Keys == child.Keys
    {
    }

    /** `x` is `top` or lies in the subtree under `top`. */
    ghost predicate Below(top: Cell, x: Cell)
      requires Ranked() && x in kids
      decreases rank[x]
    {
      x == top || (parent[x] != NIL && Below(top, parent[x]))
    }

    lemma {:induction false} BelowRank(top: Cell, x: Cell)
      requires Ranked() && top in kids && x in kids && Below(top, x)
      ensures rank[top] <= rank[x]
      ensures top != x ==> rank[top] < rank[x]
      decreases rank[x]
    {
      if x != top {
        BelowRank(top, parent[x]);
      }
    }

    lemma ParentIsNotBelow(c: Cell)
      requires Ranked() && c in kids && parent[c] != NIL
      ensures parent[c] in kids && !Below(c, parent[c])
    {
      if Below(c, parent[c]) {
        BelowRank(c, parent[c]);
      }
    }

    lemma ChildFacts(c: Cell, k: Cell)
      requires Ok() && c in kids && k in kids[c]
      ensures k in kids && parent[k] == c && rank[c] < rank[k] < bound
    {
    }

    /** The children of `c`, whose sisters are found by their links. */
    lemma BroodEldest(parent: map<Cell, nat>, sibling: map<Cell, nat>, child: map<Cell, nat>, c: Cell)
      requires Says(parent, sibling, child) && Brood(c)
      ensures c in child && child[c] == First(kids[c])
    {
    }

    lemma BroodSister(parent: map<Cell, nat>, sibling: map<Cell, nat>, child: map<Cell, nat>, c: Cell, n: nat)
      requires Says(parent, sibling, child) && Brood(c) && n < |kids[c]|
      ensures var ks := kids[c];
        ks[n] in parent && ks[n] in sibling && sibling[ks[n]] == if n + 1 < |ks| then ks[n + 1] else NIL
    {
      var ks := kids[c];
      assert ks[..n] + ks[n..] == ks;
      NextAfter(ks[..n], ks[n..]);
      assert ks[n] in ks;
    }

    lemma SaysSister(parent: map<Cell, nat>, sibling: map<Cell, nat>, child: map<Cell, nat>)
      requires Says(parent, sibling, child)
      ensures forall c | c in sibling :: Sister(c) == sibling[c]
    {
    }

    lemma BroodSisters(c: Cell)
      requires Brood(c)
      ensures Distinct(kids[c]) && forall k <- kids[c] :: Sister(k) == Next(kids[c], k)
    {
    }

    /** The walk over the children of `c`. */
    lemma KidLinks(parent: map<Cell, nat>, sibling: map<Cell, nat>, child: map<Cell, nat>,
                   c: Cell, done: seq<Cell>, rest: seq<Cell>)
      requires Ok() && Says(parent, sibling, child) && c in kids && done + rest == kids[c]
      ensures c in child && child[c] == First(kids[c])
      ensures rest != [] ==>
        && rest[0] in kids && this.parent[rest[0]] == c && rank[c] < rank[rest[0]] < bound
        && rest[0] in sibling && sibling[rest[0]] == First(rest[1..])
    {
      if rest != [] {
        assert rest[0] in kids[c] && Distinct(kids[c]);
        NextAfter(done, rest);
      }
    }

    lemma {:induction false} BelowTransitive(a: Cell, b: Cell, x: Cell)
      requires Ranked() && a in kids && b in kids && x in kids && Below(a, b) && Below(b, x)
      ensures Below(a, x)
      decreases rank[x]
    {
      if x != b {
        BelowTransitive(a, b, parent[x]);
      }
    }

    /** The containers above one container form a chain. */
    lemma {:induction false} AboveIsChain(a: Cell, b: Cell, x: Cell)
      requires Ranked() && a in kids && b in kids && x in kids && Below(a, x) && Below(b, x)
      ensures Below(a, b) || Below(b, a)
      decreases rank[x]
    {
      if x != a && x != b {
        AboveIsChain(a, b, parent[x]);
      }
    }

    /** A subtree is its top and the subtrees of the children of the top. */
    lemma {:induction false} BelowDown(top: Cell, x: Cell)
      requires Ok() && top in kids && x in kids
      ensures Below(top, x) <==> x == top || exists k <- kids[top] :: Below(k, x)
      decreases rank[x]
    {
      if Below(top, x) && x != top {
        BelowDown(top, parent[x]);
        if parent[x] == top {
          assert x in kids[top] && Below(x, x);
        } else {
          var k :| k in kids[top] && Below(k, parent[x]);
          assert Below(k, x);
        }
      }
      forall k <- kids[top] | Below(k, x)
        ensures Below(top, x)
      {
        assert parent[k] == top && Below(top, k);
        BelowTransitive(top, k, x);
      }
    }

    /** The family with one more container, on its own. */
    ghost function Grow(c: Cell): Family {
      Family(kids[c := []], parent[c := NIL], rank[c := bound], bound + 1)
    }

    lemma GrowOk(c: Cell)
      requires Ok() && c !in kids
      ensures Grow(c).Ok()
    {
    }

    lemma GrowLinks(c: Cell, parent: map<Cell, nat>, sibling: map<Cell, nat>, child: map<Cell, nat>)
      requires Ok() && c !in kids && Says(parent, sibling, child)
      ensures Grow(c).Says(parent[c := NIL], sibling[c := NIL], child[c := NIL])
    {
      hide Matched, Ranked, Sister, Eldest;
      forall x | x in kids || x == c
        ensures Grow(c).Sister(x) == (if x == c then NIL else Sister(x))
        ensures Grow(c).Eldest(x) == if x == c then NIL else Eldest(x)
      {
        GrowLink(c, x);
      }
    }

    lemma GrowLink(c: Cell, x: Cell)
      requires Ok() && c !in kids && (x in kids || x == c)
      ensures Grow(c).Sister(x) == (if x == c then NIL else Sister(x))
      ensures Grow(c).Eldest(x) == if x == c then NIL else Eldest(x)
    {
      hide Ranked;
    }

    /** The family in which the root `nxc` hangs below `con`, whose children are then `ks`. */
    ghost function Hang(con: Cell, nxc: Cell, ks: seq<Cell>): Family
      requires Ok() && con in kids && nxc in kids
    {
      Family(kids[con := ks], parent[nxc := con],
             map c | c in rank :: if Below(nxc, c) then rank[c] + rank[con] + 1 else rank[c],
             bound + rank[con] + 1)
    }

    /** Hanging a root below a container outside its own subtree makes no cycle. */
    lemma {:induction false} HangOk(con: Cell, nxc: Cell, ks: seq<Cell>)
      requires Ok() && con in kids && nxc in kids && parent[nxc] == NIL && !Below(nxc, con)
      requires ks == [nxc] + kids[con] || ks == kids[con] + [nxc]
      ensures Hang(con, nxc, ks).Ok() && Hang(con, nxc, ks).kids.Keys == kids.Keys
    {
      HangMatched(con, nxc, ks);
      HangRanked(con, nxc, ks);
      hide Matched, Ranked, Below;
    }

    lemma {:induction false} HangMatched(con: Cell, nxc: Cell, ks: seq<Cell>)
      requires Ok() && con in kids && nxc in kids && parent[nxc] == NIL
      requires ks == [nxc] + kids[con] || ks == kids[con] + [nxc]
      ensures Hang(con, nxc, ks).Matched()
    {
      hide Below, Ranked;
      assert nxc !in kids[con];
      DistinctAppend(kids[con], nxc);
      assert forall k :: k in ks <==> k in kids[con] || k == nxc;
    }

    lemma {:induction false} HangRanked(con: Cell, nxc: Cell, ks: seq<Cell>)
      requires Ok() && con in kids && nxc in kids && parent[nxc] == NIL && !Below(nxc, con)
      ensures Hang(con, nxc, ks).Ranked()
    {
      hide Matched;
      var h := Hang(con, nxc, ks);
      forall c | c in kids && h.parent[c] != NIL
        ensures h.parent[c] in kids && h.rank[h.parent[c]] < h.rank[c]
      {
        if c != nxc {
          assert Below(nxc, c) <==> c == nxc || Below(nxc, parent[c]);
        }
      }
    }

    /** The three links in `h` are those here, but `nxc` is the eldest child of `con`. */
    ghost predicate EldestIn(h: Family, con: Cell, nxc: Cell)
      requires parent.Keys == kids.Keys && con in kids
    {
      && h.kids.Keys == h.parent.Keys == kids.Keys
      && (forall c {:trigger h.parent[c]} | c in kids :: h.parent[c] == (if c == nxc then con else parent[c]))
      && (forall c {:trigger h.Eldest(c)} | c in kids :: h.Eldest(c) == if c == con then nxc else Eldest(c))
      && (forall c {:trigger h.Sister(c)} | c in kids ::
            h.Sister(c) == if c == nxc then Eldest(con) else Sister(c))
    }

    lemma HangEldest(con: Cell, nxc: Cell)
      requires Ok() && con in kids && nxc in kids && parent[nxc] == NIL && !Below(nxc, con)
      ensures EldestIn(Hang(con, nxc, [nxc] + kids[con]), con, nxc)
    {
      var h := Hang(con, nxc, [nxc] + kids[con]);
      forall c | c in kids
        ensures h.Sister(c) == if c == nxc then First(kids[con]) else Sister(c)
      {
        assert ([nxc] + kids[con])[1..] == kids[con];
      }
    }

    /** The three links in `h` are those here, but `nxc` is the youngest child of `con`. */
    ghost predicate YoungestIn(h: Family, con: Cell, nxc: Cell)
      requires parent.Keys == kids.Keys && con in kids
    {
      && h.kids.Keys == h.parent.Keys == kids.Keys
      && (forall c {:trigger h.parent[c]} | c in kids :: h.parent[c] == (if c == nxc then con else parent[c]))
      && (forall c {:trigger h.Eldest(c)} | c in kids ::
            h.Eldest(c) == if c == con && kids[c] == [] then nxc else Eldest(c))
      && (forall c {:trigger h.Sister(c)} | c in kids ::
            h.Sister(c) == (if c == nxc then NIL
                              else if c in kids[con] && c == kids[con][|kids[con]| - 1] then nxc
                              else Sister(c)))
    }

    lemma HangYoungest(con: Cell, nxc: Cell)
      requires Ok() && con in kids && nxc in kids && parent[nxc] == NIL && !Below(nxc, con)
      ensures YoungestIn(Hang(con, nxc, kids[con] + [nxc]), con, nxc)
    {
      forall c | c in kids {
        HangYoungestSister(con, nxc, c);
      }
    }

    lemma HangYoungestSister(con: Cell, nxc: Cell, c: Cell)
      requires Ok() && con in kids && nxc in kids && parent[nxc] == NIL && !Below(nxc, con) && c in kids
      ensures Hang(con, nxc, kids[con] + [nxc]).Sister(c) ==
              if c == nxc then NIL
              else if c in kids[con] && c == kids[con][|kids[con]| - 1] then nxc
              else Sister(c)
    {
      NextAppend(kids[con], nxc, c);
      assert parent[c] == NIL || c in kids[parent[c]];
    }

    lemma LinkFirst(parent: map<Cell, nat>, sibling: map<Cell, nat>, child: map<Cell, nat>,
                    con: Cell, nxc: Cell, h: Family)
      requires Says(parent, sibling, child) && con in kids && nxc in kids && EldestIn(h, con, nxc)
      ensures h.Says(parent[nxc := con], sibling[nxc := child[con]], child[con := nxc])
    {
      hide Sister, Eldest;
    }

    lemma LinkOnly(parent: map<Cell, nat>, sibling: map<Cell, nat>, child: map<Cell, nat>,
                   con: Cell, nxc: Cell, h: Family)
      requires Says(parent, sibling, child) && con in kids && nxc in kids && parent[nxc] == NIL
      requires YoungestIn(h, con, nxc)
      requires kids[con] == []
      ensures h.Says(parent[nxc := con], sibling, child[con := nxc])
    {
    }

    lemma LinkEnds(parent: map<Cell, nat>, sibling: map<Cell, nat>, child: map<Cell, nat>, con: Cell, nxc: Cell)
      requires Says(parent, sibling, child) && Brood(con) && nxc in kids && parent[nxc] == NIL
      ensures con in child && (child[con] == NIL <==> kids[con] == []) && nxc !in kids[con]
    {
    }

    lemma LinkAfter(parent: map<Cell, nat>, sibling: map<Cell, nat>, child: map<Cell, nat>,
                    con: Cell, nxc: Cell, sib: Cell, h: Family)
      requires Says(parent, sibling, child) && con in kids && nxc in kids && parent[nxc] == NIL
      requires YoungestIn(h, con, nxc)
      requires sib in kids && sib in kids[con] && sib == kids[con][|kids[con]| - 1] && nxc !in kids[con]
      ensures h.Says(parent[nxc := con], sibling[sib := nxc], child)
    {
    }

    /** The family in which `nxc` is a root. */
    ghost function CutOff(nxc: Cell): Family
      requires Matched() && nxc in kids && parent[nxc] != NIL
    {
      this.(kids := kids[parent[nxc] := Without(kids[parent[nxc]], nxc)], parent := parent[nxc := NIL])
    }

    lemma CutOffOk(nxc: Cell)
      requires Ok() && nxc in kids && parent[nxc] != NIL
      ensures CutOff(nxc).Ok() && CutOff(nxc).kids.Keys == kids.Keys
    {
      CutOffMatched(nxc);
      CutOffRanked(nxc);
      hide Matched, Ranked;
    }

    lemma CutOffMatched(nxc: Cell)
      requires Ok() && nxc in kids && parent[nxc] != NIL
      ensures CutOff(nxc).Matched()
    {
      hide Ranked;
      WithoutFacts(kids[parent[nxc]], nxc);
    }

    lemma CutOffRanked(nxc: Cell)
      requires Ok() && nxc in kids && parent[nxc] != NIL
      ensures CutOff(nxc).Ranked()
    {
    }

    /** The three links in `h` are those here, but `nxc` is a root. */
    ghost predicate CutOffIn(h: Family, nxc: Cell)
      requires parent.Keys == kids.Keys && nxc in kids && parent[nxc] in kids
    {
      && h.kids.Keys == h.parent.Keys == kids.Keys
      && (forall c {:trigger h.parent[c]} | c in kids :: h.parent[c] == (if c == nxc then NIL else parent[c]))
      && (forall c {:trigger h.Eldest(c)} | c in kids ::
            h.Eldest(c) == if Eldest(c) == nxc then Sister(nxc) else Eldest(c))
      && (forall c {:trigger h.Sister(c)} | c in kids ::
            h.Sister(c) == if c == nxc then NIL else if Sister(c) == nxc then Sister(nxc) else Sister(c))
      && (forall c {:trigger Eldest(c)} | c in kids && Eldest(c) == nxc :: c == parent[nxc])
      && (forall c {:trigger Sister(c)} | c in kids && Sister(c) == nxc ::
            c in kids[parent[nxc]] && Eldest(parent[nxc]) != nxc)
    }

    lemma CutOffLinks(nxc: Cell)
      requires Ok() && nxc in kids && parent[nxc] != NIL
      ensures CutOffIn(CutOff(nxc), nxc)
    {
      assert nxc in kids[parent[nxc]];
      forall c | c in kids {
        CutOffEldest(nxc, c);
      }
      forall c | c in kids {
        CutOffSister(nxc, c);
      }
    }

    /** Cutting a container off leaves its own subtree as it was. */
    lemma {:induction false} CutOffBelow(nxc: Cell, x: Cell)
      requires Ok() && nxc in kids && parent[nxc] != NIL && x in kids
      ensures CutOff(nxc).Ok() && (CutOff(nxc).Below(nxc, x) <==> Below(nxc, x))
      decreases rank[x]
    {
      CutOffOk(nxc);
      if x != nxc && parent[x] != NIL {
        CutOffBelow(nxc, parent[x]);
      }
    }

    /** Step 1A for two consecutive references: `nxc` becomes the eldest child of
        `con`, unless it has a parent or `con` is in its own subtree. */
    ghost function Refer(con: Cell, nxc: Cell): (h: Family)
      requires Ok() && con in kids && nxc in kids
      ensures h.Ok() && h.kids.Keys == kids.Keys
    {
      if parent[nxc] != NIL || Below(nxc, con) then this
      else HangOk(con, nxc, [nxc] + kids[con]); Hang(con, nxc, [nxc] + kids[con])
    }

    /** The family in which `nxc` is a root, whether it was one or not. */
    ghost function Free(nxc: Cell): (h: Family)
      requires Ok() && nxc in kids
      ensures h.Ok() && h.kids.Keys == kids.Keys && h.parent[nxc] == NIL
      ensures forall c {:trigger h.parent[c]} | c in kids && c != nxc :: h.parent[c] == parent[c]
      ensures forall c | c in kids :: h.Below(nxc, c) <==> Below(nxc, c)
    {
      if parent[nxc] == NIL then this
      else
        CutOffOk(nxc);
        assert forall c | c in kids :: CutOff(nxc).Below(nxc, c) <==> Below(nxc, c) by {
          forall c | c in kids {
            CutOffBelow(nxc, c);
          }
        }
        CutOff(nxc)
    }

    /** Step 1B: the last reference `con` becomes the parent of `nxc`, which then is
        its youngest child unless it was its child before; without a reference, or
        if that is in its own subtree, `nxc` becomes a root. */
    ghost function Settle(con: nat, nxc: Cell): (h: Family)
      requires Ok() && nxc in kids && (con != NIL ==> con in kids)
      ensures h.Ok() && h.kids.Keys == kids.Keys
    {
      if con != NIL && parent[nxc] == con then this
      else
        var f := Free(nxc);
        if con == NIL || Below(nxc, con) then f
        else f.HangOk(con, nxc, f.kids[con] + [nxc]); f.Hang(con, nxc, f.kids[con] + [nxc])
    }

    /** Which parents these two steps leave. */
    lemma ReferParent(con: Cell, nxc: Cell, c: Cell)
      requires Ok() && con in kids && nxc in kids && c in kids
      ensures Refer(con, nxc).parent[c] == if c == nxc && parent[nxc] == NIL && !Below(nxc, con) then con else parent[c]
    {
    }

    lemma {:induction false} SettleParent(con: nat, nxc: Cell, c: Cell)
      requires Ok() && nxc in kids && (con != NIL ==> con in kids) && c in kids
      ensures Settle(con, nxc).parent[c] ==
              if c != nxc then parent[c] else if con == NIL || Below(nxc, con) then NIL else con
    {
      if con != NIL && parent[nxc] == con {
        ParentIsNotBelow(nxc);
      }
    }

    lemma UnlinkEldest(parent: map<Cell, nat>, sibling: map<Cell, nat>, child: map<Cell, nat>, nxc: Cell, h: Family)
      requires Says(parent, sibling, child) && nxc in kids && parent[nxc] in kids && CutOffIn(h, nxc)
      requires child[parent[nxc]] == nxc
      ensures h.Says(parent[nxc := NIL], sibling[nxc := NIL], child[parent[nxc] := sibling[nxc]])
    {
    }

    lemma UnlinkYounger(parent: map<Cell, nat>, sibling: map<Cell, nat>, child: map<Cell, nat>,
                        nxc: Cell, sib: Cell, h: Family)
      requires Says(parent, sibling, child) && nxc in kids && parent[nxc] in kids && CutOffIn(h, nxc)
      requires child[parent[nxc]] != nxc && sib in kids && Sister(sib) == nxc
      requires forall c <- kids[parent[nxc]] :: Sister(c) == nxc ==> c == sib
      ensures h.Says(parent[nxc := NIL], sibling[sib := sibling[nxc]][nxc := NIL], child)
    {
      forall c {:trigger Sister(c)} | c in kids && Sister(c) == nxc
        ensures c == sib
      {
      }
      hide Sister, Eldest;
    }

    lemma CutOffEldest(nxc: Cell, c: Cell)
      requires Ok() && nxc in kids && parent[nxc] != NIL && c in kids
      ensures CutOff(nxc).Eldest(c) == if Eldest(c) == nxc then Sister(nxc) else Eldest(c)
      ensures Eldest(c) == nxc ==> c == parent[nxc]
    {
      WithoutFacts(kids[parent[nxc]], nxc);
      if kids[c] != [] {
        assert kids[c][0] in kids[c];
      }
    }

    lemma CutOffSister(nxc: Cell, c: Cell)
      requires Ok() && nxc in kids && parent[nxc] != NIL && c in kids
      ensures CutOff(nxc).Sister(c) ==
              if c == nxc then NIL else if Sister(c) == nxc then Sister(nxc) else Sister(c)
      ensures Sister(c) == nxc ==> c in kids[parent[nxc]] && Eldest(parent[nxc]) != nxc
    {
      var ks := kids[parent[nxc]];
      assert Distinct(ks) && nxc in ks;
      if parent[c] != NIL {
        assert c in kids[parent[c]];
        if c != nxc && parent[c] == parent[nxc] {
          NextWithout(ks, nxc, c);
        }
        if Sister(c) == nxc {
          NextIsMember(kids[parent[c]], c);
          NextNotFirst(ks, c);
        }
      }
    }
  }

  /** All containers, with the three links of each. */
  class Pool {
    var cache: seq<Option<Message>>
    var parent: map<Cell, nat>
    var sibling: map<Cell, nat>
    var child: map<Cell, nat>
    ghost var fam: Family

    /** The family says exactly what the three links say. */
    ghost predicate Mirrors()
      reads this
    {
      fam.Says(parent, sibling, child)
    }

    ghost predicate Sound()
      reads this
    {
      fam.Ok() && fam.parent == parent && fam.kids.Keys == parent.Keys && Mirrors()
    }

    ghost predicate Valid()
      reads this
    {
      && Sound()
      && forall c: Cell :: c in parent <==> c <= |cache|
    }

    constructor ()
      ensures Valid() && cache == [] && fam == Family(map[], map[], map[], 0)
    {
      cache := [];
      parent, sibling, child := map[], map[], map[];
      fam := Family(map[], map[], map[], 0);
    }

    /** A new container without links. */
    method New(msg: Option<Message>) returns (c: Cell)
      requires Valid()
      modifies this
      ensures Valid() && c == |old(cache)| + 1 && cache == old(cache) + [msg]
      ensures fam == old(fam).Grow(c) && parent == old(parent)[c := NIL]
    {
      c := |cache| + 1;
      fam.GrowOk(c);
      fam.GrowLinks(c, parent, sibling, child);
      fam := fam.Grow(c);
      cache := cache + [msg];
      parent, sibling, child := parent[c := NIL], sibling[c := NIL], child[c := NIL];
    }

    /** The source's guard against cycles: is the mother in the daughter's subtree? */
    method CheckChild(mother: nat, daughter: Cell) returns (circular: bool)
      requires Sound() && daughter in parent && (mother != NIL ==> mother in parent)
      ensures circular <==> mother != NIL && fam.Below(daughter, mother)
      decreases fam.bound - fam.rank[daughter]
    {
      hide Family.Matched, Family.Ranked, Family.Says;
      if mother == NIL {
        return false;
      }
      if mother == daughter {
        return true;
      }
      fam.BelowDown(daughter, mother);
      ghost var done: seq<Cell>, rest := [], fam.kids[daughter];
      fam.KidLinks(parent, sibling, child, daughter, done, rest);
      var d := child[daughter];
      while d != NIL
        invariant done + rest == fam.kids[daughter] && d == First(rest)
        invariant forall k <- done :: k in fam.kids && !fam.Below(k, mother)
        decreases |rest|
      {
        fam.KidLinks(parent, sibling, child, daughter, done, rest);
        var found := CheckChild(mother, d);
        if found {
          assert d in fam.kids[daughter];
          return true;
        }
        done, rest := done + [d], rest[1..];
        d := sibling[d];
      }
      assert done == fam.kids[daughter];
      return false;
    }

    /** Makes the root `nxc` the eldest child of `con`, as the linking of
        consecutive references does. */
    method LinkEldest(con: Cell, nxc: Cell, ghost h: Family)
      requires Mirrors() && con in parent && nxc in parent && parent[nxc] == NIL && fam.EldestIn(h, con, nxc)
      modifies this`parent, this`sibling, this`child, this`fam
      ensures Mirrors() && fam == h
    {
      fam.SaysKeys(parent, sibling, child);
      hide Family.Says, Family.EldestIn;
      fam.LinkFirst(parent, sibling, child, con, nxc, h);
      fam := h;
      parent := parent[nxc := con];
      sibling := sibling[nxc := child[con]];
      child := child[con := nxc];
    }

    /** The last of the children of `con`. */
    method YoungestDaughter(con: Cell) returns (sib: Cell)
      requires Mirrors() && con in parent && child[con] != NIL && fam.Brood(con)
      ensures fam.kids[con] != [] && sib == fam.kids[con][|fam.kids[con]| - 1]
      ensures sib in parent && sib in fam.kids[con]
    {
      fam.SaysKeys(parent, sibling, child);
      fam.BroodEldest(parent, sibling, child, con);
      sib := child[con];
      ghost var n, ks := 0, fam.kids[con];
      fam.BroodSister(parent, sibling, child, con, n);
      hide Family.Says, Family.Brood;
      while sibling[sib] != NIL
        invariant n < |ks| && sib == ks[n] && sib in sibling
        invariant sibling[sib] == if n + 1 < |ks| then ks[n + 1] else NIL
        decreases |ks| - n
      {
        n := n + 1;
        fam.BroodSister(parent, sibling, child, con, n);
        sib := sibling[sib];
      }
    }

    /** Makes the root `nxc` the youngest child of `con`, as the linking of a
        message to its last reference does; `h` is the family to arrive at. */
    method LinkYoungest(con: Cell, nxc: Cell, ghost h: Family)
      requires Mirrors() && con in parent && nxc in parent && parent[nxc] == NIL
      requires fam.Brood(con) && fam.YoungestIn(h, con, nxc)
      modifies this`parent, this`sibling, this`child, this`fam
      ensures Mirrors() && fam == h
    {
      fam.SaysKeys(parent, sibling, child);
      fam.LinkEnds(parent, sibling, child, con, nxc);
      hide Family.Says, Family.YoungestIn, Family.Brood, Family.Eldest;
      if child[con] != NIL {
        var sib := YoungestDaughter(con);
        fam.LinkAfter(parent, sibling, child, con, nxc, sib, h);
        sibling := sibling[sib := nxc];
      } else {
        fam.LinkOnly(parent, sibling, child, con, nxc, h);
        child := child[con := nxc];
      }
      parent := parent[nxc := con];
      fam := h;
    }

    /** The child of `prc` that `nxc` is the younger sister of. */
    method ElderSister(prc: Cell, nxc: Cell) returns (sib: Cell)
      requires Mirrors() && fam.Brood(prc) && nxc in fam.kids[prc] && nxc != child[prc]
      ensures sib in fam.kids[prc] && sib in parent && sibling[sib] == nxc
      ensures forall c <- fam.kids[prc] :: fam.Sister(c) == nxc ==> c == sib
    {
      fam.SaysKeys(parent, sibling, child);
      fam.BroodEldest(parent, sibling, child, prc);
      sib := child[prc];
      ghost var n, ks := 0, fam.kids[prc];
      fam.BroodSister(parent, sibling, child, prc, n);
      fam.SaysSister(parent, sibling, child);
      hide Family.Says, Family.Brood, Family.Sister;
      while sibling[sib] != nxc
        invariant n < |ks| && sib == ks[n] && sib in sibling && forall i | 0 <= i <= n :: ks[i] != nxc
        invariant sibling[sib] == if n + 1 < |ks| then ks[n + 1] else NIL
        decreases |ks| - n
      {
        assert sibling[sib] != NIL;
        n := n + 1;
        fam.BroodSister(parent, sibling, child, prc, n);
        sib := sibling[sib];
      }
      fam.BroodSisters(prc);
      forall c <- fam.kids[prc] | fam.Sister(c) == nxc
        ensures c == sib
      {
        NextInjective(fam.kids[prc], c, sib);
      }
    }

    /** Takes `nxc` away from its parent and makes it a root; `h` is the
        family to arrive at. */
    method Unlink(nxc: Cell, ghost h: Family)
      requires Mirrors() && nxc in parent && parent[nxc] != NIL
      requires fam.Brood(parent[nxc]) && nxc in fam.kids[parent[nxc]] && fam.CutOffIn(h, nxc)
      modifies this`parent, this`sibling, this`child, this`fam
      ensures Mirrors() && fam == h
    {
      fam.SaysKeys(parent, sibling, child);
      assert parent[nxc] in child;
      hide Family.Says, Family.CutOffIn, Family.Brood;
      var prc := parent[nxc];
      if nxc == child[prc] {
        fam.UnlinkEldest(parent, sibling, child, nxc, h);
        child := child[prc := sibling[nxc]];
      } else {
        var sib := ElderSister(prc, nxc);
        fam.UnlinkYounger(parent, sibling, child, nxc, sib, h);
        sibling := sibling[sib := sibling[nxc]];
      }
      parent := parent[nxc := NIL];
      sibling := sibling[nxc := NIL];
      fam := h;
    }

    /** `Unlink` with the family it arrives at. */
    method Detach(nxc: Cell)
      requires Sound() && nxc in parent && parent[nxc] != NIL
      modifies this`parent, this`sibling, this`child, this`fam
      ensures Sound() && fam == old(fam).CutOff(nxc)
    {
      ghost var h := fam.CutOff(nxc);
      fam.CutOffOk(nxc);
      fam.CutOffLinks(nxc);
      assert fam.Brood(parent[nxc]) && nxc in fam.kids[parent[nxc]];
      Unlink(nxc, h);
    }

    /** `LinkYoungest` with the family it arrives at. */
    method AttachYoungest(con: Cell, nxc: Cell)
      requires Sound() && con in parent && nxc in parent && parent[nxc] == NIL && !fam.Below(nxc, con)
      modifies this`parent, this`sibling, this`child, this`fam
      ensures Sound() && fam == old(fam.Hang(con, nxc, fam.kids[con] + [nxc]))
    {
      ghost var h := fam.Hang(con, nxc, fam.kids[con] + [nxc]);
      fam.HangOk(con, nxc, fam.kids[con] + [nxc]);
      fam.HangYoungest(con, nxc);
      LinkYoungest(con, nxc, h);
    }

    /** `LinkEldest` with the family it arrives at. */
    method AttachEldest(con: Cell, nxc: Cell)
      requires Sound() && con in parent && nxc in parent && parent[nxc] == NIL && !fam.Below(nxc, con)
      modifies this`parent, this`sibling, this`child, this`fam
      ensures Sound() && fam == old(fam.Hang(con, nxc, [nxc] + fam.kids[con]))
    {
      ghost var h := fam.Hang(con, nxc, [nxc] + fam.kids[con]);
      fam.HangOk(con, nxc, [nxc] + fam.kids[con]);
      fam.HangEldest(con, nxc);
      LinkEldest(con, nxc, h);
    }

    /** Step 1B: the last reference `con`, or no container, becomes the parent of
        the message's container, unless it lies below that container. */
    method Relink(con: nat, nxc: Cell)
      requires Sound() && nxc in parent && (con != NIL ==> con in parent)
      modifies this`parent, this`sibling, this`child, this`fam
      ensures Sound() && fam == old(fam).Settle(con, nxc)
      ensures parent.Keys == old(parent).Keys
      ensures parent[nxc] == if con == NIL || old(fam.Below(nxc, con)) then NIL else con
      ensures forall c {:trigger parent[c]} | c in parent && c != nxc :: parent[c] == old(parent)[c]
    {
      hide Family.Matched, Family.Ranked, Family.Says;
      var prc := parent[nxc];
      if prc != NIL && prc != con {
        if con != NIL {
          fam.CutOffBelow(nxc, con);
        }
        Detach(nxc);
        prc := NIL;
      }
      if prc == NIL {
        var circular := CheckChild(con, nxc);
        if !circular && con != NIL {
          AttachYoungest(con, nxc);
        }
      } else {
        fam.ParentIsNotBelow(nxc);
      }
    }

    /** Step 1A for two consecutive references: the later one becomes a child of
        the earlier, unless it has a parent or the link would make a cycle. */
    method LinkRef(con: Cell, nxc: Cell)
      requires Sound() && con in parent && nxc in parent
      modifies this`parent, this`sibling, this`child, this`fam
      ensures Sound() && fam == old(fam).Refer(con, nxc)
      ensures parent.Keys == old(parent.Keys)
      ensures parent[nxc] == if old(parent[nxc]) == NIL && !old(fam.Below(nxc, con)) then con else old(parent[nxc])
      ensures forall c {:trigger parent[c]} | c in parent && c != nxc :: parent[c] == old(parent)[c]
    {
      hide Family.Matched, Family.Ranked, Family.Says;
      if parent[nxc] == NIL {
        var circular := CheckChild(con, nxc);
        if !circular {
          AttachEldest(con, nxc);
        }
      }
    }
  }
}
