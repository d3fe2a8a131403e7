/** The forest of a family of containers, once its roots are chained (step 2 of
    the REFERENCES algorithm). */
module Growing {
  import opened Roses
  import opened Containers
  import opened Pruning
  import opened HashTables
  import opened Linking

  /** The trees whose tops are `ks`, none of them ranked below `lo`. */
  ghost function Trees(fam: Family, ks: seq<Cell>, lo: nat): seq<Rose>
    requires fam.Ok() && forall k <- ks :: k in fam.kids && fam.rank[k] >= lo
    decreases fam.bound - lo, |ks|
  {
    if ks == [] then []
    else [Node(ks[0], Trees(fam, fam.kids[ks[0]], fam.rank[ks[0]] + 1))] + Trees(fam, ks[1..], lo)
  }

  /** The first tree and the others. */
  lemma TreesFirst(fam: Family, ks: seq<Cell>, lo: nat)
    requires fam.Ok() && ks != [] && forall k <- ks :: k in fam.kids && fam.rank[k] >= lo
    ensures forall k <- fam.kids[ks[0]] :: k in fam.kids && fam.rank[k] > fam.rank[ks[0]] && fam.parent[k] == ks[0]
    ensures fam.rank[ks[0]] < fam.bound && forall k <- ks[1..] :: k in fam.kids && fam.rank[k] >= lo
    ensures var f := Trees(fam, ks, lo);
      && f != [] && f[0] == Node(ks[0], Trees(fam, fam.kids[ks[0]], fam.rank[ks[0]] + 1))
      && f[1..] == Trees(fam, ks[1..], lo)
  {
    fam.InBound(ks[0]);
    forall k <- fam.kids[ks[0]]
      ensures k in fam.kids && fam.rank[k] > fam.rank[ks[0]] && fam.parent[k] == ks[0]
    {
      fam.ChildFacts(ks[0], k);
    }
  }

  ghost predicate Chain(sibling: map<Cell, nat>, ks: seq<Cell>) {
    ks == [] || (ks[0] in sibling && sibling[ks[0]] == First(ks[1..]) && Chain(sibling, ks[1..]))
  }

  /** Sisters are chained. */
  lemma {:induction false} SistersChain(sibling: map<Cell, nat>, ks: seq<Cell>, n: nat)
    requires n <= |ks| && Distinct(ks)
    requires forall k <- ks :: k in sibling && sibling[k] == Next(ks, k)
    ensures Chain(sibling, ks[n..])
    decreases |ks| - n
  {
    if n < |ks| {
      assert ks[..n] + ks[n..] == ks;
      NextAfter(ks[..n], ks[n..]);
      assert ks[n..][0] == ks[n] && ks[n..][1..] == ks[n + 1..];
      SistersChain(sibling, ks, n + 1);
    }
  }

  /** What the links say once the roots are chained. */
  ghost predicate Chained(l: Links, fam: Family, roots: seq<Cell>)
    requires fam.Ok()
  {
    && l.parent == fam.parent && l.parent.Keys == l.sibling.Keys == l.child.Keys
    && Distinct(roots) && (forall c: Cell :: c in roots <==> c in fam.kids && fam.parent[c] == NIL)
    && (forall c {:trigger l.child[c]} | c in l.child :: l.child[c] == fam.Eldest(c))
    && (forall c {:trigger l.sibling[c]} | c in l.sibling ::
          l.sibling[c] == if fam.parent[c] == NIL then Next(roots, c) else fam.Sister(c))
  }

  lemma KidsChain(l: Links, fam: Family, roots: seq<Cell>, c: Cell)
    requires fam.Ok() && Chained(l, fam, roots) && c in fam.kids
    ensures Chain(l.sibling, fam.kids[c])
    ensures forall k <- fam.kids[c] :: k in fam.kids && fam.rank[k] > fam.rank[c] && fam.parent[k] == c
  {
    hide Family.Matched, Family.Ranked, Chained;
    var ks := fam.kids[c];
    KidsSeparate(fam, c);
    forall k <- ks
      ensures k in l.sibling && l.sibling[k] == Next(ks, k) && k in fam.kids && fam.parent[k] == c
    {
      fam.ChildFacts(c, k);
      SisterLink(l, fam, roots, k);
    }
    SistersChain(l.sibling, ks, 0);
    assert ks[0..] == ks;
  }

  lemma SisterLink(l: Links, fam: Family, roots: seq<Cell>, k: Cell)
    requires fam.Ok() && Chained(l, fam, roots) && k in fam.kids && fam.parent[k] in fam.kids
    ensures k in l.sibling && l.sibling[k] == Next(fam.kids[fam.parent[k]], k)
  {
    hide Family.Matched, Family.Ranked;
  }

  lemma {:induction false} TreesLinked(l: Links, fam: Family, roots: seq<Cell>, ks: seq<Cell>, lo: nat)
    requires fam.Ok() && Chained(l, fam, roots)
    requires forall k <- ks :: k in fam.kids && fam.rank[k] >= lo
    requires Chain(l.sibling, ks)
    ensures Linked(l.child, l.sibling, Trees(fam, ks, lo), NIL)
    ensures Head(Trees(fam, ks, lo)) == First(ks)
    decreases fam.bound - lo, |ks|
  {
    hide Family.Matched, Family.Ranked, Chained;
    if ks != [] {
      fam.InBound(ks[0]);
      KidsChain(l, fam, roots, ks[0]);
      TreesLinked(l, fam, roots, fam.kids[ks[0]], fam.rank[ks[0]] + 1);
      TreesLinked(l, fam, roots, ks[1..], lo);
      ChildIsEldest(l, fam, roots, ks[0]);
      var f := Trees(fam, ks, lo);
      assert f[1..] == Trees(fam, ks[1..], lo);
      assert |f| > 1 ==> f[1].v == f[1..][0].v;
    }
  }

  lemma ChildIsEldest(l: Links, fam: Family, roots: seq<Cell>, c: Cell)
    requires fam.Ok() && Chained(l, fam, roots) && c in fam.kids
    ensures c in l.child && c in l.sibling && c in l.parent
    ensures l.child[c] == First(fam.kids[c]) && l.parent[c] == fam.parent[c]
  {
    hide Family.Matched, Family.Ranked;
  }

  lemma {:induction false} TreesParents(fam: Family, msgs: set<Cell>, ks: seq<Cell>, lo: nat, p: nat)
    requires fam.Ok()
    requires forall k <- ks :: k in fam.kids && fam.rank[k] >= lo && fam.parent[k] == p
    ensures Parents(fam.parent, msgs, Trees(fam, ks, lo), p)
    decreases fam.bound - lo, |ks|
  {
    if ks != [] {
      TreesFirst(fam, ks, lo);
      hide Trees, Family.Matched, Family.Ranked;
      TreesParents(fam, msgs, fam.kids[ks[0]], fam.rank[ks[0]] + 1, ks[0]);
      TreesParents(fam, msgs, ks[1..], lo, p);
    }
  }

  /** The cell is one of those or lies below one. */
  ghost predicate Beneath(fam: Family, ks: seq<Cell>, c: Cell)
    requires fam.Ok() && c in fam.kids
  {
    exists k <- ks :: fam.Below(k, c)
  }

  lemma BeneathFirst(fam: Family, ks: seq<Cell>, c: Cell)
    requires fam.Ok() && c in fam.kids && ks != [] && ks[0] in fam.kids
    ensures Beneath(fam, ks, c) <==> c == ks[0] || Beneath(fam, fam.kids[ks[0]], c) || Beneath(fam, ks[1..], c)
  {
    fam.BelowDown(ks[0], c);
    hide Family.Ok, Family.Below;
    assert forall k :: k in ks <==> k == ks[0] || k in ks[1..];
  }

  /** The cells of the trees are those below their tops. */
  lemma {:induction false} TreesCells(fam: Family, ks: seq<Cell>, lo: nat, c: Cell)
    requires fam.Ok() && c in fam.kids
    requires forall k <- ks :: k in fam.kids && fam.rank[k] >= lo
    ensures c in Pre(Trees(fam, ks, lo)) <==> Beneath(fam, ks, c)
    decreases fam.bound - lo, |ks|
  {
    if ks != [] {
      TreesFirst(fam, ks, lo);
      hide Trees, Pre, Beneath, Family.Matched, Family.Ranked;
      TreesCells(fam, fam.kids[ks[0]], fam.rank[ks[0]] + 1, c);
      TreesCells(fam, ks[1..], lo, c);
      BeneathFirst(fam, ks, c);
      PreMember(Trees(fam, ks, lo), c);
    }
  }

  lemma PreMember(f: seq<Rose>, c: Cell)
    requires f != []
    ensures c in Pre(f) <==> c == f[0].v || c in Pre(f[0].kids) || c in Pre(f[1..])
  {
  }

  lemma {:induction false} TreesInFamily(fam: Family, ks: seq<Cell>, lo: nat)
    requires fam.Ok() && forall k <- ks :: k in fam.kids && fam.rank[k] >= lo
    ensures forall c <- Pre(Trees(fam, ks, lo)) :: c in fam.kids
    decreases fam.bound - lo, |ks|
  {
    if ks != [] {
      TreesFirst(fam, ks, lo);
      hide Trees, Pre, Family.Matched, Family.Ranked;
      TreesInFamily(fam, fam.kids[ks[0]], fam.rank[ks[0]] + 1);
      TreesInFamily(fam, ks[1..], lo);
      var f := Trees(fam, ks, lo);
      forall c <- Pre(f)
        ensures c in fam.kids
      {
        PreMember(f, c);
      }
    }
  }

  /** No top lies in the tree of another. */
  ghost predicate Separate(fam: Family, ks: seq<Cell>)
    requires fam.Ok() && forall k <- ks :: k in fam.kids
  {
    Distinct(ks) && forall a <- ks, b <- ks | a != b :: !fam.Below(a, b)
  }

  lemma KidsSeparate(fam: Family, c: Cell)
    requires fam.Ok() && c in fam.kids
    ensures forall k <- fam.kids[c] :: k in fam.kids && fam.rank[k] > fam.rank[c]
    ensures Separate(fam, fam.kids[c])
  {
    assert Distinct(fam.kids[c]);
    forall k <- fam.kids[c]
      ensures k in fam.kids && fam.rank[k] > fam.rank[c] && fam.parent[k] == c
    {
      fam.ChildFacts(c, k);
    }
    forall a <- fam.kids[c], b <- fam.kids[c] | a != b
      ensures !fam.Below(a, b)
    {
      if fam.Below(a, b) {
        fam.BelowRank(a, c);
      }
    }
  }

  lemma {:induction false} TreesNoDup(fam: Family, ks: seq<Cell>, lo: nat)
    requires fam.Ok() && (forall k <- ks :: k in fam.kids && fam.rank[k] >= lo) && Separate(fam, ks)
    ensures NoDup(Pre(Trees(fam, ks, lo)))
    decreases fam.bound - lo, |ks|
  {
    hide Family.Matched, Family.Ranked;
    if ks != [] {
      var top, ks0 := ks[0], fam.kids[ks[0]];
      KidsSeparate(fam, top);
      TreesFirst(fam, ks, lo);
      RestSeparate(fam, ks);
      TreesNoDup(fam, ks0, fam.rank[top] + 1);
      TreesNoDup(fam, ks[1..], lo);
      TopApart(fam, ks, lo);
      hide Trees, Separate, NoDup;
      var a, b := Pre(Trees(fam, ks0, fam.rank[top] + 1)), Pre(Trees(fam, ks[1..], lo));
      OneCell(top);
      NoDupConcat([top], a);
      NoDupConcat([top] + a, b);
    }
  }

  lemma RestSeparate(fam: Family, ks: seq<Cell>)
    requires fam.Ok() && ks != [] && (forall k <- ks :: k in fam.kids) && Separate(fam, ks)
    ensures (forall k <- ks[1..] :: k in fam.kids) && Separate(fam, ks[1..])
  {
    hide Family.Ok;
  }

  lemma OneCell(c: Cell)
    ensures NoDup([c])
  {
  }

  lemma TopApart(fam: Family, ks: seq<Cell>, lo: nat)
    requires fam.Ok() && (forall k <- ks :: k in fam.kids && fam.rank[k] >= lo) && Separate(fam, ks) && ks != []
    requires forall k <- fam.kids[ks[0]] :: k in fam.kids && fam.rank[k] > fam.rank[ks[0]]
    ensures ks[0] !in Pre(Trees(fam, fam.kids[ks[0]], fam.rank[ks[0]] + 1))
    ensures forall c <- [ks[0]] + Pre(Trees(fam, fam.kids[ks[0]], fam.rank[ks[0]] + 1)) ::
      c !in Pre(Trees(fam, ks[1..], lo))
  {
    hide Family.Matched, Family.Ranked, Trees;
    var top, ks0 := ks[0], fam.kids[ks[0]];
    var a := Pre(Trees(fam, ks0, fam.rank[top] + 1));
    TreesInFamily(fam, ks0, fam.rank[top] + 1);
    TreesCells(fam, ks0, fam.rank[top] + 1, top);
    forall k <- ks0
      ensures !fam.Below(k, top)
    {
      if fam.Below(k, top) {
        fam.BelowRank(k, top);
      }
    }
    forall c <- [top] + a
      ensures c !in Pre(Trees(fam, ks[1..], lo))
    {
      TreesCells(fam, ks0, fam.rank[top] + 1, c);
      fam.BelowDown(top, c);
      TreesCells(fam, ks[1..], lo, c);
      forall k <- ks[1..]
        ensures !fam.Below(k, c)
      {
        if fam.Below(k, c) {
          fam.AboveIsChain(top, k, c);
        }
      }
    }
  }

  lemma {:induction false} RootAbove(fam: Family, c: Cell, roots: seq<Cell>) returns (r: Cell)
    requires fam.Ok() && c in fam.kids && Roots(fam, roots)
    ensures r in roots && fam.Below(r, c)
    decreases fam.rank[c]
  {
    if fam.parent[c] == NIL {
      r := c;
    } else {
      r := RootAbove(fam, fam.parent[c], roots);
    }
  }

  /** The containers without a parent, each once. */
  ghost predicate Roots(fam: Family, roots: seq<Cell>) {
    Distinct(roots) && forall c: Cell :: c in roots <==> c in fam.kids && c in fam.parent && fam.parent[c] == NIL
  }

  lemma RootsApart(fam: Family, roots: seq<Cell>)
    requires fam.Ok() && Roots(fam, roots)
    ensures (forall k <- roots :: k in fam.kids && fam.parent[k] == NIL && fam.rank[k] >= 0) && Separate(fam, roots)
  {
  }

  /** The trees below all roots hold every container exactly once. */
  lemma TreesOfAll(fam: Family, roots: seq<Cell>)
    requires fam.Ok() && Roots(fam, roots)
    ensures forall k <- roots :: k in fam.kids && fam.rank[k] >= 0
    ensures NoDup(Pre(Trees(fam, roots, 0)))
    ensures forall c: Cell :: c in Pre(Trees(fam, roots, 0)) <==> c in fam.kids
  {
    hide Family.Matched, Family.Ranked, Trees, Roots;
    RootsApart(fam, roots);
    TreesNoDup(fam, roots, 0);
    TreesInFamily(fam, roots, 0);
    forall c: Cell | c in fam.kids
      ensures c in Pre(Trees(fam, roots, 0))
    {
      var r := RootAbove(fam, c, roots);
      TreesCells(fam, roots, 0, c);
    }
  }

  /** After step 2 the links hold the whole family as one list of trees, with
      every container exactly once. */
  lemma RootsHeld(l: Links, fam: Family, roots: seq<Cell>, msgs: set<Cell>)
    requires fam.Ok() && Chained(l, fam, roots)
    ensures Roots(fam, roots) && (forall k <- roots :: k in fam.kids && fam.rank[k] >= 0)
    ensures Held(l, msgs, Trees(fam, roots, 0), NIL, NIL) && Head(Trees(fam, roots, 0)) == First(roots)
    ensures forall c: Cell :: c in Pre(Trees(fam, roots, 0)) <==> c in fam.kids
  {
    hide Family.Matched, Family.Ranked, Trees;
    ChainedRoots(l, fam, roots);
    TreesLinked(l, fam, roots, roots, 0);
    TreesParents(fam, msgs, roots, 0, NIL);
    TreesOfAll(fam, roots);
  }

  lemma ChainedRoots(l: Links, fam: Family, roots: seq<Cell>)
    requires fam.Ok() && Chained(l, fam, roots)
    ensures Chain(l.sibling, roots) && Roots(fam, roots)
    ensures forall k <- roots :: k in fam.kids && fam.parent[k] == NIL && fam.rank[k] >= 0
  {
    SistersChain(l.sibling, roots, 0);
    assert roots[0..] == roots;
  }

  lemma {:induction false} KeptMember(msgs: set<Cell>, s: seq<Cell>, c: Cell)
    ensures c in Kept(msgs, s) <==> c in s && c in msgs
  {
    if s != [] {
      KeptMember(msgs, s[1..], c);
    }
  }

  /** In the trees a message stands above another exactly as in the family. */
  lemma {:induction false} TreesOver(fam: Family, msgs: set<Cell>, ks: seq<Cell>, lo: nat, a: Cell, b: Cell)
    requires fam.Ok() && (forall k <- ks :: k in fam.kids && fam.rank[k] >= lo) && a in fam.kids && b in fam.kids
    ensures (a, b) in Over(msgs, Trees(fam, ks, lo)) <==>
      a in msgs && b in msgs && a != b && fam.Below(a, b) && Beneath(fam, ks, a)
    decreases fam.bound - lo, |ks|
  {
    hide Family.Matched, Family.Ranked, Trees, Beneath, Over;
    if ks == [] {
      NoTrees(fam, msgs, lo, a);
    } else {
      var top, ks0 := ks[0], fam.kids[ks[0]];
      TreesFirst(fam, ks, lo);
      TreesOver(fam, msgs, ks0, fam.rank[top] + 1, a, b);
      TreesOver(fam, msgs, ks[1..], lo, a, b);
      TreesCells(fam, ks0, fam.rank[top] + 1, b);
      TopOver(fam, msgs, Trees(fam, ks, lo), ks, a, b);
    }
  }

  lemma NoTrees(fam: Family, msgs: set<Cell>, lo: nat, a: Cell)
    requires fam.Ok() && a in fam.kids
    ensures Over(msgs, Trees(fam, [], lo)) == {} && !Beneath(fam, [], a)
  {
  }

  /** The pairs of all trees, from those inside the first, those of the others and
      what lies in the first. */
  lemma TopOver(fam: Family, msgs: set<Cell>, f: seq<Rose>, ks: seq<Cell>, a: Cell, b: Cell)
    requires fam.Ok() && a in fam.kids && b in fam.kids && f != [] && ks != [] && f[0].v == ks[0] && ks[0] in fam.kids
    requires (a, b) in Over(msgs, f[0].kids) <==>
      a in msgs && b in msgs && a != b && fam.Below(a, b) && Beneath(fam, fam.kids[ks[0]], a)
    requires (a, b) in Over(msgs, f[1..]) <==>
      a in msgs && b in msgs && a != b && fam.Below(a, b) && Beneath(fam, ks[1..], a)
    requires b in Pre(f[0].kids) <==> Beneath(fam, fam.kids[ks[0]], b)
    ensures (a, b) in Over(msgs, f) <==>
      a in msgs && b in msgs && a != b && fam.Below(a, b) && Beneath(fam, ks, a)
  {
    hide Family.Ok, Beneath, Over, Kept, Pre, Family.Below;
    TopNotBelow(fam, ks[0], b);
    BeneathFirst(fam, ks, a);
    KeptMember(msgs, Pre(f[0].kids), b);
    OverFirst(msgs, f, a, b);
  }

  lemma OverFirst(msgs: set<Cell>, f: seq<Rose>, a: Cell, b: Cell)
    requires f != []
    ensures (a, b) in Over(msgs, f) <==>
      || (a == f[0].v && f[0].v in msgs && b in Kept(msgs, Pre(f[0].kids)))
      || (a, b) in Over(msgs, f[0].kids) || (a, b) in Over(msgs, f[1..])
  {
  }

  lemma TopNotBelow(fam: Family, top: Cell, b: Cell)
    requires fam.Ok() && top in fam.kids && b in fam.kids
    ensures Beneath(fam, fam.kids[top], b) <==> b != top && fam.Below(top, b)
  {
    fam.BelowDown(top, b);
    if b == top {
      forall k <- fam.kids[top]
        ensures !fam.Below(k, b)
      {
        fam.ChildFacts(top, k);
        if fam.Below(k, b) {
          fam.BelowRank(k, b);
        }
      }
    }
  }

  // ---- Step 2 ----

  /** The containers without a parent, in the order they are met. */
  ghost function Orphans(parent: map<Cell, nat>, met: seq<int>): seq<Cell> {
    if met == [] then []
    else
      var c := met[|met| - 1];
      Orphans(parent, met[..|met| - 1]) + if c > 0 && c in parent && parent[c] == NIL then [c] else []
  }

  /** The sibling links after `roots` were chained one after the other. */
  ghost function ChainedUp(sibling: map<Cell, nat>, roots: seq<Cell>): map<Cell, nat> {
    if |roots| < 2 then sibling
    else ChainedUp(sibling, roots[..|roots| - 1])[roots[|roots| - 2] := roots[|roots| - 1]]
  }

  /** The roots met so far are chained; `prc` is the first of them, `con` the last. */
  ghost predicate ChainState(parent: map<Cell, nat>, sibling0: map<Cell, nat>, sibling: map<Cell, nat>,
                             met: seq<int>, prc: nat, con: nat) {
    var roots := Orphans(parent, met);
    && sibling == ChainedUp(sibling0, roots)
    && prc == First(roots) && con == if roots == [] then NIL else roots[|roots| - 1]
  }

  method MeetEntry(pool: Pool, nxc: Cell, prc: nat, con: nat, ghost sibling0: map<Cell, nat>, ghost met: seq<int>)
    returns (prc': nat, con': nat)
    requires nxc in pool.parent && ChainState(pool.parent, sibling0, pool.sibling, met, prc, con)
    modifies pool`sibling
    ensures ChainState(pool.parent, sibling0, pool.sibling, met + [nxc], prc', con')
  {
    prc', con' := prc, con;
    ghost var roots := Orphans(pool.parent, met);
    assert (met + [nxc])[..|met|] == met && roots + [] == roots;
    if pool.parent[nxc] == NIL {
      ChainedUpMore(sibling0, roots, nxc);
      if con != NIL {
        pool.sibling := pool.sibling[con := nxc];
        con' := nxc;
      } else {
        prc', con' := nxc, nxc;
      }
    }
  }

  lemma ChainedUpMore(sibling: map<Cell, nat>, roots: seq<Cell>, c: Cell)
    ensures ChainedUp(sibling, roots + [c]) ==
      if roots == [] then sibling else ChainedUp(sibling, roots)[roots[|roots| - 1] := c]
  {
    assert (roots + [c])[..|roots|] == roots;
  }

  method ChainBucket(pool: Pool, chain: seq<Entry>, prc0: nat, con0: nat,
                     ghost sibling0: map<Cell, nat>, ghost met: seq<int>) returns (prc: nat, con: nat)
    requires forall j | 0 <= j < |chain| :: chain[j].data > 0 && chain[j].data in pool.parent
    requires ChainState(pool.parent, sibling0, pool.sibling, met, prc0, con0)
    modifies pool`sibling
    ensures ChainState(pool.parent, sibling0, pool.sibling, met + Datas(chain), prc, con)
  {
    hide ChainState;
    prc, con := prc0, con0;
    assert met + Datas(chain)[..0] == met;
    for j := 0 to |chain|
      invariant ChainState(pool.parent, sibling0, pool.sibling, met + Datas(chain)[..j], prc, con)
    {
      DatasAt(chain, j);
      assert met + Datas(chain)[..j + 1] == met + Datas(chain)[..j] + [chain[j].data];
      prc, con := MeetEntry(pool, chain[j].data, prc, con, sibling0, met + Datas(chain)[..j]);
    }
    assert met + Datas(chain)[..|chain|] == met + Datas(chain);
  }

  lemma EntriesAreContainers(linker: Linker)
    requires linker.Valid()
    ensures var table := linker.ht.table;
      forall i, j {:trigger table[i][j]} | 0 <= i < |table| && 0 <= j < |table[i]| ::
        table[i][j].data > 0 && table[i][j].data in linker.pool.parent
  {
    forall i, j | 0 <= i < |linker.ht.table| && 0 <= j < |linker.ht.table[i]| {
      WalkMember(linker.ht.table, i, j);
    }
  }

  /** Step 2: chains the containers without a parent in the order of a walk over
      the buckets of the id table. */
  method ChainRoots(linker: Linker) returns (prc: nat)
    requires linker.Valid()
    modifies linker.pool`sibling
    ensures var roots := Orphans(linker.pool.parent, Walk(linker.ht.table));
      prc == First(roots) && linker.pool.sibling == ChainedUp(old(linker.pool.sibling), roots)
  {
    hide Linker.Valid, ChainState;
    EntriesAreContainers(linker);
    var pool, table := linker.pool, linker.ht.table;
    ghost var sibling0 := pool.sibling;
    var con := NIL;
    prc := NIL;
    ChainStart(pool.parent, sibling0);
    assert table[..0] == [];
    for i := 0 to |table|
      invariant ChainState(pool.parent, sibling0, pool.sibling, Walk(table[..i]), prc, con)
    {
      WalkMore(table, i);
      prc, con := ChainBucket(pool, table[i], prc, con, sibling0, Walk(table[..i]));
    }
    assert table[..|table|] == table;
    ChainEnd(pool.parent, sibling0, pool.sibling, Walk(table), prc, con);
  }

  lemma ChainStart(parent: map<Cell, nat>, sibling: map<Cell, nat>)
    ensures ChainState(parent, sibling, sibling, [], NIL, NIL)
  {
  }

  lemma ChainEnd(parent: map<Cell, nat>, sibling0: map<Cell, nat>, sibling: map<Cell, nat>,
                 met: seq<int>, prc: nat, con: nat)
    requires ChainState(parent, sibling0, sibling, met, prc, con)
    ensures prc == First(Orphans(parent, met)) && sibling == ChainedUp(sibling0, Orphans(parent, met))
  {
  }

  lemma {:induction false} WalkMore(table: seq<seq<Entry>>, i: nat)
    requires i < |table|
    ensures Walk(table[..i + 1]) == Walk(table[..i]) + Datas(table[i])
  {
    if i == 0 {
      assert table[..1][1..] == [];
    } else {
      WalkMore(table[1..], i - 1);
      assert table[..i + 1][1..] == table[1..][..i];
      assert table[..i][1..] == table[1..][..i - 1];
    }
  }

  lemma {:induction false} DatasAt(chain: seq<Entry>, j: nat)
    requires j < |chain|
    ensures Datas(chain)[j] == chain[j].data
  {
    if j > 0 {
      DatasAt(chain[1..], j - 1);
    }
  }

  lemma {:induction false} WalkMember(table: seq<seq<Entry>>, i: nat, j: nat)
    requires i < |table| && j < |table[i]|
    ensures table[i][j].data in Walk(table) && multiset(Walk(table))[table[i][j].data] > 0
  {
    if i == 0 {
      DatasAt(table[0], j);
    } else {
      WalkMember(table[1..], i - 1, j);
    }
  }

  /** The links after step 2. */
  lemma {:induction false} ChainedUpLinks(sibling: map<Cell, nat>, roots: seq<Cell>, c: Cell)
    requires Distinct(roots) && c in sibling && forall r <- roots :: r in sibling && sibling[r] == NIL
    ensures c in ChainedUp(sibling, roots)
    ensures ChainedUp(sibling, roots)[c] == if c in roots then Next(roots, c) else sibling[c]
    decreases |roots|
  {
    if |roots| < 2 {
    } else {
      var last, rest := roots[|roots| - 1], roots[..|roots| - 1];
      assert rest + [last] == roots;
      DistinctPrefix(rest, last);
      ChainedUpLinks(sibling, rest, c);
      NextAppend(rest, last, c);
      assert rest[|rest| - 1] == roots[|roots| - 2];
    }
  }

  lemma {:induction false} DistinctPrefix(ks: seq<Cell>, x: Cell)
    requires Distinct(ks + [x])
    ensures Distinct(ks) && x !in ks
  {
    if ks != [] {
      assert (ks + [x])[1..] == ks[1..] + [x];
      DistinctPrefix(ks[1..], x);
    }
  }

  /** A walk that meets every container once meets every root once. */
  lemma {:induction false} OrphansMet(parent: map<Cell, nat>, met: seq<int>)
    ensures forall c: Cell :: c in Orphans(parent, met) <==> c in met && c in parent && parent[c] == NIL
    ensures (forall c: int :: multiset(met)[c] <= 1) ==> Distinct(Orphans(parent, met))
  {
    if met != [] {
      var rest, c := met[..|met| - 1], met[|met| - 1];
      assert met == rest + [c];
      assert multiset(met) == multiset(rest) + multiset{c};
      OrphansMet(parent, rest);
      if (forall x: int :: multiset(met)[x] <= 1) {
        forall x: int
          ensures multiset(rest)[x] <= 1
        {
          assert multiset(met)[x] <= 1;
        }
        assert multiset(met)[c] <= 1;
        assert c !in rest;
        if c > 0 && c in parent && parent[c] == NIL {
          DistinctAppend(Orphans(parent, rest), c);
        } else {
          assert Orphans(parent, met) == Orphans(parent, rest) + [] == Orphans(parent, rest);
        }
      }
    }
  }

  /** Steps 1 and 2 end with the links that pruning starts from. */
  lemma ChainedAfterWalk(linker: Linker, l: Links)
    requires linker.Valid() && l.parent == linker.pool.parent && l.child == linker.pool.child
    requires l.sibling == ChainedUp(linker.pool.sibling, Orphans(linker.pool.parent, Walk(linker.ht.table)))
    ensures Chained(l, linker.pool.fam, Orphans(linker.pool.parent, Walk(linker.ht.table)))
  {
    hide Family.Matched, Family.Ranked, HashTab.Valid, Family.Says, Orphans, ChainedUp, Walk, Next, Distinct;
    var pool, met := linker.pool, Walk(linker.ht.table);
    var roots := Orphans(pool.parent, met);
    WalkMeetsAll(linker);
    OrphansMet(pool.parent, met);
    LinksOfAll(pool);
    ChainedUpKeys(pool.sibling, roots);
    forall c | c in pool.sibling
      ensures l.sibling[c] == if pool.parent[c] == NIL then Next(roots, c) else pool.sibling[c]
    {
      ChainedUpLinks(pool.sibling, roots, c);
    }
  }

  lemma WalkMeetsAll(linker: Linker)
    requires linker.Valid()
    ensures forall c: Cell :: c in Walk(linker.ht.table) <==> c in linker.pool.parent
    ensures forall c: int :: multiset(Walk(linker.ht.table))[c] <= 1
  {
    hide Family.Matched, Family.Ranked, HashTab.Valid, Family.Says;
    forall c: Cell
      ensures c in Walk(linker.ht.table) <==> c in linker.pool.parent
    {
      assert c in Walk(linker.ht.table) <==> multiset(Walk(linker.ht.table))[c] > 0;
    }
  }

  /** Before step 2 the roots have no siblings. */
  lemma LinksOfAll(pool: Pool)
    requires pool.Valid()
    ensures pool.parent.Keys == pool.sibling.Keys == pool.child.Keys == pool.fam.kids.Keys
    ensures forall c {:trigger pool.child[c]} | c in pool.child :: pool.child[c] == pool.fam.Eldest(c)
    ensures forall c {:trigger pool.sibling[c]} | c in pool.sibling :: pool.sibling[c] == pool.fam.Sister(c)
    ensures forall c | c in pool.sibling && pool.parent[c] == NIL :: pool.sibling[c] == NIL
  {
    hide Family.Matched, Family.Ranked;
  }

  lemma {:induction false} ChainedUpKeys(sibling: map<Cell, nat>, roots: seq<Cell>)
    requires forall r <- roots :: r in sibling
    ensures ChainedUp(sibling, roots).Keys == sibling.Keys
    decreases |roots|
  {
    if |roots| >= 2 {
      var rest := roots[..|roots| - 1];
      ChainedUpKeys(sibling, rest);
      assert roots[|roots| - 2] in roots;
    }
  }
}