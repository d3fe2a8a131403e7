/** Step 5 of the REFERENCES algorithm on the thread nodes: a table of subjects
    is built, and roots with the same subject are merged by relinking them. */
module SubjectMerge {
  import opened Sequences
  import opened Messages
  import opened Roses
  import opened Threads
  import opened Merging
  import opened Pruning
  import opened ThreadNodes
  import opened ThreadSort

  // ---- Lists by index ----

  ghost function HeadAt(f: seq<Rose>, x: nat): nat {
    if x < |f| then f[x].v else NIL
  }

  ghost predicate ByIndex(next: map<Cell, nat>, branch: map<Cell, nat>, f: seq<Rose>) {
    forall x {:trigger f[x]} | 0 <= x < |f| :: Hung(next, branch, f[x]) && branch[f[x].v] == HeadAt(f, x + 1)
  }

  lemma {:induction false} LinkedByIndex(next: map<Cell, nat>, branch: map<Cell, nat>, f: seq<Rose>)
    ensures Linked(next, branch, f, NIL) <==> ByIndex(next, branch, f)
  {
    if f != [] {
      LinkedByIndex(next, branch, f[1..]);
      var r := f[1..];
      if ByIndex(next, branch, f) {
        assert Hung(next, branch, f[0]) && branch[f[0].v] == HeadAt(f, 1);
        forall x | 0 <= x < |r|
          ensures Hung(next, branch, r[x]) && branch[r[x].v] == HeadAt(r, x + 1)
        {
          assert r[x] == f[x + 1];
        }
      }
      if Linked(next, branch, f, NIL) {
        forall x | 0 <= x < |f|
          ensures Hung(next, branch, f[x]) && branch[f[x].v] == HeadAt(f, x + 1)
        {
          if x > 0 {
            assert r[x - 1] == f[x];
          }
        }
      }
    }
  }

  /** The cells of different trees of a list are different. */
  lemma {:induction false} TreesApart(f: seq<Rose>, x: nat, y: nat)
    requires NoDup(Pre(f)) && x < |f| && y < |f| && x != y
    ensures f[x].v != f[y].v && f[x].v !in Pre(f[y].kids)
    ensures forall c <- Pre(f[x].kids) :: c !in Pre(f[y].kids) && c != f[y].v
    decreases |f|
  {
    NoDupConcat([f[0].v] + Pre(f[0].kids), Pre(f[1..]));
    if x == 0 || y == 0 {
      TreeInPre(f[1..], if x == 0 then y - 1 else x - 1);
    } else {
      TreesApart(f[1..], x - 1, y - 1);
    }
  }

  lemma {:induction false} TreeInPre(f: seq<Rose>, x: nat)
    requires x < |f|
    ensures f[x].v in Pre(f) && forall c <- Pre(f[x].kids) :: c in Pre(f)
    ensures NoDup(Pre(f)) ==> f[x].v !in Pre(f[x].kids) && NoDup(Pre(f[x].kids))
    decreases |f|
  {
    NoDupConcat([f[0].v] + Pre(f[0].kids), Pre(f[1..]));
    NoDupConcat([f[0].v], Pre(f[0].kids));
    if x > 0 {
      TreeInPre(f[1..], x - 1);
    }
  }

  lemma HungFrame(next: map<Cell, nat>, branch: map<Cell, nat>, next': map<Cell, nat>, branch': map<Cell, nat>, t: Rose)
    requires Hung(next, branch, t)
    requires t.v in next' && t.v in branch' && next'[t.v] == next[t.v]
    requires forall c <- Pre(t.kids) :: c in next && c in branch ==>
      c in next' && c in branch' && next'[c] == next[c] && branch'[c] == branch[c]
    ensures Hung(next', branch', t)
  {
    LinkedFrame(next, branch, next', branch', t.kids, NIL);
  }

  /** The roots after `i` was appended to the children of `j`: itself, or its
      children if it is a dummy. */
  ghost function Adopted(f: seq<Rose>, i: nat, j: nat, dummy: bool): seq<Rose>
    requires i < |f| && j < |f| && i != j
  {
    Remove(f[j := Node(f[j].v, f[j].kids + if dummy then f[i].kids else [f[i]])], i)
  }

  ghost function AdoptedNext(next: map<Cell, nat>, f: seq<Rose>, i: nat, j: nat, dummy: bool): map<Cell, nat>
    requires i < |f| && j < |f|
  {
    if dummy then next[f[i].v := NIL]
    else if f[j].kids == [] then next[f[j].v := f[i].v] else next
  }

  ghost function AdoptedBranch(branch: map<Cell, nat>, f: seq<Rose>, i: nat, j: nat, dummy: bool): map<Cell, nat>
    requires i < |f| && j < |f|
  {
    var k := f[j].kids;
    var b1 := if k == [] then branch else branch[k[|k| - 1].v := if dummy then Head(f[i].kids) else f[i].v];
    var b2 := b1[f[i].v := NIL];
    if i == 0 then b2 else b2[f[i - 1].v := HeadAt(f, i + 1)]
  }

  lemma AdoptCells(f: seq<Rose>, i: nat, j: nat)
    requires NoDup(Pre(f)) && i < |f| && j < |f| && i != j
    ensures f[i].v != f[j].v
    ensures f[i].v !in Pre(f[i].kids) && f[i].v !in Pre(f[j].kids)
    ensures f[j].v !in Pre(f[i].kids) && f[j].v !in Pre(f[j].kids)
    ensures forall c <- Pre(f[j].kids) :: c !in Pre(f[i].kids)
    ensures i > 0 ==> f[i - 1].v != f[i].v && f[i - 1].v !in Pre(f[i].kids) && f[i - 1].v !in Pre(f[j].kids)
    ensures f[j].kids != [] ==> f[j].kids[|f[j].kids| - 1].v in Pre(f[j].kids)
    ensures NoDup(Pre(f[j].kids))
  {
    hide Pre, NoDup;
    TreesApart(f, i, j);
    TreesApart(f, j, i);
    TreeInPre(f, i);
    TreeInPre(f, j);
    if i > 0 {
      TreesApart(f, i - 1, i);
      if i - 1 != j {
        TreesApart(f, i - 1, j);
      }
    }
    if f[j].kids != [] {
      LastInPre(f[j].kids);
    }
  }

  /** The children of the adopting root. */
  lemma AdopterKids(next: map<Cell, nat>, branch: map<Cell, nat>, f: seq<Rose>, i: nat, j: nat, dummy: bool)
    requires Listed(next, branch, f) && i < |f| && j < |f| && i != j && (dummy ==> f[j].kids != [])
    requires Hung(next, branch, f[i]) && Hung(next, branch, f[j])
    ensures Linked(AdoptedNext(next, f, i, j, dummy), AdoptedBranch(branch, f, i, j, dummy), f[j].kids,
                   if dummy then Head(f[i].kids) else f[i].v)
    ensures Linked(AdoptedNext(next, f, i, j, dummy), AdoptedBranch(branch, f, i, j, dummy), f[i].kids, NIL)
  {
    hide Pre, NoDup;
    AdoptCells(f, i, j);
    var next', branch' := AdoptedNext(next, f, i, j, dummy), AdoptedBranch(branch, f, i, j, dummy);
    var k := f[j].kids;
    var tail: nat := if dummy then Head(f[i].kids) else f[i].v;
    if k != [] {
      LinkedRetail(next, branch, k, NIL, tail);
      LinkedFrame(next, branch[k[|k| - 1].v := tail], next', branch', k, tail);
    }
    LinkedFrame(next, branch, next', branch', f[i].kids, NIL);
  }

  /** The tree of the adopting root. */
  lemma AdopterHung(next: map<Cell, nat>, branch: map<Cell, nat>, f: seq<Rose>, i: nat, j: nat, dummy: bool)
    requires Listed(next, branch, f) && i < |f| && j < |f| && i != j && (dummy ==> f[j].kids != [])
    requires Hung(next, branch, f[i]) && Hung(next, branch, f[j])
    ensures Hung(AdoptedNext(next, f, i, j, dummy), AdoptedBranch(branch, f, i, j, dummy),
                 Node(f[j].v, f[j].kids + if dummy then f[i].kids else [f[i]]))
  {
    hide Pre, NoDup, Listed;
    var next', branch' := AdoptedNext(next, f, i, j, dummy), AdoptedBranch(branch, f, i, j, dummy);
    var k, more := f[j].kids, if dummy then f[i].kids else [f[i]];
    AdoptCells2(next, branch, f, i, j);
    AdopterKids(next, branch, f, i, j, dummy);
    LinkedAppend(next', branch', k, more, NIL);
    if !dummy {
      assert [f[i]][1..] == [];
      assert branch'[f[i].v] == NIL && next'[f[i].v] == Head(f[i].kids);
    }
  }

  lemma AdoptCells2(next: map<Cell, nat>, branch: map<Cell, nat>, f: seq<Rose>, i: nat, j: nat)
    requires Listed(next, branch, f) && i < |f| && j < |f| && i != j
    ensures f[i].v != f[j].v && (i > 0 ==> f[i - 1].v != f[i].v)
    ensures f[j].kids != [] ==> f[j].kids[|f[j].kids| - 1].v != f[i].v
  {
    AdoptCells(f, i, j);
  }

  lemma BystanderHung(next: map<Cell, nat>, branch: map<Cell, nat>, f: seq<Rose>, i: nat, j: nat, x: nat, dummy: bool)
    requires Listed(next, branch, f) && i < |f| && j < |f| && i != j && (dummy ==> f[j].kids != [])
    requires x < |f| && x != i && x != j
    ensures Hung(AdoptedNext(next, f, i, j, dummy), AdoptedBranch(branch, f, i, j, dummy), f[x])
  {
    hide Pre, NoDup, AdoptedNext, AdoptedBranch;
    LinkedByIndex(next, branch, f);
    assert Hung(next, branch, f[x]) && Hung(next, branch, f[j]);
    BystanderCells(f, i, j, x, f[x].v);
    AdoptedElse(next, branch, f, i, j, dummy, f[x].v);
    forall c <- Pre(f[x].kids)
      ensures c in next && c in branch ==>
        && c in AdoptedNext(next, f, i, j, dummy) && AdoptedNext(next, f, i, j, dummy)[c] == next[c]
        && c in AdoptedBranch(branch, f, i, j, dummy) && AdoptedBranch(branch, f, i, j, dummy)[c] == branch[c]
    {
      BystanderCells(f, i, j, x, c);
      AdoptedElse(next, branch, f, i, j, dummy, c);
    }
    HungFrame(next, branch, AdoptedNext(next, f, i, j, dummy), AdoptedBranch(branch, f, i, j, dummy), f[x]);
  }

  /** No cell of another tree is one whose links change, but for the elder sister. */
  lemma BystanderCells(f: seq<Rose>, i: nat, j: nat, x: nat, c: Cell)
    requires NoDup(Pre(f)) && i < |f| && j < |f| && i != j && x < |f| && x != i && x != j
    requires c == f[x].v || c in Pre(f[x].kids)
    ensures c != f[i].v && c != f[j].v && (i > 0 && i - 1 != x ==> c != f[i - 1].v)
    ensures c in Pre(f[x].kids) && i > 0 ==> c != f[i - 1].v
    ensures f[j].kids != [] ==> c != f[j].kids[|f[j].kids| - 1].v
  {
    hide Pre, NoDup;
    TreesApart(f, x, i);
    TreesApart(f, x, j);
    TreeInPre(f, x);
    if i > 0 && i - 1 != x {
      TreesApart(f, x, i - 1);
    }
    if f[j].kids != [] {
      LastInPre(f[j].kids);
    }
  }

  lemma AdoptedElse(next: map<Cell, nat>, branch: map<Cell, nat>, f: seq<Rose>, i: nat, j: nat, dummy: bool, c: Cell)
    requires i < |f| && j < |f| && c != f[i].v && c != f[j].v
    requires f[j].kids != [] ==> c != f[j].kids[|f[j].kids| - 1].v
    ensures c in next ==> c in AdoptedNext(next, f, i, j, dummy) && AdoptedNext(next, f, i, j, dummy)[c] == next[c]
    ensures c in branch ==> c in AdoptedBranch(branch, f, i, j, dummy)
    ensures c in branch && (i > 0 ==> c != f[i - 1].v) ==> AdoptedBranch(branch, f, i, j, dummy)[c] == branch[c]
  {
  }

  lemma {:induction false} BystanderNext(branch: map<Cell, nat>, f: seq<Rose>, i: nat, j: nat, x: nat, dummy: bool)
    requires NoDup(Pre(f)) && i < |f| && j < |f| && i != j && (dummy ==> f[j].kids != [])
    requires x < |f| && x != i && f[x].v in branch && branch[f[x].v] == HeadAt(f, x + 1)
    ensures f[x].v in AdoptedBranch(branch, f, i, j, dummy)
    ensures AdoptedBranch(branch, f, i, j, dummy)[f[x].v] == HeadAt(Remove(f, i), if x < i then x + 1 else x)
  {
    hide Pre, NoDup;
    AdoptCells(f, x, i);
    if x != j {
      AdoptCells(f, x, j);
    }
    AdoptCells(f, i, j);
    if i > 0 && x != i - 1 {
      AdoptCells(f, x, i - 1);
    }
  }

  lemma AdoptedByIndex(next: map<Cell, nat>, branch: map<Cell, nat>, f: seq<Rose>, i: nat, j: nat, dummy: bool)
    requires Listed(next, branch, f) && i < |f| && j < |f| && i != j && (dummy ==> f[j].kids != [])
    ensures ByIndex(AdoptedNext(next, f, i, j, dummy), AdoptedBranch(branch, f, i, j, dummy), Adopted(f, i, j, dummy))
  {
    hide AdoptedNext, AdoptedBranch, Hung, HeadAt, Pre, NoDup;
    LinkedByIndex(next, branch, f);
    hide Linked;
    var g := Adopted(f, i, j, dummy);
    var next', branch' := AdoptedNext(next, f, i, j, dummy), AdoptedBranch(branch, f, i, j, dummy);
    forall y | 0 <= y < |g|
      ensures Hung(next', branch', g[y]) && g[y].v in branch' && branch'[g[y].v] == HeadAt(g, y + 1)
    {
      var x := if y < i then y else y + 1;
      assert Hung(next, branch, f[x]) && Hung(next, branch, f[i]) && Hung(next, branch, f[j]);
      HungBranch(next, branch, f[x]);
      BystanderNext(branch, f, i, j, x, dummy);
      if x == j {
        AdopterHung(next, branch, f, i, j, dummy);
      } else {
        BystanderHung(next, branch, f, i, j, x, dummy);
      }
      HeadAtAdopted(f, i, j, dummy, y + 1);
    }
  }

  lemma HungBranch(next: map<Cell, nat>, branch: map<Cell, nat>, t: Rose)
    requires Hung(next, branch, t)
    ensures t.v in branch && t.v in next
  {
  }

  lemma HeadAtAdopted(f: seq<Rose>, i: nat, j: nat, dummy: bool, y: nat)
    requires i < |f| && j < |f| && i != j
    ensures HeadAt(Adopted(f, i, j, dummy), y) == HeadAt(Remove(f, i), y)
  {
  }

  lemma {:induction false} PreCut(f: seq<Rose>, i: nat)
    requires i < |f|
    ensures multiset(Pre(f)) == multiset(Pre(Remove(f, i))) + multiset(Pre([f[i]]))
  {
    hide Pre;
    assert f == f[..i] + ([f[i]] + f[i + 1..]);
    PreAppend(f[..i], [f[i]] + f[i + 1..]);
    PreAppend([f[i]], f[i + 1..]);
    PreAppend(f[..i], f[i + 1..]);
  }

  lemma PreOne(t: Rose)
    ensures Pre([t]) == [t.v] + Pre(t.kids)
  {
    assert [t][1..] == [];
  }

  lemma NoDupSub(s: seq<Cell>, t: seq<Cell>)
    requires NoDup(s) && multiset(t) <= multiset(s)
    ensures NoDup(t) && forall c <- t :: c in s
  {
    forall i, j | 0 <= i < j < |t|
      ensures t[i] != t[j]
    {
      if t[i] == t[j] {
        assert t == t[..i] + [t[i]] + t[i + 1..j] + [t[j]] + t[j + 1..];
        assert multiset(t)[t[i]] >= 2;
        OneOnly(s, t[i]);
      }
    }
    forall c <- t
      ensures c in s
    {
      assert c in multiset(t);
      assert c in multiset(s);
    }
  }

  lemma AdoptedPre(f: seq<Rose>, i: nat, j: nat, dummy: bool)
    requires i < |f| && j < |f| && i != j
    ensures multiset(Pre(Adopted(f, i, j, dummy))) <= multiset(Pre(f))
  {
    hide Pre;
    var more := if dummy then f[i].kids else [f[i]];
    var t := Node(f[j].v, f[j].kids + more);
    var g := f[j := t];
    PreCut(f, j);
    PreCut(g, j);
    assert Remove(g, j) == Remove(f, j);
    PreCut(g, i);
    PreOne(t);
    PreOne(f[j]);
    PreOne(f[i]);
    PreAppend(f[j].kids, more);
    var r := multiset(Pre(Remove(f, j)));
    var own := multiset([f[j].v]) + multiset(Pre(f[j].kids));
    assert multiset(Pre(g)) == r + own + multiset(Pre(more));
    assert multiset(Pre(f)) == r + own;
    assert multiset(Pre(g)) == multiset(Pre(Adopted(f, i, j, dummy))) + multiset(Pre([f[i]]));
    LessMore(multiset(Pre(f)), multiset(Pre(more)), multiset(Pre(Adopted(f, i, j, dummy))), multiset(Pre([f[i]])));
  }

  lemma LessMore(a: multiset<Cell>, m: multiset<Cell>, b: multiset<Cell>, p: multiset<Cell>)
    requires a + m == b + p && m <= p
    ensures b <= a
  {
    forall c: Cell
      ensures b[c] <= a[c]
    {
      assert (a + m)[c] == (b + p)[c];
    }
  }

  /** Relinking the current root below the root that stands for its subject. */
  lemma AdoptedListed(next: map<Cell, nat>, branch: map<Cell, nat>, f: seq<Rose>, i: nat, j: nat, dummy: bool)
    requires Listed(next, branch, f) && i < |f| && j < |f| && i != j && (dummy ==> f[j].kids != [])
    ensures Listed(AdoptedNext(next, f, i, j, dummy), AdoptedBranch(branch, f, i, j, dummy), Adopted(f, i, j, dummy))
    ensures forall c <- Pre(Adopted(f, i, j, dummy)) :: c in Pre(f)
  {
    hide Pre, AdoptedNext, AdoptedBranch, NoDup;
    AdoptedByIndex(next, branch, f, i, j, dummy);
    LinkedByIndex(AdoptedNext(next, f, i, j, dummy), AdoptedBranch(branch, f, i, j, dummy), Adopted(f, i, j, dummy));
    AdoptedPre(f, i, j, dummy);
    NoDupSub(Pre(f), Pre(Adopted(f, i, j, dummy)));
  }

  // ---- A new dummy over two roots ----

  /** The roots after the new dummy `m` took the place of `i`, above `j` and `i`. */
  ghost function Paired(f: seq<Rose>, i: nat, j: nat, m: Cell): seq<Rose>
    requires j < i < |f|
  {
    Remove(f[i := Node(m, [f[j], f[i]])], j)
  }

  /** The root before `i` once `j` is gone, or NIL. */
  ghost function ElderWithout(f: seq<Rose>, i: nat, j: nat): nat
    requires j < i < |f|
  {
    if i - 1 != j then f[i - 1].v else if j > 0 then f[j - 1].v else NIL
  }

  /** Takes `j` out of the list. */
  ghost function WithoutBranch(branch: map<Cell, nat>, f: seq<Rose>, j: nat): map<Cell, nat>
    requires j < |f|
  {
    if j == 0 then branch else branch[f[j - 1].v := HeadAt(f, j + 1)]
  }

  ghost function PairedBranch(branch: map<Cell, nat>, f: seq<Rose>, i: nat, j: nat, m: Cell): map<Cell, nat>
    requires j < i < |f|
  {
    var b1 := WithoutBranch(branch, f, j)[f[j].v := f[i].v];
    var p := ElderWithout(f, i, j);
    var b2 := if p > 0 then b1[p := m] else b1;
    b2[f[i].v := NIL][m := HeadAt(f, i + 1)]
  }

  /** Only tops get other sibling links. */
  lemma PairedTops(branch: map<Cell, nat>, f: seq<Rose>, i: nat, j: nat, m: Cell, c: Cell)
    requires j < i < |f| && c in branch && c != m && forall x | 0 <= x < |f| :: c != f[x].v
    ensures c in PairedBranch(branch, f, i, j, m) && PairedBranch(branch, f, i, j, m)[c] == branch[c]
  {
  }

  lemma PairedHung(next: map<Cell, nat>, branch: map<Cell, nat>, f: seq<Rose>, i: nat, j: nat, m: Cell, x: nat)
    requires Listed(next, branch, f) && j < i < |f| && m !in Pre(f) && x < |f|
    ensures Hung(next[m := f[j].v], PairedBranch(branch, f, i, j, m), f[x])
  {
    LinkedByIndex(next, branch, f);
    assert Hung(next, branch, f[x]);
    TreeInPre(f, x);
    forall c <- Pre(f[x].kids) | c in branch
      ensures c in PairedBranch(branch, f, i, j, m) && PairedBranch(branch, f, i, j, m)[c] == branch[c]
    {
      forall y | 0 <= y < |f|
        ensures c != f[y].v
      {
        if y != x {
          TreesApart(f, x, y);
        }
      }
      PairedTops(branch, f, i, j, m, c);
    }
    HungFrame(next, branch, next[m := f[j].v], PairedBranch(branch, f, i, j, m), f[x]);
  }

  lemma PairedNext(branch: map<Cell, nat>, f: seq<Rose>, i: nat, j: nat, m: Cell, x: nat)
    requires NoDup(Pre(f)) && j < i < |f| && m !in Pre(f) && x < |f|
    requires f[x].v in branch && branch[f[x].v] == HeadAt(f, x + 1)
    ensures var b := PairedBranch(branch, f, i, j, m);
      && f[x].v in b
      && b[f[x].v] ==
         if x == j then f[i].v
         else if x == i then NIL
         else HeadAt(Paired(f, i, j, m), if x < j then x + 1 else x)
  {
    hide Pre, NoDup;
    forall y | 0 <= y < |f|
      ensures f[y].v != m && (f[y].v == f[x].v ==> y == x)
      ensures f[y].v == f[i].v ==> y == i
      ensures f[y].v == f[j].v ==> y == j
    {
      TreeInPre(f, y);
      TopsApart(f, y, x);
      TopsApart(f, y, i);
      TopsApart(f, y, j);
    }
    PairedAt(branch, f, i, j, m, x);
  }

  lemma PairedAt(branch: map<Cell, nat>, f: seq<Rose>, i: nat, j: nat, m: Cell, x: nat)
    requires j < i < |f| && x < |f|
    requires forall y | 0 <= y < |f| :: f[y].v != m && (f[y].v == f[x].v ==> y == x)
    requires forall y | 0 <= y < |f| :: (f[y].v == f[i].v ==> y == i) && (f[y].v == f[j].v ==> y == j)
    requires f[x].v in branch && branch[f[x].v] == HeadAt(f, x + 1)
    ensures var b := PairedBranch(branch, f, i, j, m);
      && f[x].v in b
      && b[f[x].v] ==
         if x == j then f[i].v
         else if x == i then NIL
         else HeadAt(Paired(f, i, j, m), if x < j then x + 1 else x)
  {
    var p := if i - 1 != j then i - 1 else j - 1;
    var g := Paired(f, i, j, m);
    assert g[i - 1].v == m;
    if x < j {
      assert x + 1 == j ==> HeadAt(f, j + 1) == f[j + 1].v;
    }
  }

  lemma TopsApart(f: seq<Rose>, x: nat, y: nat)
    requires NoDup(Pre(f)) && x < |f| && y < |f|
    ensures f[x].v == f[y].v ==> x == y
  {
    if x != y {
      TreesApart(f, x, y);
    }
  }

  lemma PairHung(next: map<Cell, nat>, branch: map<Cell, nat>, a: Rose, b: Rose, m: Cell)
    requires Hung(next, branch, a) && Hung(next, branch, b) && branch[a.v] == b.v && branch[b.v] == NIL
    requires m in next && m in branch && next[m] == a.v
    ensures Hung(next, branch, Node(m, [a, b]))
  {
    assert [a, b][1..] == [b] && [b][1..] == [];
    assert Linked(next, branch, [b], NIL);
  }

  lemma PairedByIndex(next: map<Cell, nat>, branch: map<Cell, nat>, f: seq<Rose>, i: nat, j: nat, m: Cell)
    requires Listed(next, branch, f) && j < i < |f| && m !in Pre(f)
    ensures ByIndex(next[m := f[j].v], PairedBranch(branch, f, i, j, m), Paired(f, i, j, m))
  {
    hide Hung, PairedBranch, Pre, NoDup, Linked, Paired, HeadAt;
    var g, next', branch' := Paired(f, i, j, m), next[m := f[j].v], PairedBranch(branch, f, i, j, m);
    forall y | 0 <= y < |g|
      ensures Hung(next', branch', g[y]) && g[y].v in branch' && branch'[g[y].v] == HeadAt(g, y + 1)
    {
      PairedRow(next, branch, f, i, j, m, y);
    }
  }

  lemma PairedRow(next: map<Cell, nat>, branch: map<Cell, nat>, f: seq<Rose>, i: nat, j: nat, m: Cell, y: nat)
    requires Listed(next, branch, f) && j < i < |f| && m !in Pre(f) && y < |Paired(f, i, j, m)|
    ensures var g, branch' := Paired(f, i, j, m), PairedBranch(branch, f, i, j, m);
      Hung(next[m := f[j].v], branch', g[y]) && g[y].v in branch' && branch'[g[y].v] == HeadAt(g, y + 1)
  {
    hide Hung, PairedBranch, Pre, NoDup, Linked, HeadAt;
    if y == i - 1 {
      PairedRoot(next, branch, f, i, j, m, i);
      PairedRoot(next, branch, f, i, j, m, j);
      PairedDummy(branch, f, i, j, m);
      PairHung(next[m := f[j].v], PairedBranch(branch, f, i, j, m), f[j], f[i], m);
    } else {
      PairedRoot(next, branch, f, i, j, m, if y < j then y else y + 1);
    }
  }

  lemma PairedRoot(next: map<Cell, nat>, branch: map<Cell, nat>, f: seq<Rose>, i: nat, j: nat, m: Cell, x: nat)
    requires Listed(next, branch, f) && j < i < |f| && m !in Pre(f) && x < |f|
    ensures var branch' := PairedBranch(branch, f, i, j, m);
      && Hung(next[m := f[j].v], branch', f[x]) && f[x].v in branch'
      && branch'[f[x].v] ==
         if x == j then f[i].v
         else if x == i then NIL
         else HeadAt(Paired(f, i, j, m), if x < j then x + 1 else x)
  {
    hide Hung, PairedBranch, Pre, NoDup, Linked, Paired, HeadAt;
    LinkedByIndex(next, branch, f);
    assert Hung(next, branch, f[x]);
    HungBranch(next, branch, f[x]);
    PairedHung(next, branch, f, i, j, m, x);
    PairedNext(branch, f, i, j, m, x);
  }

  lemma PairedDummy(branch: map<Cell, nat>, f: seq<Rose>, i: nat, j: nat, m: Cell)
    requires j < i < |f|
    ensures m in PairedBranch(branch, f, i, j, m)
    ensures PairedBranch(branch, f, i, j, m)[m] == HeadAt(Paired(f, i, j, m), i)
  {
  }

  lemma {:induction false} PairedPre(f: seq<Rose>, i: nat, j: nat, m: Cell)
    requires j < i < |f|
    ensures multiset(Pre(Paired(f, i, j, m))) == multiset(Pre(f)) + multiset{m}
  {
    hide Pre;
    var t := Node(m, [f[j], f[i]]);
    var g := f[i := t];
    PreCut(f, i);
    PreCut(g, i);
    assert Remove(g, i) == Remove(f, i);
    PreCut(g, j);
    PreOne(t);
    PreAppend([f[j]], [f[i]]);
    assert [f[j]] + [f[i]] == [f[j], f[i]];
    var r, a, b := multiset(Pre(Remove(f, i))), multiset(Pre([f[j]])), multiset(Pre([f[i]]));
    assert multiset(Pre(g)) == r + (multiset{m} + (a + b));
    assert multiset(Pre(g)) == multiset(Pre(Paired(f, i, j, m))) + a;
    CancelCells(multiset(Pre(Paired(f, i, j, m))), (r + b) + multiset{m}, a);
  }

  lemma CancelCells(a: multiset<Cell>, b: multiset<Cell>, c: multiset<Cell>)
    requires a + c == b + c
    ensures a == b
  {
    assert a == (a + c) - c;
  }

  /** Relinking two roots below a new dummy. */
  lemma PairedListed(next: map<Cell, nat>, branch: map<Cell, nat>, f: seq<Rose>, i: nat, j: nat, m: Cell)
    requires Listed(next, branch, f) && j < i < |f| && m !in Pre(f)
    ensures Listed(next[m := f[j].v], PairedBranch(branch, f, i, j, m), Paired(f, i, j, m))
    ensures forall c <- Pre(Paired(f, i, j, m)) :: c == m || c in Pre(f)
  {
    hide Pre, PairedBranch, NoDup;
    PairedByIndex(next, branch, f, i, j, m);
    LinkedByIndex(next[m := f[j].v], PairedBranch(branch, f, i, j, m), Paired(f, i, j, m));
    PairedPre(f, i, j, m);
    NoDupConcat(Pre(f), [m]);
    NoDupOne(m);
    assert multiset(Pre(f) + [m]) == multiset(Pre(Paired(f, i, j, m)));
    NoDupSub(Pre(f) + [m], Pre(Paired(f, i, j, m)));
  }

  lemma NoDupOne(m: Cell)
    ensures NoDup([m])
  {
  }

  // ---- What the relinked lists show ----

  lemma ShowRemove(sc: map<Cell, Option<Message>>, f: seq<Rose>, i: nat)
    requires i < |f|
    ensures Show(sc, Remove(f, i)) == Remove(Show(sc, f), i)
  {
    forall x | 0 <= x < |f| - 1
      ensures Show(sc, Remove(f, i))[x] == Remove(Show(sc, f), i)[x]
    {
      ShowAt(sc, Remove(f, i), x);
      ShowAt(sc, f, if x < i then x else x + 1);
    }
  }

  lemma ShowReplace(sc: map<Cell, Option<Message>>, f: seq<Rose>, j: nat, t: Rose)
    requires j < |f|
    ensures Show(sc, f[j := t]) == Show(sc, f)[j := Thread(Label(sc, t.v), Show(sc, t.kids))]
  {
    var g, us := f[j := t], Show(sc, f)[j := Thread(Label(sc, t.v), Show(sc, t.kids))];
    forall x | 0 <= x < |g|
      ensures Show(sc, g)[x] == us[x]
    {
      ShowAt(sc, g, x);
      ShowAt(sc, f, x);
    }
  }

  lemma ShowAdopted(sc: map<Cell, Option<Message>>, f: seq<Rose>, i: nat, j: nat)
    requires i < |f| && j < |f| && i != j
    ensures var ts := Show(sc, f);
      var dummy := ts[i].msg == None;
      Show(sc, Adopted(f, i, j, dummy)) ==
      Remove(ts[j := Adopt(ts[j], if dummy then ts[i].kids else [ts[i]])], i)
  {
    hide Show;
    ShowAt(sc, f, i);
    ShowAt(sc, f, j);
    var dummy := Show(sc, f)[i].msg == None;
    var more := if dummy then f[i].kids else [f[i]];
    var t := Node(f[j].v, f[j].kids + more);
    ShowReplace(sc, f, j, t);
    ShowRemove(sc, f[j := t], i);
    ShowAppend(sc, f[j].kids, more);
    ShowOne(sc, f[i]);
  }

  lemma ShowPaired(sc: map<Cell, Option<Message>>, f: seq<Rose>, i: nat, j: nat, m: Cell)
    requires j < i < |f| && m !in Pre(f)
    ensures var ts := Show(sc, f);
      Show(sc[m := None], Paired(f, i, j, m)) == Remove(ts[i := Thread(None, [ts[j], ts[i]])], j)
  {
    hide Show, Pre;
    var sc' := sc[m := None];
    ShowFrame(sc, sc', f);
    ShowAt(sc', f, i);
    ShowAt(sc', f, j);
    var t := Node(m, [f[j], f[i]]);
    ShowReplace(sc', f, i, t);
    ShowRemove(sc', f[i := t], j);
    ShowAppend(sc', [f[j]], [f[i]]);
    assert [f[j]] + [f[i]] == [f[j], f[i]];
    ShowOne(sc', f[i]);
    ShowOne(sc', f[j]);
    var ts := Show(sc, f);
    assert Show(sc', [f[j], f[i]]) == [ts[j], ts[i]];
    assert Label(sc', m) == None;
    assert Show(sc', f[i := t]) == ts[i := Thread(None, [ts[j], ts[i]])];
  }

  // ---- The subject table ----

  /** The table leads from the subject of every root to the root standing for it. */
  ghost predicate TableOf(m: map<string, int>, ts: seq<Thread>, vs: seq<Cell>)
    requires Shaped(ts)
  {
    && |vs| == |ts|
    && forall k {:trigger ts[k]} | 0 <= k < |ts| && Subject(ts[k]) != "" ::
         Subject(ts[k]) in m && m[Subject(ts[k])] == vs[StandingFor(ts, k)]
  }

  /** The table still serves once the current root is gone and the one standing
      for its subject has more below it. */
  lemma TableAdopted(m: map<string, int>, ts: seq<Thread>, vs: seq<Cell>, i: nat, j: nat, t: Thread)
    requires Shaped(ts) && TableOf(m, ts, vs) && i < |ts| && j < |ts| && i != j
    requires Stands(ts, Subject(ts[i]), j) && Rooted(t) && Lead(t) == Lead(ts[j]) && Class(t) == Class(ts[j])
    ensures Shaped(Remove(ts[j := t], i)) && TableOf(m, Remove(ts[j := t], i), Remove(vs, i))
  {
    hide Stands, Rooted, Class, Lead, StandingFor, Subject;
    AdoptedShaped(ts, i, j, t);
    var r := Remove(ts[j := t], i);
    forall k | 0 <= k < |r| && Subject(r[k]) != ""
      ensures Subject(r[k]) in m && m[Subject(r[k])] == Remove(vs, i)[StandingFor(r, k)]
    {
      AdoptedStanding(ts, i, j, t, k);
    }
  }

  lemma AdoptedShaped(ts: seq<Thread>, i: nat, j: nat, t: Thread)
    requires Shaped(ts) && i < |ts| && j < |ts| && Rooted(t)
    ensures Shaped(Remove(ts[j := t], i))
  {
  }

  lemma AdoptedStanding(ts: seq<Thread>, i: nat, j: nat, t: Thread, k: nat)
    requires Shaped(ts) && i < |ts| && j < |ts| && i != j && k < |ts| - 1 && Shaped(Remove(ts[j := t], i))
    requires Stands(ts, Subject(ts[i]), j) && Rooted(t) && Lead(t) == Lead(ts[j]) && Class(t) == Class(ts[j])
    ensures var r, x := Remove(ts[j := t], i), if k < i then k else k + 1;
      var e := StandingFor(ts, x);
      Subject(r[k]) == Subject(ts[x]) && e != i && StandingFor(r, k) == if i < e then e - 1 else e
  {
    hide Stands, Rooted, Class;
    var us := ts[j := t];
    var r := Remove(us, i);
    var x := if k < i then k else k + 1;
    var s, e := Subject(ts[x]), StandingFor(ts, x);
    assert r[k] == us[x];
    NotAlsoStanding(ts, i, j, e, s);
    StandsReplace(ts, s, e, j, t);
    StandsRemove(us, s, e, i);
    StandsUnique(r, s, StandingFor(r, k), if i < e then e - 1 else e);
  }

  lemma NotAlsoStanding(ts: seq<Thread>, i: nat, j: nat, e: nat, s: string)
    requires Shaped(ts) && i < |ts| && j < |ts| && i != j && Stands(ts, Subject(ts[i]), j) && Stands(ts, s, e)
    ensures e != i
  {
  }

  /** The table after it was told of the new dummy. */
  lemma TablePaired(m: map<string, int>, ts: seq<Thread>, vs: seq<Cell>, i: nat, j: nat, d: Thread, c: Cell)
    requires Shaped(ts) && TableOf(m, ts, vs) && j < i < |ts| && Stands(ts, Subject(ts[i]), j)
    requires Class(ts[j]) > 0 && Rooted(d) && d.msg == None && Subject(d) == Subject(ts[i])
    ensures Shaped(Remove(ts[i := d], j))
    ensures TableOf(m[Subject(d) := c], Remove(ts[i := d], j), Remove(vs[i := c], j))
  {
    hide Stands, Rooted, Class, Lead, StandingFor, Subject;
    AdoptedShaped(ts, j, i, d);
    var m', vs', r := m[Subject(d) := c], Remove(vs[i := c], j), Remove(ts[i := d], j);
    forall k | 0 <= k < |r| && Subject(r[k]) != ""
      ensures Subject(r[k]) in m' && m'[Subject(r[k])] == vs'[StandingFor(r, k)]
    {
      PairedStanding(ts, i, j, d, k);
    }
  }

  lemma PairedStanding(ts: seq<Thread>, i: nat, j: nat, d: Thread, k: nat)
    requires Shaped(ts) && j < i < |ts| && Stands(ts, Subject(ts[i]), j) && Shaped(Remove(ts[i := d], j))
    requires k < |ts| - 1
    requires Class(ts[j]) > 0 && Rooted(d) && d.msg == None && Subject(d) == Subject(ts[i])
    ensures var r, x := Remove(ts[i := d], j), if k < j then k else k + 1;
      var e := StandingFor(ts, x);
      && Subject(r[k]) == Subject(ts[x])
      && if Subject(r[k]) == Subject(d) then StandingFor(r, k) == i - 1
         else e != i && e != j && StandingFor(r, k) == if j < e then e - 1 else e
  {
    var us := ts[i := d];
    var r := Remove(us, j);
    var x := if k < j then k else k + 1;
    var s, e := Subject(ts[x]), StandingFor(ts, x);
    DummyStands(ts, i, j, d);
    hide Stands, Rooted, Class;
    assert r[k] == us[x] && Subject(us[x]) == s;
    if s == Subject(d) {
      StandsRemove(us, s, i, j);
      StandsUnique(r, s, StandingFor(r, k), i - 1);
    } else {
      OtherStands(ts, i, j, d, s, e);
      StandsRemove(us, s, e, j);
      StandsUnique(r, s, StandingFor(r, k), if j < e then e - 1 else e);
    }
  }

  lemma DummyStands(ts: seq<Thread>, i: nat, j: nat, d: Thread)
    requires Shaped(ts) && j < i < |ts| && Stands(ts, Subject(ts[i]), j)
    requires Class(ts[j]) > 0 && Rooted(d) && d.msg == None && Subject(d) == Subject(ts[i])
    ensures Shaped(ts[i := d]) && Stands(ts[i := d], Subject(d), i)
  {
  }

  lemma OtherStands(ts: seq<Thread>, i: nat, j: nat, d: Thread, s: string, e: nat)
    requires Shaped(ts) && j < i < |ts| && Stands(ts, Subject(ts[i]), j) && Stands(ts, s, e)
    requires Rooted(d) && Subject(d) == Subject(ts[i]) != s
    ensures Shaped(ts[i := d]) && Stands(ts[i := d], s, e) && e != i && e != j
  {
  }
}
