/** Trees over numbered cells, and what it means that link maps hold them. */
module Roses {
  type Cell = c: int | 0 < c witness 1
  const NIL: nat := 0

  datatype Rose = Node(v: Cell, kids: seq<Rose>)

  ghost function Head(f: seq<Rose>): nat {
    if f == [] then NIL else f[0].v
  }

  /** The cells of a forest in preorder. */
  ghost function Pre(f: seq<Rose>): seq<Cell> {
    if f == [] then [] else [f[0].v] + Pre(f[0].kids) + Pre(f[1..])
  }

  lemma {:induction false} PreAppend(f: seq<Rose>, g: seq<Rose>)
    ensures Pre(f + g) == Pre(f) + Pre(g)
  {
    if f == [] {
      assert f + g == g;
    } else {
      assert (f + g)[1..] == f[1..] + g;
      PreAppend(f[1..], g);
    }
  }

  ghost predicate NoDup(s: seq<Cell>) {
    forall i, j | 0 <= i < j < |s| :: s[i] != s[j]
  }

  /** The maps hold the forest as a list of siblings that ends in `tail`: the
      child link of every cell leads to its eldest, the sibling link to the next. */
  ghost predicate Linked(child: map<Cell, nat>, sibling: map<Cell, nat>, f: seq<Rose>, tail: nat) {
    f == [] ||
    (&& f[0].v in child && f[0].v in sibling
     && child[f[0].v] == Head(f[0].kids)
     && sibling[f[0].v] == (if |f| > 1 then f[1].v else tail)
     && Linked(child, sibling, f[0].kids, NIL)
     && Linked(child, sibling, f[1..], tail))
  }

  /** Where a walk along the siblings goes after `f` when `g` follows. */
  ghost function HeadOr(g: seq<Rose>, tail: nat): nat {
    if g == [] then tail else g[0].v
  }

  lemma {:induction false} LinkedAppend(child: map<Cell, nat>, sibling: map<Cell, nat>,
                                        f: seq<Rose>, g: seq<Rose>, tail: nat)
    ensures Linked(child, sibling, f + g, tail) <==>
            Linked(child, sibling, f, HeadOr(g, tail)) && Linked(child, sibling, g, tail)
  {
    if f == [] {
      assert f + g == g;
    } else {
      assert (f + g)[1..] == f[1..] + g;
      LinkedAppend(child, sibling, f[1..], g, tail);
    }
  }

  /** Links outside a forest do not matter to it. */
  lemma {:induction false} LinkedFrame(child: map<Cell, nat>, sibling: map<Cell, nat>,
                                       child': map<Cell, nat>, sibling': map<Cell, nat>, f: seq<Rose>, tail: nat)
    requires Linked(child, sibling, f, tail)
    requires forall c <- Pre(f) :: c in child && c in sibling ==>
      c in child' && c in sibling' && child'[c] == child[c] && sibling'[c] == sibling[c]
    ensures Linked(child', sibling', f, tail)
  {
    if f != [] {
      assert f[0].v in Pre(f);
      assert forall c <- Pre(f[0].kids) :: c in Pre(f);
      assert forall c <- Pre(f[1..]) :: c in Pre(f);
      LinkedFrame(child, sibling, child', sibling', f[0].kids, NIL);
      LinkedFrame(child, sibling, child', sibling', f[1..], tail);
    }
  }
}
