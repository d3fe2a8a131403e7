/** Step 3 of the REFERENCES algorithm: dummies are pruned from the forest of
    containers, in place. */
module Pruning {
  import opened Sequences
  import opened Messages
  import opened Roses
  import opened Containers

  /** What pruning is for: below the roots every dummy gives way to its
      children; a root dummy does so unless it has several. */
  ghost function Prune(msgs: set<Cell>, f: seq<Rose>, root: bool): seq<Rose> {
    if f == [] then [] else PruneTree(msgs, f[0], root) + Prune(msgs, f[1..], root)
  }

  ghost function PruneTree(msgs: set<Cell>, t: Rose, root: bool): seq<Rose> {
    var k := Prune(msgs, t.kids, false);
    if t.v in msgs || (root && |k| > 1) then [Node(t.v, k)] else k
  }

  lemma {:induction false} PruneAppend(msgs: set<Cell>, f: seq<Rose>, g: seq<Rose>, root: bool)
    ensures Prune(msgs, f + g, root) == Prune(msgs, f, root) + Prune(msgs, g, root)
  {
    if f == [] {
      assert f + g == g;
    } else {
      assert (f + g)[1..] == f[1..] + g;
      PruneAppend(msgs, f[1..], g, root);
    }
  }

  /** A forest of messages only. */
  ghost predicate Clean(msgs: set<Cell>, f: seq<Rose>) {
    forall c <- Pre(f) :: c in msgs
  }

  lemma {:induction false} PruneIsClean(msgs: set<Cell>, f: seq<Rose>)
    ensures Clean(msgs, Prune(msgs, f, false))
  {
    if f != [] {
      PruneIsClean(msgs, f[0].kids);
      PruneIsClean(msgs, f[1..]);
      PreAppend(PruneTree(msgs, f[0], false), Prune(msgs, f[1..], false));
    }
  }

  lemma {:induction false} PruneOfClean(msgs: set<Cell>, f: seq<Rose>, root: bool)
    requires Clean(msgs, f)
    ensures Prune(msgs, f, root) == f
  {
    if f != [] {
      assert f[0].v in Pre(f);
      assert forall c <- Pre(f[0].kids) :: c in Pre(f);
      assert forall c <- Pre(f[1..]) :: c in Pre(f);
      PruneOfClean(msgs, f[0].kids, false);
      PruneOfClean(msgs, f[1..], root);
    }
  }

  /** The messages among the cells, in order. */
  ghost function Kept(msgs: set<Cell>, s: seq<Cell>): seq<Cell> {
    if s == [] then [] else (if s[0] in msgs then [s[0]] else []) + Kept(msgs, s[1..])
  }

  lemma {:induction false} KeptAppend(msgs: set<Cell>, s: seq<Cell>, t: seq<Cell>)
    ensures Kept(msgs, s + t) == Kept(msgs, s) + Kept(msgs, t)
  {
    if s == [] {
      assert s + t == t;
    } else {
      assert (s + t)[1..] == s[1..] + t;
      KeptAppend(msgs, s[1..], t);
      KeptFirst(msgs, s);
      KeptFirst(msgs, s + t);
      hide Kept;
      Assoc(if s[0] in msgs then [s[0]] else [], Kept(msgs, s[1..]), Kept(msgs, t));
    }
  }

  lemma KeptFirst(msgs: set<Cell>, s: seq<Cell>)
    requires s != []
    ensures Kept(msgs, s) == (if s[0] in msgs then [s[0]] else []) + Kept(msgs, s[1..])
  {
  }

  lemma KeptCons(msgs: set<Cell>, f: seq<Rose>)
    requires f != []
    ensures Kept(msgs, Pre(f)) ==
      (if f[0].v in msgs then [f[0].v] else []) + Kept(msgs, Pre(f[0].kids)) + Kept(msgs, Pre(f[1..]))
  {
    KeptAppend(msgs, [f[0].v] + Pre(f[0].kids), Pre(f[1..]));
    KeptAppend(msgs, [f[0].v], Pre(f[0].kids));
    assert Kept(msgs, [f[0].v]) == if f[0].v in msgs then [f[0].v] else [];
  }

  /** No message is lost, doubled or moved in the preorder of the messages. */
  lemma {:induction false} PruneKeepsMessages(msgs: set<Cell>, f: seq<Rose>, root: bool)
    ensures Kept(msgs, Pre(Prune(msgs, f, root))) == Kept(msgs, Pre(f))
  {
    if f != [] {
      PruneKeepsMessages(msgs, f[0].kids, false);
      PruneKeepsMessages(msgs, f[1..], root);
      var t := PruneTree(msgs, f[0], root);
      PruneKeepsTree(msgs, f[0], root);
      hide PruneTree, Pre, Kept;
      PreAppend(t, Prune(msgs, f[1..], root));
      KeptAppend(msgs, Pre(t), Pre(Prune(msgs, f[1..], root)));
      KeptCons(msgs, f);
    }
  }

  lemma PruneKeepsTree(msgs: set<Cell>, t: Rose, root: bool)
    requires Kept(msgs, Pre(Prune(msgs, t.kids, false))) == Kept(msgs, Pre(t.kids))
    ensures Kept(msgs, Pre(PruneTree(msgs, t, root))) == (if t.v in msgs then [t.v] else []) + Kept(msgs, Pre(t.kids))
  {
    hide Pre, Kept;
    var k, r := Prune(msgs, t.kids, false), PruneTree(msgs, t, root);
    if t.v in msgs || (root && |k| > 1) {
      KeptCons(msgs, r);
      KeptNone(msgs);
      assert r[1..] == [];
    } else {
      assert [] + Kept(msgs, Pre(t.kids)) == Kept(msgs, Pre(t.kids));
    }
  }

  lemma KeptNone(msgs: set<Cell>)
    ensures Kept(msgs, Pre([])) == []
  {
  }

  /** The pairs of a message and a message somewhere below it. */
  ghost function Over(msgs: set<Cell>, f: seq<Rose>): set<(Cell, Cell)> {
    if f == [] then {} else
    (if f[0].v in msgs then set c | c in Kept(msgs, Pre(f[0].kids)) :: (f[0].v, c) else {})
    + Over(msgs, f[0].kids) + Over(msgs, f[1..])
  }

  lemma {:induction false} OverAppend(msgs: set<Cell>, f: seq<Rose>, g: seq<Rose>)
    ensures Over(msgs, f + g) == Over(msgs, f) + Over(msgs, g)
  {
    if f == [] {
      assert f + g == g;
    } else {
      assert (f + g)[1..] == f[1..] + g;
      OverAppend(msgs, f[1..], g);
    }
  }

  /** A message is below another after pruning exactly if it was before. */
  lemma {:induction false} PruneKeepsAncestors(msgs: set<Cell>, f: seq<Rose>, root: bool)
    ensures Over(msgs, Prune(msgs, f, root)) == Over(msgs, f)
  {
    if f != [] {
      PruneKeepsAncestors(msgs, f[0].kids, false);
      PruneKeepsAncestors(msgs, f[1..], root);
      PruneKeepsMessages(msgs, f[0].kids, false);
      OverAppend(msgs, PruneTree(msgs, f[0], root), Prune(msgs, f[1..], root));
    }
  }

  /** After pruning a dummy is a root with several children, all trees of messages. */
  lemma {:induction false} PruneShape(msgs: set<Cell>, f: seq<Rose>)
    ensures forall t <- Prune(msgs, f, true) :: Clean(msgs, t.kids) && (t.v in msgs || |t.kids| > 1)
  {
    if f != [] {
      PruneShape(msgs, f[1..]);
      PruneIsClean(msgs, f[0].kids);
      var k := Prune(msgs, f[0].kids, false);
      forall t <- PruneTree(msgs, f[0], true)
        ensures Clean(msgs, t.kids) && (t.v in msgs || |t.kids| > 1)
      {
        if t.v != f[0].v || t.kids != k {
          CleanMember(msgs, k, t);
        }
      }
    }
  }

  lemma {:induction false} CleanMember(msgs: set<Cell>, f: seq<Rose>, t: Rose)
    requires Clean(msgs, f) && t in f
    ensures t.v in msgs && Clean(msgs, t.kids)
  {
    assert f[0].v in Pre(f);
    assert forall c <- Pre(f[0].kids) :: c in Pre(f);
    assert forall c <- Pre(f[1..]) :: c in Pre(f);
    if t != f[0] {
      CleanMember(msgs, f[1..], t);
    }
  }

  // ---- The links while pruning is under way ----

  datatype Links = Links(parent: map<Cell, nat>, sibling: map<Cell, nat>, child: map<Cell, nat>)

  /** Dummies still know their parent; messages that were promoted may not. */
  ghost predicate Parents(parent: map<Cell, nat>, msgs: set<Cell>, f: seq<Rose>, p: nat) {
    f == [] ||
    (&& (f[0].v !in msgs ==> f[0].v in parent && parent[f[0].v] == p)
     && Parents(parent, msgs, f[0].kids, f[0].v)
     && Parents(parent, msgs, f[1..], p))
  }

  lemma {:induction false} ParentsAppend(parent: map<Cell, nat>, msgs: set<Cell>, f: seq<Rose>, g: seq<Rose>, p: nat)
    ensures Parents(parent, msgs, f + g, p) <==> Parents(parent, msgs, f, p) && Parents(parent, msgs, g, p)
  {
    if f == [] {
      assert f + g == g;
    } else {
      assert (f + g)[1..] == f[1..] + g;
      ParentsAppend(parent, msgs, f[1..], g, p);
    }
  }

  lemma {:induction false} CleanParents(parent: map<Cell, nat>, msgs: set<Cell>, f: seq<Rose>, p: nat)
    requires Clean(msgs, f)
    ensures Parents(parent, msgs, f, p)
  {
    if f != [] {
      assert f[0].v in Pre(f);
      assert forall c <- Pre(f[0].kids) :: c in Pre(f);
      assert forall c <- Pre(f[1..]) :: c in Pre(f);
      CleanParents(parent, msgs, f[0].kids, f[0].v);
      CleanParents(parent, msgs, f[1..], p);
    }
  }

  lemma {:induction false} ParentsFrame(parent: map<Cell, nat>, parent': map<Cell, nat>, msgs: set<Cell>, f: seq<Rose>,
                                        p: nat)
    requires Parents(parent, msgs, f, p)
    requires forall c <- Pre(f) :: c !in msgs && c in parent ==> c in parent' && parent'[c] == parent[c]
    ensures Parents(parent', msgs, f, p)
  {
    if f != [] {
      assert f[0].v in Pre(f);
      assert forall c <- Pre(f[0].kids) :: c in Pre(f);
      assert forall c <- Pre(f[1..]) :: c in Pre(f);
      ParentsFrame(parent, parent', msgs, f[0].kids, f[0].v);
      ParentsFrame(parent, parent', msgs, f[1..], p);
    }
  }

  lemma NoDupConcat(a: seq<Cell>, b: seq<Cell>)
    ensures NoDup(a + b) <==> NoDup(a) && NoDup(b) && forall c <- a :: c !in b
  {
    var s := a + b;
    if NoDup(s) {
      forall i, j | 0 <= i < j < |a| ensures a[i] != a[j] {
        assert s[i] != s[j];
      }
      forall i, j | 0 <= i < j < |b| ensures b[i] != b[j] {
        assert s[|a| + i] != s[|a| + j];
      }
      forall i, j | 0 <= i < |a| && 0 <= j < |b| ensures a[i] != b[j] {
        assert s[i] != s[|a| + j];
      }
    }
    if NoDup(a) && NoDup(b) && forall c <- a :: c !in b {
      forall i, j | 0 <= i < j < |s| ensures s[i] != s[j] {
        assert i < |a| ==> s[i] in a;
        assert j >= |a| ==> s[j] in b;
      }
    }
  }

  /** The sibling list `f` below `p`, after the elder sister `ane`, as the links hold it. */
  ghost predicate Held(l: Links, msgs: set<Cell>, f: seq<Rose>, p: nat, ane: nat) {
    && l.parent.Keys == l.sibling.Keys == l.child.Keys
    && Linked(l.child, l.sibling, f, NIL)
    && Parents(l.parent, msgs, f, p)
    && NoDup(Pre(f)) && p !in Pre(f) && ane !in Pre(f)
    && (p != NIL ==> p in l.child)
    && (ane != NIL ==> ane in l.sibling && l.sibling[ane] == Head(f))
  }

  /** Pruning `f` touches no other links than those of its cells, the sibling
      link of the elder sister and, if there is none, the child link of the parent. */
  ghost predicate Touches(l: Links, l': Links, f: seq<Rose>, p: nat, ane: nat) {
    && l'.parent.Keys == l.parent.Keys && l'.sibling.Keys == l.sibling.Keys && l'.child.Keys == l.child.Keys
    && (forall c {:trigger l'.parent[c]} | c in l.parent && c !in Pre(f) :: l'.parent[c] == l.parent[c])
    && (forall c {:trigger l'.sibling[c]} | c in l.sibling && c !in Pre(f) && c != ane :: l'.sibling[c] == l.sibling[c])
    && (forall c {:trigger l'.child[c]} | c in l.child && c !in Pre(f) && (ane != NIL || c != p) ::
          l'.child[c] == l.child[c])
  }

  lemma TouchesTrans(l: Links, l': Links, l'': Links, f: seq<Rose>, g: seq<Rose>, p: nat, ane: nat)
    requires Touches(l, l', f, p, ane) && Touches(l', l'', g, p, ane)
    requires forall c <- Pre(g) :: c in Pre(f)
    ensures Touches(l, l'', f, p, ane)
  {
  }

  /** The state after the children of the first of `f` were pruned to `k`. */
  ghost predicate KidsPruned(l: Links, msgs: set<Cell>, f: seq<Rose>, p: nat, ane: nat, k: seq<Rose>) {
    && f != [] && l.parent.Keys == l.sibling.Keys == l.child.Keys
    && f[0].v in l.child && l.sibling[f[0].v] == Head(f[1..])
    && Linked(l.child, l.sibling, k, NIL) && Linked(l.child, l.sibling, f[1..], NIL)
    && Parents(l.parent, msgs, f[1..], p)
    && (f[0].v !in msgs ==> l.parent[f[0].v] == p)
    && k == Prune(msgs, f[0].kids, false)
    && NoDup([f[0].v] + Pre(k) + Pre(f[1..]))
    && (forall c <- Pre(k) :: c in Pre(f[0].kids))
    && p !in Pre(f) && ane !in Pre(f)
    && (p != NIL ==> p in l.child)
    && (ane != NIL ==> ane in l.sibling && l.sibling[ane] == f[0].v)
  }

  lemma AfterKids(l: Links, l': Links, msgs: set<Cell>, f: seq<Rose>, p: nat, ane: nat, k: seq<Rose>)
    requires f != [] && Held(l, msgs, f, p, ane)
    requires Touches(l, l', f[0].kids, f[0].v, NIL)
    requires Held(l', msgs, k, f[0].v, NIL) && k == Prune(msgs, f[0].kids, false)
    requires forall c <- Pre(k) :: c in Pre(f[0].kids)
    ensures KidsPruned(l', msgs, f, p, ane, k)
    ensures Touches(l, l', f, p, ane)
  {
    var m, a, b := f[0].v, Pre(f[0].kids), Pre(f[1..]);
    assert Pre(f) == [m] + a + b;
    NoDupConcat([m] + a, b);
    NoDupConcat([m], a);
    NoDupConcat([m] + Pre(k), b);
    NoDupConcat([m], Pre(k));
    LinkedFrame(l.child, l.sibling, l'.child, l'.sibling, f[1..], NIL);
    ParentsFrame(l.parent, l'.parent, msgs, f[1..], p);
  }

  /** `g` is what is left to prune of `f` once its first list position is done. */
  ghost predicate FirstDone(msgs: set<Cell>, f: seq<Rose>, g: seq<Rose>, root: bool) {
    && Prune(msgs, f, root) == (if g == [] then [] else [g[0]] + Prune(msgs, g[1..], root))
    && (forall c <- Pre(g) :: c in Pre(f)) && |Pre(g)| <= |Pre(f)|
  }

  lemma {:induction false} PreNode(m: Cell, k: seq<Rose>, rest: seq<Rose>)
    ensures Pre([Node(m, k)] + rest) == [m] + Pre(k) + Pre(rest)
  {
    assert ([Node(m, k)] + rest)[1..] == rest;
  }

  lemma {:induction false} PrunePreLength(msgs: set<Cell>, f: seq<Rose>)
    ensures |Pre(Prune(msgs, f, false))| <= |Pre(f)|
  {
    if f != [] {
      PrunePreLength(msgs, f[0].kids);
      PrunePreLength(msgs, f[1..]);
      PreAppend(PruneTree(msgs, f[0], false), Prune(msgs, f[1..], false));
    }
  }

  /** The first container stays: it holds a message or is a root dummy with
      several children. */
  lemma KeepFirst(l: Links, msgs: set<Cell>, f: seq<Rose>, p: nat, ane: nat, k: seq<Rose>)
    requires KidsPruned(l, msgs, f, p, ane, k)
    requires f[0].v in msgs || (p == NIL && |k| > 1)
    ensures var g, l' := [Node(f[0].v, k)] + f[1..], l.(child := l.child[f[0].v := Head(k)]);
      Held(l', msgs, g, p, ane) && Touches(l, l', f, p, ane) && FirstDone(msgs, f, g, p == NIL)
  {
    var m := f[0].v;
    var g, l' := [Node(m, k)] + f[1..], l.(child := l.child[m := Head(k)]);
    KeepHeld(l, msgs, f, p, ane, k);
    assert g[1..] == f[1..];
    PrunePreLength(msgs, f[0].kids);
    PreNode(m, k, f[1..]);
    PreNode(m, f[0].kids, f[1..]);
    assert [Node(m, f[0].kids)] + f[1..] == f;
    PruneNode(msgs, f, p == NIL);
    hide Held, Pre, Linked, Parents, Prune, NoDup;
  }

  lemma PruneNode(msgs: set<Cell>, f: seq<Rose>, root: bool)
    requires f != []
    ensures var k := Prune(msgs, f[0].kids, false);
      f[0].v in msgs || (root && |k| > 1) ==> Prune(msgs, f, root) == [Node(f[0].v, k)] + Prune(msgs, f[1..], root)
  {
  }

  lemma LinkedNode(child: map<Cell, nat>, sibling: map<Cell, nat>, m: Cell, k: seq<Rose>, rest: seq<Rose>)
    requires m in child && m in sibling && child[m] == Head(k) && sibling[m] == Head(rest)
    requires Linked(child, sibling, k, NIL) && Linked(child, sibling, rest, NIL)
    ensures Linked(child, sibling, [Node(m, k)] + rest, NIL)
  {
    assert ([Node(m, k)] + rest)[1..] == rest;
  }

  lemma ParentsNode(parent: map<Cell, nat>, msgs: set<Cell>, m: Cell, k: seq<Rose>, rest: seq<Rose>, p: nat)
    requires m !in msgs ==> m in parent && parent[m] == p
    requires Parents(parent, msgs, k, m) && Parents(parent, msgs, rest, p)
    ensures Parents(parent, msgs, [Node(m, k)] + rest, p)
  {
    assert ([Node(m, k)] + rest)[1..] == rest;
  }

  lemma KeepHeld(l: Links, msgs: set<Cell>, f: seq<Rose>, p: nat, ane: nat, k: seq<Rose>)
    requires KidsPruned(l, msgs, f, p, ane, k)
    ensures Held(l.(child := l.child[f[0].v := Head(k)]), msgs, [Node(f[0].v, k)] + f[1..], p, ane)
  {
    hide Prune, NoDup, Clean, Linked, Parents;
    var m := f[0].v;
    var g, l' := [Node(m, k)] + f[1..], l.(child := l.child[m := Head(k)]);
    PreNode(m, k, f[1..]);
    PreNode(m, f[0].kids, f[1..]);
    assert [Node(m, f[0].kids)] + f[1..] == f;
    hide Pre;
    NoDupConcat([m] + Pre(k), Pre(f[1..]));
    NoDupConcat([m], Pre(k));
    LinkedFrame(l.child, l.sibling, l'.child, l'.sibling, k, NIL);
    LinkedFrame(l.child, l.sibling, l'.child, l'.sibling, f[1..], NIL);
    LinkedNode(l'.child, l'.sibling, m, k, f[1..]);
    PruneIsClean(msgs, f[0].kids);
    CleanParents(l.parent, msgs, k, m);
    ParentsNode(l.parent, msgs, m, k, f[1..], p);
  }

  /** A dummy without children is dropped. */
  lemma DropFirst(l: Links, l': Links, msgs: set<Cell>, f: seq<Rose>, p: nat, ane: nat)
    requires KidsPruned(l, msgs, f, p, ane, []) && f[0].v !in msgs
    requires l' == if ane > 0 then l.(sibling := l.sibling[ane := Head(f[1..])]) else l
    ensures Held(l', msgs, f[1..], p, ane) && Touches(l, l', f, p, ane)
    ensures Prune(msgs, f, p == NIL) == Prune(msgs, f[1..], p == NIL)
    ensures |Pre(f[1..])| < |Pre(f)| && forall c <- Pre(f[1..]) :: c in Pre(f)
  {
    NoDupConcat([f[0].v] + [], Pre(f[1..]));
    LinkedFrame(l.child, l.sibling, l'.child, l'.sibling, f[1..], NIL);
  }

  /** Moving the end of a sibling list. */
  lemma {:induction false} LinkedRetail(child: map<Cell, nat>, sibling: map<Cell, nat>, f: seq<Rose>, tail: nat,
                                        tail': nat)
    requires f != [] && Linked(child, sibling, f, tail) && NoDup(Pre(f))
    ensures Linked(child, sibling[f[|f| - 1].v := tail'], f, tail')
    decreases f
  {
    var last := f[|f| - 1].v;
    var sibling' := sibling[last := tail'];
    NoDupConcat([f[0].v] + Pre(f[0].kids), Pre(f[1..]));
    NoDupConcat([f[0].v], Pre(f[0].kids));
    if |f| > 1 {
      LastInPre(f[1..]);
      assert f[1..][|f| - 2] == f[|f| - 1];
      LinkedRetail(child, sibling, f[1..], tail, tail');
    }
    LinkedFrame(child, sibling, child, sibling', f[0].kids, NIL);
  }

  lemma {:induction false} LastInPre(f: seq<Rose>)
    requires f != []
    ensures f[|f| - 1].v in Pre(f)
  {
    if |f| > 1 {
      assert f[1..][|f| - 2] == f[|f| - 1];
      LastInPre(f[1..]);
    }
  }

  /** The links after the children `k` of a dummy took its place. */
  ghost function Promoted(l: Links, f: seq<Rose>, p: nat, ane: nat, k: seq<Rose>): Links
    requires f != [] && k != [] && f[0].v in l.sibling
  {
    var sibling' := if ane > 0 then l.sibling[ane := k[0].v] else l.sibling;
    Links(l.parent[k[0].v := p],
          sibling'[k[|k| - 1].v := l.sibling[f[0].v]],
          if ane == NIL && p > 0 then l.child[p := k[0].v] else l.child)
  }

  lemma PromoteKids(l: Links, msgs: set<Cell>, f: seq<Rose>, p: nat, ane: nat, k: seq<Rose>)
    requires KidsPruned(l, msgs, f, p, ane, k) && f[0].v !in msgs && k != []
    requires p != NIL || |k| == 1
    ensures Held(Promoted(l, f, p, ane, k), msgs, k + f[1..], p, ane)
    ensures Touches(l, Promoted(l, f, p, ane, k), f, p, ane)
    ensures Prune(msgs, f, p == NIL) == Prune(msgs, k + f[1..], p == NIL)
    ensures |Pre(k + f[1..])| < |Pre(f)| && forall c <- Pre(k + f[1..]) :: c in Pre(f)
  {
    hide Held, Touches, Prune, Promoted;
    PromoteCells(l, msgs, f, p, ane, k);
    PromoteHeld(l, msgs, f, p, ane, k);
    PromoteTouches(l, msgs, f, p, ane, k);
    PromotePrune(msgs, f, p == NIL, k);
  }

  lemma PromoteCells(l: Links, msgs: set<Cell>, f: seq<Rose>, p: nat, ane: nat, k: seq<Rose>)
    requires KidsPruned(l, msgs, f, p, ane, k) && k != []
    ensures |Pre(k + f[1..])| < |Pre(f)| && (forall c <- Pre(k + f[1..]) :: c in Pre(f))
    ensures Pre(k + f[1..]) == Pre(k) + Pre(f[1..]) && NoDup(Pre(k) + Pre(f[1..])) && NoDup(Pre(k))
    ensures forall c <- Pre(k) :: c !in Pre(f[1..])
    ensures k[0].v in Pre(k) && k[|k| - 1].v in Pre(k)
  {
    var rest := f[1..];
    PreAppend(k, rest);
    PrunePreLength(msgs, f[0].kids);
    NoDupConcat([f[0].v] + Pre(k), Pre(rest));
    NoDupConcat([f[0].v], Pre(k));
    NoDupConcat(Pre(k), Pre(rest));
    LastInPre(k);
  }

  lemma PromoteHeld(l: Links, msgs: set<Cell>, f: seq<Rose>, p: nat, ane: nat, k: seq<Rose>)
    requires KidsPruned(l, msgs, f, p, ane, k) && k != []
    ensures Held(Promoted(l, f, p, ane, k), msgs, k + f[1..], p, ane)
  {
    hide Prune, NoDup, Linked, Parents, Pre;
    PromoteCells(l, msgs, f, p, ane, k);
    PreParts(f);
    FirstLinked(l.child, l.sibling, k, NIL);
    LastLinked(l.child, l.sibling, k, NIL);
    PromotedList(l, f, p, ane, k);
    PromotedParents(l, msgs, f, p, ane, k);
    PromotedEnds(l, f, p, ane, k);
    hide Promoted;
  }

  lemma PromotedParents(l: Links, msgs: set<Cell>, f: seq<Rose>, p: nat, ane: nat, k: seq<Rose>)
    requires f != [] && k == Prune(msgs, f[0].kids, false) && k != [] && f[0].v in l.sibling
    requires Parents(l.parent, msgs, f[1..], p) && forall c <- Pre(k) :: c !in Pre(f[1..])
    ensures Parents(Promoted(l, f, p, ane, k).parent, msgs, k + f[1..], p)
  {
    hide Parents, Prune, Clean;
    FirstInPre(k);
    hide Pre;
    var parent' := l.parent[k[0].v := p];
    PruneIsClean(msgs, f[0].kids);
    CleanParents(parent', msgs, k, p);
    ParentsFrame(l.parent, parent', msgs, f[1..], p);
    ParentsAppend(parent', msgs, k, f[1..], p);
  }

  lemma FirstInPre(f: seq<Rose>)
    requires f != []
    ensures f[0].v in Pre(f)
  {
  }

  /** The links of the parent and of the elder sister. */
  lemma PromotedEnds(l: Links, f: seq<Rose>, p: nat, ane: nat, k: seq<Rose>)
    requires f != [] && k != [] && f[0].v in l.sibling && l.parent.Keys == l.sibling.Keys == l.child.Keys
    requires k[0].v in l.child && k[|k| - 1].v in l.child && k[|k| - 1].v != ane
    requires (p != NIL ==> p in l.child) && (ane != NIL ==> ane in l.sibling)
    ensures var l' := Promoted(l, f, p, ane, k);
      && l'.parent.Keys == l'.sibling.Keys == l'.child.Keys == l.child.Keys
      && (ane != NIL ==> l'.sibling[ane] == k[0].v)
  {
  }

  lemma PreParts(f: seq<Rose>)
    requires f != []
    ensures forall c :: c in Pre(f) <==> c == f[0].v || c in Pre(f[0].kids) || c in Pre(f[1..])
  {
  }

  lemma FirstLinked(child: map<Cell, nat>, sibling: map<Cell, nat>, f: seq<Rose>, tail: nat)
    requires f != [] && Linked(child, sibling, f, tail)
    ensures f[0].v in child && f[0].v in sibling && f[0].v in Pre(f)
  {
  }

  lemma {:induction false} LastLinked(child: map<Cell, nat>, sibling: map<Cell, nat>, f: seq<Rose>, tail: nat)
    requires f != [] && Linked(child, sibling, f, tail)
    ensures f[|f| - 1].v in child && f[|f| - 1].v in sibling && sibling[f[|f| - 1].v] == tail
  {
    if |f| > 1 {
      assert f[1..][|f| - 2] == f[|f| - 1];
      LastLinked(child, sibling, f[1..], tail);
    }
  }

  lemma PromoteTouches(l: Links, msgs: set<Cell>, f: seq<Rose>, p: nat, ane: nat, k: seq<Rose>)
    requires KidsPruned(l, msgs, f, p, ane, k) && k != []
    ensures Touches(l, Promoted(l, f, p, ane, k), f, p, ane)
  {
    hide Prune, NoDup, Clean, Linked, Parents, Pre;
    PromoteCells(l, msgs, f, p, ane, k);
    FirstLinked(l.child, l.sibling, k, NIL);
    LastLinked(l.child, l.sibling, k, NIL);
    PreAppend(k, f[1..]);
    assert k[0].v in Pre(k + f[1..]) && k[|k| - 1].v in Pre(k + f[1..]);
  }

  lemma PromotePrune(msgs: set<Cell>, f: seq<Rose>, root: bool, k: seq<Rose>)
    requires f != [] && k == Prune(msgs, f[0].kids, false) && f[0].v !in msgs
    requires !root || |k| == 1
    ensures Prune(msgs, f, root) == Prune(msgs, k + f[1..], root)
  {
    PruneIsClean(msgs, f[0].kids);
    PruneOfClean(msgs, k, root);
    PruneAppend(msgs, k, f[1..], root);
  }

  lemma PromotedList(l: Links, f: seq<Rose>, p: nat, ane: nat, k: seq<Rose>)
    requires f != [] && k != [] && f[0].v in l.sibling && l.sibling[f[0].v] == Head(f[1..])
    requires Linked(l.child, l.sibling, k, NIL) && Linked(l.child, l.sibling, f[1..], NIL)
    requires NoDup(Pre(k)) && (forall c <- Pre(k) :: c !in Pre(f[1..]))
    requires forall c | c in Pre(k) || c in Pre(f[1..]) :: c != p && c != ane
    ensures var l' := Promoted(l, f, p, ane, k); Linked(l'.child, l'.sibling, k + f[1..], NIL)
  {
    hide Pre, NoDup, Linked;
    var l', rest := Promoted(l, f, p, ane, k), f[1..];
    var sibling' := if ane > 0 then l.sibling[ane := k[0].v] else l.sibling;
    LinkedFrame(l.child, l.sibling, l'.child, sibling', k, NIL);
    LinkedRetail(l'.child, sibling', k, NIL, Head(rest));
    LastInPre(k);
    LinkedFrame(l.child, l.sibling, l'.child, l'.sibling, rest, NIL);
    LinkedAppend(l'.child, l'.sibling, k, rest, NIL);
  }

  ghost function Now(pool: Pool): Links
    reads pool
  {
    Links(pool.parent, pool.sibling, pool.child)
  }

  /** The containers that hold a message. */
  ghost function MessagesIn(cache: seq<Option<Message>>): (msgs: set<Cell>)
    ensures forall c: Cell {:trigger c in msgs} :: c in msgs <==> c <= |cache| && cache[c - 1].Some?
  {
    if cache == [] then {}
    else MessagesIn(cache[..|cache| - 1]) + if cache[|cache| - 1].Some? then {|cache|} else {}
  }

  ghost predicate Indexed(l: Links, cache: seq<Option<Message>>) {
    forall c {:trigger l.child[c]} {:trigger c in l.child} | c in l.child :: c <= |cache|
  }

  method LastSibling(pool: Pool, first: Cell, ghost k: seq<Rose>) returns (cur: Cell)
    requires k != [] && first == k[0].v && Linked(pool.child, pool.sibling, k, NIL)
    ensures cur == k[|k| - 1].v
  {
    cur := first;
    ghost var rest := k;
    while pool.sibling[cur] != NIL
      invariant rest != [] && cur == rest[0].v && Linked(pool.child, pool.sibling, rest, NIL)
      invariant rest[|rest| - 1] == k[|k| - 1]
      decreases |rest|
    {
      rest := rest[1..];
      cur := pool.sibling[cur];
    }
  }

  /** Drops the dummy `msg`, whose children are all pruned away. */
  method Drop(pool: Pool, msg: Cell, ane: nat,
              ghost msgs: set<Cell>, ghost f: seq<Rose>, ghost p: nat, ghost k: seq<Rose>) returns (nxt: nat)
    requires KidsPruned(Now(pool), msgs, f, p, ane, k) && msg == f[0].v && msg !in msgs && Head(k) == NIL
    modifies pool`sibling
    ensures Held(Now(pool), msgs, f[1..], p, ane)
    ensures Touches(old(Now(pool)), Now(pool), f, p, ane)
    ensures Prune(msgs, f, p == NIL) == Prune(msgs, f[1..], p == NIL)
    ensures |Pre(f[1..])| < |Pre(f)| && forall c <- Pre(f[1..]) :: c in Pre(f)
    ensures nxt == Head(f[1..])
  {
    hide Touches, Held, KidsPruned, Prune, Pre;
    assert k == [];
    AfterKidsFacts(Now(pool), msgs, f, p, ane, k);
    ghost var l := Now(pool);
    nxt := pool.sibling[msg];
    if ane != NIL {
      pool.sibling := pool.sibling[ane := nxt];
    }
    DropFirst(l, Now(pool), msgs, f, p, ane);
  }

  /** Puts the pruned children of the dummy `msg` in its place. */
  method Promote(pool: Pool, msg: Cell, nxt: Cell, ane: nat,
                 ghost msgs: set<Cell>, ghost f: seq<Rose>, ghost p: nat, ghost k: seq<Rose>)
    requires KidsPruned(Now(pool), msgs, f, p, ane, k) && msg == f[0].v && msg !in msgs
    requires k != [] && nxt == k[0].v
    modifies pool`parent, pool`sibling, pool`child
    ensures Now(pool) == Promoted(old(Now(pool)), f, p, ane, k)
  {
    var cur := pool.parent[msg];
    var last := LastSibling(pool, nxt, k);
    PromoteCells(Now(pool), msgs, f, p, ane, k);
    if ane != NIL {
      pool.sibling := pool.sibling[ane := nxt];
    } else if cur != NIL {
      pool.child := pool.child[cur := nxt];
    }
    pool.parent := pool.parent[nxt := cur];
    pool.sibling := pool.sibling[last := pool.sibling[msg]];
  }

  lemma FirstHeld(l: Links, msgs: set<Cell>, f: seq<Rose>, p: nat, ane: nat)
    requires f != [] && Held(l, msgs, f, p, ane)
    ensures f[0].v in l.child && f[0].v in l.sibling && f[0].v in l.parent
    ensures l.child[f[0].v] == Head(f[0].kids) && l.sibling[f[0].v] == Head(f[1..])
    ensures Held(l, msgs, f[0].kids, f[0].v, NIL)
    ensures |Pre(f[0].kids)| < |Pre(f)|
  {
    NoDupConcat([f[0].v] + Pre(f[0].kids), Pre(f[1..]));
    NoDupConcat([f[0].v], Pre(f[0].kids));
  }

  lemma TouchesNothing(l: Links, f: seq<Rose>, p: nat, ane: nat)
    ensures Touches(l, l, f, p, ane)
  {
  }

  lemma TouchesIndexed(l: Links, l': Links, f: seq<Rose>, p: nat, ane: nat, cache: seq<Option<Message>>)
    requires Touches(l, l', f, p, ane) && Indexed(l, cache)
    ensures Indexed(l', cache)
  {
  }

  lemma FirstIndexed(l: Links, msgs: set<Cell>, f: seq<Rose>, p: nat, ane: nat, cache: seq<Option<Message>>)
    requires f != [] && Held(l, msgs, f, p, ane) && Indexed(l, cache)
    ensures f[0].v <= |cache|
  {
  }

  lemma AfterKidsFacts(l: Links, msgs: set<Cell>, f: seq<Rose>, p: nat, ane: nat, k: seq<Rose>)
    requires KidsPruned(l, msgs, f, p, ane, k)
    ensures f[0].v in l.child && f[0].v in l.sibling && f[0].v in l.parent
    ensures l.sibling[f[0].v] == Head(f[1..])
    ensures ane != NIL ==> ane in l.sibling
    ensures f[0].v !in msgs ==> l.parent[f[0].v] == p
    ensures k != [] ==> k[0].v in l.sibling && (l.sibling[k[0].v] == NIL <==> |k| == 1)
  {
  }

  lemma FirstDoneNone(msgs: set<Cell>, f: seq<Rose>, root: bool)
    requires Prune(msgs, f, root) == Prune(msgs, [], root)
    ensures FirstDone(msgs, f, [], root)
  {
  }

  lemma FirstDoneLater(msgs: set<Cell>, f: seq<Rose>, f': seq<Rose>, g: seq<Rose>, root: bool)
    requires FirstDone(msgs, f', g, root) && Prune(msgs, f, root) == Prune(msgs, f', root)
    requires |Pre(f')| < |Pre(f)| && forall c <- Pre(f') :: c in Pre(f)
    ensures FirstDone(msgs, f, g, root)
  {
  }

  /** Prunes the children of the container at the first list position. */
  method PruneKids(pool: Pool, msg: Cell, ghost f: seq<Rose>, ghost p: nat, ghost ane: nat)
    returns (nxt: nat, ghost k: seq<Rose>)
    requires f != [] && msg == f[0].v
    requires Held(Now(pool), MessagesIn(pool.cache), f, p, ane) && Indexed(Now(pool), pool.cache)
    modifies pool`parent, pool`sibling, pool`child
    ensures KidsPruned(Now(pool), MessagesIn(pool.cache), f, p, ane, k) && Indexed(Now(pool), pool.cache)
    ensures Touches(old(Now(pool)), Now(pool), f, p, ane)
    ensures nxt == Head(k)
    decreases |Pre(f)|, 0
  {
    hide Touches, Held, KidsPruned, Indexed;
    ghost var l := Now(pool);
    FirstHeld(l, MessagesIn(pool.cache), f, p, ane);
    if pool.child[msg] != NIL {
      nxt, k := PruneDummy(pool, pool.child[msg], f[0].kids, msg);
    } else {
      nxt, k := NIL, [];
      TouchesNothing(l, f[0].kids, msg, NIL);
    }
    AfterKids(l, Now(pool), MessagesIn(pool.cache), f, p, ane, k);
  }

  /** Prunes the container at one list position and its children; the younger
      sisters are looked at only until one container is found to stay. */
  method PruneDummyWork(pool: Pool, msg: Cell, ane: nat, ghost f: seq<Rose>, ghost p: nat)
    returns (ret: nat, ghost g: seq<Rose>)
    requires f != [] && msg == f[0].v
    requires Held(Now(pool), MessagesIn(pool.cache), f, p, ane) && Indexed(Now(pool), pool.cache)
    modifies pool`parent, pool`sibling, pool`child
    ensures Held(Now(pool), MessagesIn(pool.cache), g, p, ane) && Indexed(Now(pool), pool.cache)
    ensures Touches(old(Now(pool)), Now(pool), f, p, ane)
    ensures FirstDone(MessagesIn(pool.cache), f, g, p == NIL)
    ensures ret == Head(g)
    decreases |Pre(f)|, 1
  {
    hide Touches, FirstDone, Prune, Held, KidsPruned, Promoted, Indexed, Pre, MessagesIn;
    FirstIndexed(Now(pool), MessagesIn(pool.cache), f, p, ane, pool.cache);
    ghost var msgs := MessagesIn(pool.cache);
    ghost var l0 := Now(pool);
    var nxt;
    ghost var k;
    nxt, k := PruneKids(pool, msg, f, p, ane);
    ghost var l1 := Now(pool);
    AfterKidsFacts(l1, msgs, f, p, ane, k);
    ghost var rest := f[1..];
    if pool.cache[msg - 1].Some? {
      KeepFirst(l1, msgs, f, p, ane, k);
      pool.child := pool.child[msg := nxt];
      TouchesIndexed(l1, Now(pool), f, p, ane, pool.cache);
      ret, g := msg, [Node(msg, k)] + rest;
    } else if nxt == NIL {
      nxt := Drop(pool, msg, ane, msgs, f, p, k);
      TouchesIndexed(l1, Now(pool), f, p, ane, pool.cache);
      if nxt != NIL {
        ghost var l2 := Now(pool);
        ret, g := PruneDummyWork(pool, nxt, ane, rest, p);
        TouchesTrans(l1, l2, Now(pool), f, rest, p, ane);
        FirstDoneLater(msgs, f, rest, g, p == NIL);
      } else {
        ret, g := NIL, [];
        FirstDoneNone(msgs, f, p == NIL);
      }
    } else if pool.parent[msg] != NIL || pool.sibling[nxt] == NIL {
      PromoteKids(l1, msgs, f, p, ane, k);
      Promote(pool, msg, nxt, ane, msgs, f, p, k);
      TouchesIndexed(l1, Now(pool), f, p, ane, pool.cache);
      ghost var l2 := Now(pool);
      ret, g := PruneDummyWork(pool, nxt, ane, k + rest, p);
      TouchesTrans(l1, l2, Now(pool), f, k + rest, p, ane);
      FirstDoneLater(msgs, f, k + rest, g, p == NIL);
    } else {
      KeepFirst(l1, msgs, f, p, ane, k);
      pool.child := pool.child[msg := nxt];
      TouchesIndexed(l1, Now(pool), f, p, ane, pool.cache);
      ret, g := msg, [Node(msg, k)] + rest;
    }
    TouchesTrans(l0, l1, Now(pool), f, f, p, ane);
  }

  /** Of the sibling list `f`, `done` is pruned, up to the container `ane`, and
      `rest` is not. */
  ghost predicate Progress(l: Links, msgs: set<Cell>, f: seq<Rose>, done: seq<Rose>, rest: seq<Rose>, p: nat,
                           ane: nat) {
    && done != [] && ane == done[|done| - 1].v
    && Held(l, msgs, done + rest, p, NIL)
    && Prune(msgs, f, p == NIL) == done + Prune(msgs, rest, p == NIL)
    && (forall c <- Pre(done + rest) :: c in Pre(f))
    && |Pre(rest)| < |Pre(f)|
  }

  lemma {:induction false} StartProgress(l: Links, msgs: set<Cell>, f: seq<Rose>, g: seq<Rose>, p: nat)
    requires Held(l, msgs, g, p, NIL) && FirstDone(msgs, f, g, p == NIL) && g != []
    ensures Progress(l, msgs, f, [g[0]], g[1..], p, g[0].v)
  {
    assert [g[0]] + g[1..] == g;
  }

  lemma ProgressRest(l: Links, msgs: set<Cell>, f: seq<Rose>, done: seq<Rose>, rest: seq<Rose>, p: nat, ane: nat)
    requires Progress(l, msgs, f, done, rest, p, ane)
    ensures Held(l, msgs, rest, p, ane) && ane in Pre(f) && ane in l.sibling && l.sibling[ane] == Head(rest)
    ensures |Pre(rest)| < |Pre(f)| && forall c <- Pre(rest) :: c in Pre(f)
  {
    LinkedAppend(l.child, l.sibling, done, rest, NIL);
    LastLinked(l.child, l.sibling, done, HeadOr(rest, NIL));
    ParentsAppend(l.parent, msgs, done, rest, p);
    PreAppend(done, rest);
    NoDupConcat(Pre(done), Pre(rest));
    LastInPre(done);
  }

  lemma ProgressEnd(l: Links, msgs: set<Cell>, f: seq<Rose>, done: seq<Rose>, p: nat, ane: nat)
    requires Progress(l, msgs, f, done, [], p, ane)
    ensures Held(l, msgs, done, p, NIL) && done == Prune(msgs, f, p == NIL)
    ensures forall c <- Pre(done) :: c in Pre(f)
  {
    assert done + [] == done;
  }

  /** The links of `done` after the rest was pruned from `rest` to `g`. */
  lemma DoneRelinked(l: Links, l': Links, done: seq<Rose>, rest: seq<Rose>, g: seq<Rose>, p: nat)
    requires done != [] && Linked(l.child, l.sibling, done, Head(rest)) && NoDup(Pre(done))
    requires Linked(l'.child, l'.sibling, g, NIL)
    requires Touches(l, l', rest, p, done[|done| - 1].v) && (forall c <- Pre(done) :: c !in Pre(rest))
    requires done[|done| - 1].v in l'.sibling && l'.sibling[done[|done| - 1].v] == Head(g)
    ensures Linked(l'.child, l'.sibling, done + g, NIL)
  {
    var ane := done[|done| - 1].v;
    LinkedRetail(l.child, l.sibling, done, Head(rest), Head(g));
    LastInPre(done);
    LinkedFrame(l.child, l.sibling[ane := Head(g)], l'.child, l'.sibling, done, Head(g));
    LinkedAppend(l'.child, l'.sibling, done, g, NIL);
  }

  lemma DoneHeld(l: Links, l': Links, msgs: set<Cell>, f: seq<Rose>, done: seq<Rose>, rest: seq<Rose>,
                 g: seq<Rose>, p: nat, ane: nat)
    requires Progress(l, msgs, f, done, rest, p, ane)
    requires Held(l', msgs, g, p, ane) && Touches(l, l', rest, p, ane) && FirstDone(msgs, rest, g, p == NIL)
    ensures Held(l', msgs, done + g, p, NIL)
    ensures forall c <- Pre(done + g) :: c in Pre(f)
  {
    LinkedAppend(l.child, l.sibling, done, rest, NIL);
    ParentsAppend(l.parent, msgs, done, rest, p);
    PreAppend(done, rest);
    PreAppend(done, g);
    NoDupConcat(Pre(done), Pre(rest));
    NoDupConcat(Pre(done), Pre(g));
    DoneRelinked(l, l', done, rest, g, p);
    ParentsFrame(l.parent, l'.parent, msgs, done, p);
    ParentsAppend(l'.parent, msgs, done, g, p);
  }

  lemma StepProgress(l: Links, l': Links, msgs: set<Cell>, f: seq<Rose>, done: seq<Rose>, rest: seq<Rose>,
                     g: seq<Rose>, p: nat, ane: nat)
    requires Progress(l, msgs, f, done, rest, p, ane)
    requires Held(l', msgs, g, p, ane) && Touches(l, l', rest, p, ane) && FirstDone(msgs, rest, g, p == NIL)
    ensures g == [] ==> Progress(l', msgs, f, done, [], p, ane)
    ensures g != [] ==> Progress(l', msgs, f, done + [g[0]], g[1..], p, g[0].v) && |Pre(g[1..])| < |Pre(rest)|
  {
    hide Held, Touches, Prune;
    DoneHeld(l, l', msgs, f, done, rest, g, p, ane);
    if g == [] {
      PruneNone(msgs, p == NIL);
    } else {
      assert done + g == (done + [g[0]]) + g[1..];
      var h := Prune(msgs, g[1..], p == NIL);
      assert done + ([g[0]] + h) == (done + [g[0]]) + h;
    }
  }

  lemma PruneNone(msgs: set<Cell>, root: bool)
    ensures Prune(msgs, [], root) == []
  {
  }

  lemma TouchesInner(l: Links, l': Links, l'': Links, f: seq<Rose>, rest: seq<Rose>, p: nat, ane: nat)
    requires Touches(l, l', f, p, NIL) && Touches(l', l'', rest, p, ane)
    requires ane != NIL && ane in Pre(f) && forall c <- Pre(rest) :: c in Pre(f)
    ensures Touches(l, l'', f, p, NIL)
  {
  }

  /** Prunes a whole list of siblings with everything below it. */
  method PruneDummy(pool: Pool, msg: Cell, ghost f: seq<Rose>, ghost p: nat)
    returns (ret: nat, ghost g: seq<Rose>)
    requires f != [] && msg == f[0].v
    requires Held(Now(pool), MessagesIn(pool.cache), f, p, NIL) && Indexed(Now(pool), pool.cache)
    modifies pool`parent, pool`sibling, pool`child
    ensures Held(Now(pool), MessagesIn(pool.cache), g, p, NIL) && Indexed(Now(pool), pool.cache)
    ensures Touches(old(Now(pool)), Now(pool), f, p, NIL)
    ensures g == Prune(MessagesIn(pool.cache), f, p == NIL)
    ensures forall c <- Pre(g) :: c in Pre(f)
    ensures ret == Head(g)
    decreases |Pre(f)|, 2
  {
    hide Touches, FirstDone, Prune, Held, Progress, Indexed, Pre, MessagesIn;
    ghost var msgs := MessagesIn(pool.cache);
    ghost var l0 := Now(pool);
    ret, g := PruneDummyWork(pool, msg, NIL, f, p);
    if ret == NIL {
      FirstDoneAll(msgs, f, g, p == NIL);
      return;
    }
    StartProgress(Now(pool), msgs, f, g, p);
    var ane := ret;
    ghost var done, rest := [g[0]], g[1..];
    ProgressRest(Now(pool), msgs, f, done, rest, p, ane);
    while pool.sibling[ane] != NIL
      invariant Progress(Now(pool), msgs, f, done, rest, p, ane)
      invariant ane != NIL && ane in pool.sibling && done != [] && ret == done[0].v
      invariant Touches(l0, Now(pool), f, p, NIL) && Indexed(Now(pool), pool.cache)
      decreases |Pre(rest)|
    {
      ghost var l := Now(pool);
      ProgressRest(l, msgs, f, done, rest, p, ane);
      ghost var h;
      var next;
      next, h := PruneDummyWork(pool, pool.sibling[ane], ane, rest, p);
      StepProgress(l, Now(pool), msgs, f, done, rest, h, p, ane);
      TouchesInner(l0, l, Now(pool), f, rest, p, ane);
      if next == NIL {
        rest := [];
        break;
      }
      ane := next;
      done, rest := done + [h[0]], h[1..];
      ProgressRest(Now(pool), msgs, f, done, rest, p, ane);
    }
    ProgressRest(Now(pool), msgs, f, done, rest, p, ane);
    assert rest == [];
    ProgressEnd(Now(pool), msgs, f, done, p, ane);
    g := done;
  }

  lemma FirstDoneAll(msgs: set<Cell>, f: seq<Rose>, g: seq<Rose>, root: bool)
    requires FirstDone(msgs, f, g, root) && Head(g) == NIL
    ensures g == [] == Prune(msgs, f, root) && Pre(g) == []
  {
  }
}