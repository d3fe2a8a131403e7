/** Sorting lists of thread nodes with a buffer, in place (steps 4 and 6 of the
    REFERENCES algorithm). */
module ThreadSort {
  import opened Messages
  import opened Roses
  import opened Threads
  import opened Pruning
  import opened ThreadNodes

  /** The message the source's comparison takes for a node: its own, or that of
      the node's first child. */
  ghost function NodeLead(sc: map<Cell, Option<Message>>, next: map<Cell, nat>, c: Cell): Option<Message> {
    if Label(sc, c).Some? then Label(sc, c)
    else if c in next && next[c] > 0 then Label(sc, next[c])
    else None
  }

  method LeadOfNode(np: NodePool, c: Cell) returns (m: Message)
    requires np.sc.Keys == np.next.Keys && c in np.sc && NodeLead(np.sc, np.next, c).Some?
    ensures m == NodeLead(np.sc, np.next, c).value
  {
    if np.sc[c].Some? {
      m := np.sc[c].value;
    } else {
      m := np.sc[np.next[c]].value;
    }
  }

  /** The tops of trees. */
  ghost function Tops(f: seq<Rose>): (r: seq<Cell>)
    ensures |r| == |f| && forall i | 0 <= i < |f| :: r[i] == f[i].v
  {
    if f == [] then [] else [f[0].v] + Tops(f[1..])
  }

  ghost predicate Led(sc: map<Cell, Option<Message>>, next: map<Cell, nat>, cs: seq<Cell>) {
    forall i | 0 <= i < |cs| :: cs[i] in sc && NodeLead(sc, next, cs[i]).Some?
  }

  ghost function Leads(sc: map<Cell, Option<Message>>, next: map<Cell, nat>, cs: seq<Cell>): (r: seq<Message>)
    requires Led(sc, next, cs)
    ensures |r| == |cs| && forall i | 0 <= i < |cs| :: r[i] == NodeLead(sc, next, cs[i]).value
  {
    if cs == [] then [] else
    assert forall i | 0 <= i < |cs| - 1 :: cs[1..][i] == cs[i + 1];
    [NodeLead(sc, next, cs[0]).value] + Leads(sc, next, cs[1..])
  }

  /** Messages in order. */
  ghost predicate Ordered(ms: seq<Message>) {
    forall i, j | 0 <= i < j < |ms| :: Before(ms[i], ms[j])
  }

  /** The first `i + 1` messages are in order but for the one at `j`, which comes
      before those after it. */
  ghost predicate Sifting(ms: seq<Message>, i: nat, j: nat) {
    && j <= i < |ms|
    && forall a, b | 0 <= a < b <= i && b != j :: Before(ms[a], ms[b])
  }

  lemma Sift(ms: seq<Message>, ms': seq<Message>, i: nat, j: nat)
    requires Sifting(ms, i, j) && 0 < j && !Before(ms[j - 1], ms[j])
    requires ms' == ms[j - 1 := ms[j]][j := ms[j - 1]]
    ensures Sifting(ms', i, j - 1)
  {
  }

  lemma Sifted(ms: seq<Message>, i: nat, j: nat)
    requires Sifting(ms, i, j) && (j == 0 || Before(ms[j - 1], ms[j]))
    ensures Ordered(ms[..i + 1])
  {
    forall a | 0 <= a < j
      ensures Before(ms[a], ms[j])
    {
      if a < j - 1 {
        assert Before(ms[a], ms[j - 1]);
      }
    }
  }

  /** Stands for the C library's sort: orders the first `n` entries of the buffer,
      the tops of the trees `f`, by date and number. */
  method Qsort(np: NodePool, tc: array<Cell>, n: nat, ghost f: seq<Rose>) returns (ghost g: seq<Rose>)
    requires n <= tc.Length && np.Valid() && Led(np.sc, np.next, tc[..n]) && tc[..n] == Tops(f)
    modifies tc
    ensures multiset(g) == multiset(f) && tc[..n] == Tops(g)
    ensures Led(np.sc, np.next, tc[..n]) && Ordered(Leads(np.sc, np.next, tc[..n]))
  {
    hide Led, Ordered, NodeLead;
    OrderedNone(Leads(np.sc, np.next, tc[..n])[..0]);
    g := f;
    for i := 0 to n
      invariant multiset(g) == multiset(f) && tc[..n] == Tops(g)
      invariant Led(np.sc, np.next, tc[..n]) && Ordered(Leads(np.sc, np.next, tc[..n])[..i])
    {
      g := SiftDown(np, tc, n, i, g);
    }
    assert Leads(np.sc, np.next, tc[..n])[..n] == Leads(np.sc, np.next, tc[..n]);
  }

  lemma OrderedNone(ms: seq<Message>)
    requires ms == []
    ensures Ordered(ms)
  {
  }

  lemma StartSifting(ms: seq<Message>, i: nat)
    requires i < |ms| && Ordered(ms[..i])
    ensures Sifting(ms, i, i)
  {
    forall a, b | 0 <= a < b <= i && b != i
      ensures Before(ms[a], ms[b])
    {
      assert ms[..i][a] == ms[a] && ms[..i][b] == ms[b];
    }
  }

  lemma SwapMultiset<T>(s: seq<T>, j: nat)
    requires 0 < j < |s|
    ensures multiset(s[j - 1 := s[j]][j := s[j - 1]]) == multiset(s)
  {
  }

  lemma SwapLed(sc: map<Cell, Option<Message>>, next: map<Cell, nat>, cs: seq<Cell>, j: nat)
    requires 0 < j < |cs| && Led(sc, next, cs)
    ensures var cs' := cs[j - 1 := cs[j]][j := cs[j - 1]];
      Led(sc, next, cs') &&
      var ms := Leads(sc, next, cs); Leads(sc, next, cs') == ms[j - 1 := ms[j]][j := ms[j - 1]]
  {
    hide NodeLead;
  }

  lemma SwapKeeps(sc: map<Cell, Option<Message>>, next: map<Cell, nat>,
                  f: seq<Rose>, g: seq<Rose>, j: nat)
    requires 0 < j < |f| && g == f[j - 1 := f[j]][j := f[j - 1]] && Led(sc, next, Tops(f))
    ensures multiset(g) == multiset(f) && Led(sc, next, Tops(g))
    ensures Tops(g) == Tops(f)[j - 1 := f[j].v][j := f[j - 1].v]
    ensures var ms := Leads(sc, next, Tops(f)); Leads(sc, next, Tops(g)) == ms[j - 1 := ms[j]][j := ms[j - 1]]
  {
    hide NodeLead, Led, Leads, Tops;
    SwapMultiset(f, j);
    assert Tops(g) == Tops(f)[j - 1 := f[j].v][j := f[j - 1].v];
    SwapLed(sc, next, Tops(f), j);
  }

  /** Moves entry `i` down into the ordered entries before it. */
  method SiftDown(np: NodePool, tc: array<Cell>, n: nat, i: nat, ghost f: seq<Rose>) returns (ghost g: seq<Rose>)
    requires i < n <= tc.Length && np.Valid() && tc[..n] == Tops(f)
    requires Led(np.sc, np.next, tc[..n]) && Ordered(Leads(np.sc, np.next, tc[..n])[..i])
    modifies tc
    ensures multiset(g) == multiset(f) && tc[..n] == Tops(g)
    ensures Led(np.sc, np.next, tc[..n]) && Ordered(Leads(np.sc, np.next, tc[..n])[..i + 1])
  {
    hide Ordered, NodeLead, Sifting;
    var j := i;
    g := f;
    StartSifting(Leads(np.sc, np.next, Tops(g)), i);
    while j > 0
      invariant 0 <= j <= i
      invariant multiset(g) == multiset(f) && tc[..n] == Tops(g)
      invariant Led(np.sc, np.next, Tops(g)) && Sifting(Leads(np.sc, np.next, Tops(g)), i, j)
    {
      assert Tops(g)[j - 1] == tc[j - 1] && Tops(g)[j] == tc[j];
      var x := LeadOfNode(np, tc[j - 1]);
      var y := LeadOfNode(np, tc[j]);
      if Before(x, y) {
        break;
      }
      ghost var h := g[j - 1 := g[j]][j := g[j - 1]];
      SwapKeeps(np.sc, np.next, g, h, j);
      Sift(Leads(np.sc, np.next, Tops(g)), Leads(np.sc, np.next, Tops(h)), i, j);
      tc[j - 1], tc[j] := tc[j], tc[j - 1];
      g := h;
      j := j - 1;
    }
    Sifted(Leads(np.sc, np.next, Tops(g)), i, j);
  }

  // ---- Sorting one list of siblings ----

  /** The links below the top of a tree. */
  ghost predicate Hung(next: map<Cell, nat>, branch: map<Cell, nat>, t: Rose) {
    && t.v in next && t.v in branch
    && next[t.v] == Head(t.kids) && Linked(next, branch, t.kids, NIL)
  }

  lemma {:induction false} LinkedHung(next: map<Cell, nat>, branch: map<Cell, nat>, f: seq<Rose>, tail: nat)
    requires Linked(next, branch, f, tail)
    ensures forall t <- f :: Hung(next, branch, t)
  {
    if f != [] {
      LinkedHung(next, branch, f[1..], tail);
    }
  }

  /** A tree of a list is led by the message its top node is compared by. */
  lemma TreeIsLed(sc: map<Cell, Option<Message>>, branch: map<Cell, nat>, next: map<Cell, nat>,
                  f: seq<Rose>, i: nat)
    requires i < |f| && Hung(next, branch, f[i]) && Shaped(Show(sc, f))
    ensures NodeLead(sc, next, f[i].v) == Some(Lead(Show(sc, f)[i]))
  {
    ShowAt(sc, f, i);
    if f[i].kids != [] {
      ShowAt(sc, f[i].kids, 0);
      PlainMember(Show(sc, f[i].kids), 0);
    }
  }

  lemma MultisetSplit<T>(f: seq<T>, g: seq<T>)
    requires f != [] && multiset(f) == multiset(g)
    ensures exists k :: 0 <= k < |g| && g[k] == f[0] && multiset(f[1..]) == multiset(g[..k] + g[k + 1..])
  {
    assert f[0] in multiset(f);
    assert f[0] in g;
    var k :| 0 <= k < |g| && g[k] == f[0];
    assert f == [f[0]] + f[1..];
    assert g == g[..k] + [g[k]] + g[k + 1..];
    assert multiset(f) == multiset(f[1..]) + multiset{f[0]};
    assert multiset(g) == multiset(g[..k] + g[k + 1..]) + multiset{f[0]};
    MultisetCancel(multiset(f[1..]), multiset(g[..k] + g[k + 1..]), multiset{f[0]});
  }

  lemma MultisetCancel<T>(a: multiset<T>, b: multiset<T>, c: multiset<T>)
    requires a + c == b + c
    ensures a == b
  {
    assert a == (a + c) - c;
  }

  /** Rearranging the trees rearranges the cells. */
  lemma {:induction false} PrePermuted(f: seq<Rose>, g: seq<Rose>)
    requires multiset(f) == multiset(g)
    ensures multiset(Pre(f)) == multiset(Pre(g))
  {
    if f == [] {
      assert |g| == |multiset(g)| == 0;
    } else {
      MultisetSplit(f, g);
      var k :| 0 <= k < |g| && g[k] == f[0] && multiset(f[1..]) == multiset(g[..k] + g[k + 1..]);
      PrePermuted(f[1..], g[..k] + g[k + 1..]);
      PreMoved(f, g, k);
    }
  }

  lemma PreMoved(f: seq<Rose>, g: seq<Rose>, k: nat)
    requires f != [] && k < |g| && g[k] == f[0]
    requires multiset(Pre(f[1..])) == multiset(Pre(g[..k] + g[k + 1..]))
    ensures multiset(Pre(f)) == multiset(Pre(g))
  {
    hide Pre;
    var a, t, b := g[..k], [f[0]], g[k + 1..];
    PreAppend(a, b);
    PreAppend(a, t + b);
    PreAppend(t, b);
    assert g == a + (t + b);
    PreAppend(t, f[1..]);
    assert f == t + f[1..];
  }

  lemma NoDupPermuted(s: seq<Cell>, t: seq<Cell>)
    requires multiset(s) == multiset(t) && NoDup(s)
    ensures NoDup(t)
  {
    forall i, j | 0 <= i < j < |t|
      ensures t[i] != t[j]
    {
      if t[i] == t[j] {
        assert t == t[..i] + [t[i]] + t[i + 1..j] + [t[j]] + t[j + 1..];
        assert multiset(t)[t[i]] >= 2;
        OneOnly(s, t[i]);
      }
    }
  }

  lemma {:induction false} OneOnly(s: seq<Cell>, c: Cell)
    requires NoDup(s)
    ensures multiset(s)[c] <= 1
  {
    if s != [] {
      assert s == [s[0]] + s[1..];
      forall i, j | 0 <= i < j < |s[1..]|
        ensures s[1..][i] != s[1..][j]
      {
        assert s[i + 1] != s[j + 1];
      }
      OneOnly(s[1..], c);
      forall j | 0 <= j < |s| - 1
        ensures s[1..][j] != s[0]
      {
        assert s[0] != s[j + 1];
      }
    }
  }

  /** Loads the list into the buffer and counts it. */
  method Load(np: NodePool, thr: nat, tc: array<Cell>, ghost f: seq<Rose>) returns (n: nat)
    requires Linked(np.next, np.branch, f, NIL) && thr == Head(f) && |f| <= tc.Length
    modifies tc
    ensures n == |f| && tc[..n] == Tops(f)
  {
    n := 0;
    var cur := thr;
    ghost var rest := f;
    while cur != NIL
      invariant n <= |f| && rest == f[n..] && cur == Head(rest) && Linked(np.next, np.branch, rest, NIL)
      invariant tc[..n] == Tops(f)[..n]
      decreases |rest|
    {
      assert rest[0] == f[n] && rest[1..] == f[n + 1..];
      tc[n] := cur;
      n := n + 1;
      cur := np.branch[cur];
      rest := rest[1..];
    }
  }

  ghost predicate NoRepeat(s: seq<Cell>) {
    s == [] || (s[0] !in s[1..] && NoRepeat(s[1..]))
  }

  /** The sibling links along `vs`, all others as they were. */
  ghost function Strung(branch: map<Cell, nat>, vs: seq<Cell>): map<Cell, nat> {
    if vs == [] then branch
    else Strung(branch, vs[1..])[vs[0] := if |vs| > 1 then vs[1] else NIL]
  }

  lemma {:induction false} StrungOnce(branch: map<Cell, nat>, vs: seq<Cell>, c: Cell, x: nat)
    requires c !in vs
    ensures Strung(branch[c := x], vs) == Strung(branch, vs)[c := x]
  {
    if vs != [] {
      StrungOnce(branch, vs[1..], c, x);
      var y: nat := if |vs| > 1 then vs[1] else NIL;
      assert Strung(branch, vs[1..])[c := x][vs[0] := y] == Strung(branch, vs[1..])[vs[0] := y][c := x];
    }
  }

  lemma {:induction false} StrungLinked(next: map<Cell, nat>, branch: map<Cell, nat>, g: seq<Rose>)
    requires NoDup(Pre(g))
    requires forall i | 0 <= i < |g| :: Hung(next, branch, g[i])
    ensures Linked(next, Strung(branch, Tops(g)), g, NIL)
    ensures forall c: Cell :: c !in Pre(g) ==> (c in Strung(branch, Tops(g)) <==> c in branch)
    ensures forall c: Cell :: c in branch && c !in Tops(g) ==>
      c in Strung(branch, Tops(g)) && Strung(branch, Tops(g))[c] == branch[c]
    decreases |g|
  {
    if g != [] {
      var t, rest := g[0], g[1..];
      NoDupConcat([t.v] + Pre(t.kids), Pre(rest));
      NoDupConcat([t.v], Pre(t.kids));
      forall i | 0 <= i < |rest|
        ensures Hung(next, branch, rest[i])
      {
        assert rest[i] == g[i + 1];
      }
      StrungLinked(next, branch, rest);
      assert Tops(g)[1..] == Tops(rest);
      TopsInPre(rest);
      var branch1, branch' := Strung(branch, Tops(rest)), Strung(branch, Tops(g));
      LinkedFrame(next, branch, next, branch', t.kids, NIL);
      LinkedFrame(next, branch1, next, branch', rest, NIL);
    }
  }

  lemma {:induction false} TopsInPre(f: seq<Rose>)
    ensures forall c <- Tops(f) :: c in Pre(f)
  {
    if f != [] {
      TopsInPre(f[1..]);
      assert Tops(f)[1..] == Tops(f[1..]);
    }
  }

  lemma {:induction false} TopsNoRepeat(f: seq<Rose>)
    requires NoDup(Pre(f))
    ensures NoRepeat(Tops(f))
  {
    if f != [] {
      NoDupConcat([f[0].v] + Pre(f[0].kids), Pre(f[1..]));
      TopsNoRepeat(f[1..]);
      TopsInPre(f[1..]);
      assert Tops(f)[1..] == Tops(f[1..]);
    }
  }

  /** Relinks the nodes in the buffer in the order they stand there. */
  method Relink(np: NodePool, tc: array<Cell>, n: nat)
    requires 0 < n <= tc.Length && NoRepeat(tc[..n]) && np.Valid() && forall c <- tc[..n] :: c in np.branch
    modifies np`branch
    ensures np.Valid() && np.branch == Strung(old(np.branch), tc[..n])
  {
    var j := 0;
    ghost var vs := tc[..n];
    while j < n - 1
      invariant 0 <= j < n && vs[..n] == tc[..n] == vs
      invariant NoRepeat(vs[j..])
      invariant np.branch.Keys == old(np.branch.Keys)
      invariant Strung(np.branch, vs[j..]) == Strung(old(np.branch), vs)
    {
      assert vs[j..][1..] == vs[j + 1..] && vs[j..][0] == vs[j] && vs[j + 1..][0] == vs[j + 1];
      StrungOnce(np.branch, vs[j + 1..], vs[j], vs[j + 1]);
      assert vs[j] in vs;
      np.branch := np.branch[tc[j] := tc[j + 1]];
      j := j + 1;
    }
    assert vs[j..] == [vs[j]] && vs[j] in vs;
    np.branch := np.branch[tc[j] := NIL];
  }

  /** Sorts one list of siblings: what stays below each node stays there. */
  method SortSiblings(np: NodePool, thr: nat, tc: array<Cell>, ghost f: seq<Rose>)
    returns (ret: nat, ghost g: seq<Rose>)
    requires np.Valid() && Linked(np.next, np.branch, f, NIL) && NoDup(Pre(f)) && thr == Head(f)
    requires Shaped(Show(np.sc, f)) && |f| <= tc.Length
    modifies tc, np`branch
    ensures np.Valid() && Linked(np.next, np.branch, g, NIL) && NoDup(Pre(g)) && ret == Head(g)
    ensures multiset(g) == multiset(f)
    ensures Shaped(Show(np.sc, g)) && Sorted(Show(np.sc, g))
    ensures forall c {:trigger np.branch[c]} | c in old(np.branch) && c !in Pre(f) :: np.branch[c] == old(np.branch)[c]
  {
    hide Show, Hung, Linked, Pre, NoDup, Led, Ordered, Sorted, Shaped, Strung;
    var n := Load(np, thr, tc, f);
    LinkedHung(np.next, np.branch, f, NIL);
    g := f;
    if n > 1 {
      TopsLed(np.sc, np.branch, np.next, f);
      g := Qsort(np, tc, n, f);
      SortedList(np.sc, np.branch, np.next, f, g);
      OrderedSorted(np.sc, np.branch, np.next, g);
      Relink(np, tc, n);
    } else {
      ShortSorted(np.sc, f);
    }
    ret := NIL;
    if n > 0 {
      assert tc[..n][0] == Tops(g)[0];
      ret := tc[0];
    }
  }

  lemma OrderedSorted(sc: map<Cell, Option<Message>>, branch: map<Cell, nat>, next: map<Cell, nat>, g: seq<Rose>)
    requires (forall t <- g :: Hung(next, branch, t)) && Shaped(Show(sc, g)) && sc.Keys == next.Keys
    requires Led(sc, next, Tops(g)) && Ordered(Leads(sc, next, Tops(g)))
    ensures Sorted(Show(sc, g))
  {
    TopsLed(sc, branch, next, g);
  }

  lemma ShortSorted(sc: map<Cell, Option<Message>>, f: seq<Rose>)
    requires Shaped(Show(sc, f)) && |f| <= 1
    ensures Sorted(Show(sc, f))
  {
  }

  lemma {:induction false} TopsLed(sc: map<Cell, Option<Message>>, branch: map<Cell, nat>, next: map<Cell, nat>,
                                   f: seq<Rose>)
    requires (forall t <- f :: Hung(next, branch, t)) && Shaped(Show(sc, f))
    requires sc.Keys == next.Keys
    ensures Led(sc, next, Tops(f))
    ensures var ms := Leads(sc, next, Tops(f)); forall i | 0 <= i < |f| :: ms[i] == Lead(Show(sc, f)[i])
  {
    forall i | 0 <= i < |f|
      ensures Tops(f)[i] in sc && NodeLead(sc, next, Tops(f)[i]) == Some(Lead(Show(sc, f)[i]))
    {
      assert f[i] in f && Hung(next, branch, f[i]);
      TreeIsLed(sc, branch, next, f, i);
    }
  }

  lemma {:induction false} ShowPermuted(sc: map<Cell, Option<Message>>, f: seq<Rose>, g: seq<Rose>)
    requires multiset(f) == multiset(g)
    ensures multiset(Show(sc, f)) == multiset(Show(sc, g))
  {
    if f == [] {
      assert |g| == |multiset(g)| == 0;
    } else {
      MultisetSplit(f, g);
      var k :| 0 <= k < |g| && g[k] == f[0] && multiset(f[1..]) == multiset(g[..k] + g[k + 1..]);
      ShowPermuted(sc, f[1..], g[..k] + g[k + 1..]);
      ShowMoved(sc, f, g, k);
    }
  }

  lemma ShowMoved(sc: map<Cell, Option<Message>>, f: seq<Rose>, g: seq<Rose>, k: nat)
    requires f != [] && k < |g| && g[k] == f[0]
    requires multiset(Show(sc, f[1..])) == multiset(Show(sc, g[..k] + g[k + 1..]))
    ensures multiset(Show(sc, f)) == multiset(Show(sc, g))
  {
    hide Show;
    var a, t, b := g[..k], [f[0]], g[k + 1..];
    ShowAppend(sc, a, b);
    ShowAppend(sc, a, t + b);
    ShowAppend(sc, t, b);
    assert g == a + (t + b);
    ShowAppend(sc, t, f[1..]);
    assert f == t + f[1..];
  }

  lemma ShapedPermuted(ts: seq<Thread>, us: seq<Thread>)
    requires multiset(ts) == multiset(us) && Shaped(ts)
    ensures Shaped(us)
  {
    forall i | 0 <= i < |us|
      ensures Rooted(us[i])
    {
      assert us[i] in multiset(us);
      assert us[i] in ts;
    }
  }

  /** What relinking the trees in their new order gives. */
  lemma SortedList(sc: map<Cell, Option<Message>>, branch: map<Cell, nat>, next: map<Cell, nat>,
                   f: seq<Rose>, g: seq<Rose>)
    requires (forall t <- f :: Hung(next, branch, t)) && NoDup(Pre(f)) && Shaped(Show(sc, f)) && sc.Keys == next.Keys
    requires multiset(g) == multiset(f)
    ensures NoDup(Pre(g)) && NoRepeat(Tops(g)) && (forall c <- Tops(g) :: c in branch)
    ensures forall c: Cell :: c in Pre(g) <==> c in Pre(f)
    ensures Linked(next, Strung(branch, Tops(g)), g, NIL)
    ensures forall c: Cell :: c in branch && c !in Pre(f) ==>
      c in Strung(branch, Tops(g)) && Strung(branch, Tops(g))[c] == branch[c]
    ensures Shaped(Show(sc, g)) && (forall t <- g :: Hung(next, branch, t))
  {
    hide Show, Hung;
    PrePermuted(f, g);
    NoDupPermuted(Pre(f), Pre(g));
    forall t <- g
      ensures t in f
    {
      assert t in multiset(g);
    }
    StrungLinked(next, branch, g);
    TopsNoRepeat(g);
    TopsInPre(g);
    ShowPermuted(sc, f, g);
    ShapedPermuted(Show(sc, f), Show(sc, g));
    forall c: Cell
      ensures c in Pre(g) <==> c in Pre(f)
    {
      assert c in Pre(g) <==> c in multiset(Pre(g));
      assert c in Pre(f) <==> c in multiset(Pre(f));
    }
    TopsHung(next, branch, g);
  }

  lemma TopsHung(next: map<Cell, nat>, branch: map<Cell, nat>, g: seq<Rose>)
    requires forall t <- g :: Hung(next, branch, t)
    ensures forall c <- Tops(g) :: c in branch
  {
    forall c <- Tops(g)
      ensures c in branch
    {
      var i :| 0 <= i < |g| && Tops(g)[i] == c;
      assert g[i] in g;
    }
  }

  // ---- Sorting whole trees ----

  /** Links outside the cells in `s` are as they were. */
  ghost predicate Beside(m: map<Cell, nat>, m': map<Cell, nat>, s: seq<Cell>) {
    m'.Keys == m.Keys && forall c {:trigger m'[c]} | c in m && c !in s :: m'[c] == m[c]
  }

  ghost predicate SameCells(s: seq<Cell>, t: seq<Cell>) {
    forall c: Cell :: c in s <==> c in t
  }

  /** A list of nodes without repeats. */
  ghost predicate Listed(next: map<Cell, nat>, branch: map<Cell, nat>, f: seq<Rose>) {
    Linked(next, branch, f, NIL) && NoDup(Pre(f))
  }

  /** The list after the children of its node at `|done|` were replaced by `k`. */
  lemma KidsReplaced(next: map<Cell, nat>, branch: map<Cell, nat>, next': map<Cell, nat>, branch': map<Cell, nat>,
                     done: seq<Rose>, rest: seq<Rose>, k: seq<Rose>)
    requires rest != [] && Linked(next, branch, done + rest, NIL) && NoDup(Pre(done + rest))
    requires Beside(next, next', Pre(rest[0].kids)) && Beside(branch, branch', Pre(rest[0].kids))
    requires Linked(next', branch', k, NIL) && NoDup(Pre(k)) && SameCells(Pre(k), Pre(rest[0].kids))
    ensures var f := done + [Node(rest[0].v, k)] + rest[1..];
      Linked(next'[rest[0].v := Head(k)], branch', f, NIL) && NoDup(Pre(f)) && SameCells(Pre(f), Pre(done + rest))
  {
    hide NoDup, Pre, Linked;
    var t, n, r := rest[0], Node(rest[0].v, k), rest[1..];
    var next2 := next'[t.v := Head(k)];
    CellsReplaced(done, rest, k);
    LinkedAppend(next, branch, done, rest, NIL);
    FirstSplit(next, branch, rest);
    LinkedFrame(next, branch, next2, branch', done, t.v);
    LinkedFrame(next, branch, next2, branch', r, NIL);
    LinkedFrame(next', branch', next2, branch', k, NIL);
    FirstJoin(next2, branch', n, r);
    LinkedAppend(next2, branch', done, [n] + r, NIL);
    assert done + [n] + r == done + ([n] + r);
  }

  lemma FirstSplit(next: map<Cell, nat>, branch: map<Cell, nat>, rest: seq<Rose>)
    requires rest != [] && Linked(next, branch, rest, NIL)
    ensures Linked(next, branch, rest[1..], NIL) && Linked(next, branch, rest[0].kids, NIL)
    ensures rest[0].v in next && rest[0].v in branch
    ensures branch[rest[0].v] == Head(rest[1..]) && next[rest[0].v] == Head(rest[0].kids)
  {
  }

  lemma FirstJoin(next: map<Cell, nat>, branch: map<Cell, nat>, n: Rose, r: seq<Rose>)
    requires Linked(next, branch, r, NIL) && Linked(next, branch, n.kids, NIL)
    requires n.v in next && n.v in branch && branch[n.v] == Head(r) && next[n.v] == Head(n.kids)
    ensures Linked(next, branch, [n] + r, NIL)
  {
    assert ([n] + r)[1..] == r;
  }

  lemma CellsReplaced(done: seq<Rose>, rest: seq<Rose>, k: seq<Rose>)
    requires rest != [] && NoDup(Pre(done + rest)) && NoDup(Pre(k)) && SameCells(Pre(k), Pre(rest[0].kids))
    ensures var f := done + [Node(rest[0].v, k)] + rest[1..]; NoDup(Pre(f)) && SameCells(Pre(f), Pre(done + rest))
    ensures rest[0].v !in Pre(k) && rest[0].v !in Pre(done) && rest[0].v !in Pre(rest[1..])
    ensures rest[0].v !in Pre(rest[0].kids)
    ensures forall c <- Pre(rest[0].kids) :: c !in Pre(done) && c !in Pre(rest[1..])
  {
    hide NoDup, Pre;
    var t, n, r := rest[0], Node(rest[0].v, k), rest[1..];
    PreAppend(done, rest);
    PreSplit(n, r);
    PreSplit(t, r);
    assert [t] + r == rest;
    assert done + [n] + r == done + ([n] + r);
    PreAppend(done, [n] + r);
    NoDupConcat(Pre(done), Pre(rest));
    NoDupConcat([t.v] + Pre(t.kids), Pre(r));
    NoDupConcat([t.v], Pre(t.kids));
    NoDupConcat([t.v], Pre(k));
    NoDupConcat([t.v] + Pre(k), Pre(r));
    NoDupConcat(Pre(done), Pre([n] + r));
  }

  lemma PreSplit(n: Rose, r: seq<Rose>)
    ensures Pre([n] + r) == [n.v] + Pre(n.kids) + Pre(r)
  {
    assert ([n] + r)[1..] == r;
  }

  /** What sorting needs of a list: proper threads of different messages, no more
      of them than the buffer has entries. */
  ghost predicate Sortable(sc: map<Cell, Option<Message>>, f: seq<Rose>, n: nat) {
    var ts := Show(sc, f);
    Shaped(ts) && DistinctNums(ts) && |MessagesOf(ts)| <= n
  }

  lemma SortableParts(sc: map<Cell, Option<Message>>, f: seq<Rose>, n: nat)
    requires Sortable(sc, f, n) && f != []
    ensures Sortable(sc, f[0].kids, n) && Sortable(sc, f[1..], n)
    ensures Shaped(Show(sc, f)) && Shaped(Show(sc, f[0].kids)) && Shaped(Show(sc, f[1..]))
    ensures SortEach(Show(sc, f)) ==
      [Thread(Label(sc, f[0].v), SortAll(Show(sc, f[0].kids)))] + SortEach(Show(sc, f[1..]))
  {
    var ts := Show(sc, f);
    assert ts[1..] == Show(sc, f[1..]);
    PlainIsShaped(ts[0].kids);
    DistinctKids(ts);
    MessagesCons(ts);
    MessagesOfOne(ts[0]);
  }

  /** The state while the children of the nodes of `f` are sorted one after the
      other: `done` has them sorted, `rest` not yet. */
  ghost predicate KidsState(sc: map<Cell, Option<Message>>, next: map<Cell, nat>, branch: map<Cell, nat>,
                            f: seq<Rose>, done: seq<Rose>, rest: seq<Rose>, n: nat) {
    && Listed(next, branch, done + rest)
    && SameCells(Pre(done + rest), Pre(f)) && |Pre(rest)| <= |Pre(f)|
    && Head(done + rest) == Head(f)
    && Sortable(sc, f, n) && Sortable(sc, rest, n)
    && Show(sc, done) + SortEach(Show(sc, rest)) == SortEach(Show(sc, f))
  }

  lemma KidsStart(sc: map<Cell, Option<Message>>, next: map<Cell, nat>, branch: map<Cell, nat>,
                  f: seq<Rose>, n: nat)
    requires Listed(next, branch, f) && Sortable(sc, f, n)
    ensures KidsState(sc, next, branch, f, [], f, n)
  {
    assert [] + f == f;
    assert [] + SortEach(Show(sc, f)) == SortEach(Show(sc, f));
  }

  lemma KidsCurrent(sc: map<Cell, Option<Message>>, next: map<Cell, nat>, branch: map<Cell, nat>,
                    f: seq<Rose>, done: seq<Rose>, rest: seq<Rose>, n: nat)
    requires KidsState(sc, next, branch, f, done, rest, n) && rest != []
    ensures rest[0].v in next && rest[0].v in branch && rest[0].v in Pre(f)
    ensures next[rest[0].v] == Head(rest[0].kids) && branch[rest[0].v] == Head(rest[1..])
    ensures Listed(next, branch, rest[0].kids) && Sortable(sc, rest[0].kids, n)
    ensures |Pre(rest[0].kids)| < |Pre(f)| && forall c <- Pre(rest[0].kids) :: c in Pre(f)
  {
    LinkedAppend(next, branch, done, rest, NIL);
    PreAppend(done, rest);
    SortableParts(sc, rest, n);
    NoDupConcat(Pre(done), Pre(rest));
    NoDupConcat([rest[0].v] + Pre(rest[0].kids), Pre(rest[1..]));
    NoDupConcat([rest[0].v], Pre(rest[0].kids));
  }

  lemma KidsStep(sc: map<Cell, Option<Message>>, next: map<Cell, nat>, branch: map<Cell, nat>,
                 next': map<Cell, nat>, branch': map<Cell, nat>,
                 f: seq<Rose>, done: seq<Rose>, rest: seq<Rose>, k: seq<Rose>, n: nat)
    requires KidsState(sc, next, branch, f, done, rest, n) && rest != []
    requires Beside(next, next', Pre(rest[0].kids)) && Beside(branch, branch', Pre(rest[0].kids))
    requires Listed(next', branch', k) && SameCells(Pre(k), Pre(rest[0].kids))
    requires Shaped(Show(sc, rest[0].kids)) && Show(sc, k) == SortAll(Show(sc, rest[0].kids))
    ensures KidsState(sc, next'[rest[0].v := Head(k)], branch', f, done + [Node(rest[0].v, k)], rest[1..], n)
    ensures rest[0].v in branch' && branch'[rest[0].v] == Head(rest[1..])
  {
    hide Linked, NoDup, Show, Sortable, SortAll, SortEach, SameCells, Beside, Pre, Shaped;
    var t, done' := rest[0], done + [Node(rest[0].v, k)];
    KidsCurrent(sc, next, branch, f, done, rest, n);
    CellsReplaced(done, rest, k);
    KidsReplaced(next, branch, next', branch', done, rest, k);
    SameCellsTrans(Pre(done' + rest[1..]), Pre(done + rest), Pre(f));
    BesideAt(branch, branch', Pre(rest[0].kids), t.v);
    SortableParts(sc, rest, n);
    RestSmaller(rest);
    ShowStep(sc, done, rest, k);
    assert Head(done' + rest[1..]) == Head(done + rest);
  }

  lemma SameCellsTrans(s: seq<Cell>, t: seq<Cell>, u: seq<Cell>)
    requires SameCells(s, t) && SameCells(t, u)
    ensures SameCells(s, u)
  {
  }

  lemma BesideAt(m: map<Cell, nat>, m': map<Cell, nat>, s: seq<Cell>, c: Cell)
    requires Beside(m, m', s) && c in m && c !in s
    ensures c in m' && m'[c] == m[c]
  {
  }

  lemma RestSmaller(rest: seq<Rose>)
    requires rest != []
    ensures |Pre(rest[1..])| < |Pre(rest)|
  {
  }

  lemma ShowStep(sc: map<Cell, Option<Message>>, done: seq<Rose>, rest: seq<Rose>, k: seq<Rose>)
    requires rest != [] && Shaped(Show(sc, rest)) && Shaped(Show(sc, rest[0].kids)) && Shaped(Show(sc, rest[1..]))
    requires SortEach(Show(sc, rest)) ==
      [Thread(Label(sc, rest[0].v), SortAll(Show(sc, rest[0].kids)))] + SortEach(Show(sc, rest[1..]))
    requires Show(sc, k) == SortAll(Show(sc, rest[0].kids))
    ensures Show(sc, done + [Node(rest[0].v, k)]) + SortEach(Show(sc, rest[1..])) ==
      Show(sc, done) + SortEach(Show(sc, rest))
  {
    hide Show, SortAll, SortEach, Shaped;
    ShowAppend(sc, done, [Node(rest[0].v, k)]);
    ShowOne(sc, Node(rest[0].v, k));
  }

  lemma ShowOne(sc: map<Cell, Option<Message>>, t: Rose)
    ensures Show(sc, [t]) == [Thread(Label(sc, t.v), Show(sc, t.kids))]
  {
    assert [t][1..] == [];
  }

  lemma KidsEnd(sc: map<Cell, Option<Message>>, next: map<Cell, nat>, branch: map<Cell, nat>,
                f: seq<Rose>, done: seq<Rose>, n: nat)
    requires KidsState(sc, next, branch, f, done, [], n)
    ensures Listed(next, branch, done) && SameCells(Pre(done), Pre(f)) && Head(done) == Head(f)
    ensures Shaped(Show(sc, f)) && Show(sc, done) == SortEach(Show(sc, f)) && |done| <= n
    ensures Shaped(Show(sc, done)) && Numbered(Show(sc, done))
  {
    assert done + [] == done;
    assert Show(sc, done) + [] == Show(sc, done);
    var ts := Show(sc, f);
    SortEachMessages(ts);
    NumsPermuted(MessagesOf(ts), MessagesOf(SortEach(ts)));
    DistinctIsNumbered(SortEach(ts));
    AtLeastOneMessageEach(ts);
  }

  lemma NumsPermuted(s: seq<Message>, t: seq<Message>)
    requires multiset(s) == multiset(t) && forall i, j | 0 <= i < j < |s| :: s[i].num != s[j].num
    ensures forall i, j | 0 <= i < j < |t| :: t[i].num != t[j].num
  {
    forall i, j | 0 <= i < j < |t|
      ensures t[i].num != t[j].num
    {
      assert t[i] in multiset(t) && t[j] in multiset(t);
      assert t[i] in s && t[j] in s;
      if t[i] == t[j] {
        assert t == t[..i] + [t[i]] + t[i + 1..j] + [t[j]] + t[j + 1..];
        assert multiset(t)[t[i]] >= 2;
        OneMessage(s, t[i]);
      }
    }
  }

  lemma {:induction false} OneMessage(s: seq<Message>, m: Message)
    requires forall i, j | 0 <= i < j < |s| :: s[i].num != s[j].num
    ensures multiset(s)[m] <= 1
  {
    if s != [] {
      assert s == [s[0]] + s[1..];
      forall i, j | 0 <= i < j < |s[1..]|
        ensures s[1..][i].num != s[1..][j].num
      {
        assert s[i + 1].num != s[j + 1].num;
      }
      OneMessage(s[1..], m);
      forall j | 0 <= j < |s| - 1
        ensures s[1..][j] != s[0]
      {
        assert s[0].num != s[j + 1].num;
      }
    }
  }

  lemma BesideSelf(m: map<Cell, nat>, s: seq<Cell>)
    ensures Beside(m, m, s)
  {
  }

  lemma BesideMore(m: map<Cell, nat>, m': map<Cell, nat>, m'': map<Cell, nat>, s: seq<Cell>, t: seq<Cell>)
    requires Beside(m, m', s) && Beside(m', m'', t) && forall c <- t :: c in s
    ensures Beside(m, m'', s)
  {
  }

  lemma BesideOne(m: map<Cell, nat>, m': map<Cell, nat>, s: seq<Cell>, t: seq<Cell>, c: Cell, x: nat)
    requires Beside(m, m', t) && (forall d <- t :: d in s) && c in s && c in m
    ensures Beside(m, m', s) && Beside(m, m'[c := x], s)
  {
  }

  /** Sorts the children of every node of a list. */
  method SortKids(np: NodePool, thr: nat, tc: array<Cell>, ghost f: seq<Rose>) returns (ghost h: seq<Rose>)
    requires np.Valid() && Listed(np.next, np.branch, f) && thr == Head(f) && Sortable(np.sc, f, tc.Length)
    modifies tc, np`branch, np`next
    ensures np.Valid() && KidsState(np.sc, np.next, np.branch, f, h, [], tc.Length)
    ensures Beside(old(np.next), np.next, Pre(f)) && Beside(old(np.branch), np.branch, Pre(f))
    decreases |Pre(f)|, 1
  {
    hide KidsState, Listed, Sortable, Beside;
    var cur := thr;
    ghost var done, rest := [], f;
    KidsStart(np.sc, np.next, np.branch, f, tc.Length);
    BesideSelf(np.next, Pre(f));
    BesideSelf(np.branch, Pre(f));
    while cur != NIL
      invariant np.Valid() && KidsState(np.sc, np.next, np.branch, f, done, rest, tc.Length) && cur == Head(rest)
      invariant Beside(old(np.next), np.next, Pre(f)) && Beside(old(np.branch), np.branch, Pre(f))
      decreases |rest|
    {
      ghost var next0, branch0 := np.next, np.branch;
      ghost var k := SortKidsOfOne(np, cur, tc, f, done, rest);
      BesideMore(old(np.next), next0, np.next, Pre(f), Pre(f));
      BesideMore(old(np.branch), branch0, np.branch, Pre(f), Pre(f));
      cur := np.branch[cur];
      done, rest := done + [Node(rest[0].v, k)], rest[1..];
    }
    h := done;
  }

  method SortKidsOfOne(np: NodePool, cur: Cell, tc: array<Cell>,
                       ghost f: seq<Rose>, ghost done: seq<Rose>, ghost rest: seq<Rose>)
    returns (ghost k: seq<Rose>)
    requires np.Valid() && KidsState(np.sc, np.next, np.branch, f, done, rest, tc.Length)
    requires rest != [] && cur == rest[0].v
    modifies tc, np`branch, np`next
    ensures np.Valid() && KidsState(np.sc, np.next, np.branch, f, done + [Node(cur, k)], rest[1..], tc.Length)
    ensures cur in np.branch && np.branch[cur] == Head(rest[1..])
    ensures Beside(old(np.next), np.next, Pre(f)) && Beside(old(np.branch), np.branch, Pre(f))
    decreases |Pre(f)|, 0
  {
    hide KidsState, Listed, Sortable, Beside, Pre, Show;
    KidsCurrent(np.sc, np.next, np.branch, f, done, rest, tc.Length);
    ghost var next0, branch0, kids := np.next, np.branch, rest[0].kids;
    ghost var next1 := next0;
    k := [];
    if np.next[cur] != NIL {
      var nxt;
      nxt, k := MailThreadSort(np, np.next[cur], tc, kids);
      next1 := np.next;
      np.next := np.next[cur := nxt];
    } else {
      NoKids(np.sc, next0, branch0, kids);
      assert next0[cur := NIL] == next0;
    }
    KidsStep(np.sc, next0, branch0, next1, np.branch, f, done, rest, k, tc.Length);
    BesideOne(next0, next1, Pre(f), Pre(kids), cur, Head(k));
    BesideOne(branch0, np.branch, Pre(f), Pre(kids), cur, NIL);
  }

  lemma NoKids(sc: map<Cell, Option<Message>>, next: map<Cell, nat>, branch: map<Cell, nat>, f: seq<Rose>)
    requires f == []
    ensures Shaped(Show(sc, f)) && Show(sc, []) == SortAll(Show(sc, f))
    ensures Listed(next, branch, []) && SameCells(Pre([]), Pre(f))
    ensures Beside(next, next, Pre(f)) && Beside(branch, branch, Pre(f))
  {
  }

  /** Step 6: sorts a list and everything below it. */
  method MailThreadSort(np: NodePool, thr: nat, tc: array<Cell>, ghost f: seq<Rose>)
    returns (ret: nat, ghost g: seq<Rose>)
    requires np.Valid() && Listed(np.next, np.branch, f) && thr == Head(f) && Sortable(np.sc, f, tc.Length)
    modifies tc, np`branch, np`next
    ensures np.Valid() && Listed(np.next, np.branch, g) && ret == Head(g) && SameCells(Pre(g), Pre(f))
    ensures Beside(old(np.next), np.next, Pre(f)) && Beside(old(np.branch), np.branch, Pre(f))
    ensures Shaped(Show(np.sc, f)) && Show(np.sc, g) == SortAll(Show(np.sc, f))
    decreases |Pre(f)|, 2
  {
    hide KidsState, Sortable, Beside, Pre, Show, NoDup, Linked, SortAll, SameCells;
    ghost var h := SortKids(np, thr, tc, f);
    KidsEnd(np.sc, np.next, np.branch, f, h, tc.Length);
    ghost var branch1 := np.branch;
    ret, g := SortSiblings(np, thr, tc, h);
    SortedOnce(np.sc, f, h, g);
    BesideSiblings(old(np.branch), branch1, np.branch, f, h);
  }

  lemma SortedOnce(sc: map<Cell, Option<Message>>, f: seq<Rose>, h: seq<Rose>, g: seq<Rose>)
    requires Shaped(Show(sc, f)) && Shaped(Show(sc, h)) && Shaped(Show(sc, g))
    requires Show(sc, h) == SortEach(Show(sc, f)) && Numbered(Show(sc, h))
    requires multiset(g) == multiset(h) && Sorted(Show(sc, g)) && SameCells(Pre(h), Pre(f))
    ensures Show(sc, g) == SortAll(Show(sc, f)) && SameCells(Pre(g), Pre(f))
  {
    hide Show, Pre, Sorted, Rooted, Sort, SortEach, SortAll, Numbered;
    SortAllIs(Show(sc, f));
    SortedRoots(sc, h, g);
    PrePermuted(g, h);
    forall c: Cell
      ensures c in Pre(g) <==> c in Pre(h)
    {
      assert c in Pre(g) <==> c in multiset(Pre(g));
      assert c in Pre(h) <==> c in multiset(Pre(h));
    }
  }

  lemma SortAllIs(ts: seq<Thread>)
    requires Shaped(ts)
    ensures SortAll(ts) == Sort(SortEach(ts))
  {
  }

  /** An ordered rearrangement shows the sorted threads. */
  lemma SortedRoots(sc: map<Cell, Option<Message>>, f: seq<Rose>, g: seq<Rose>)
    requires multiset(f) == multiset(g) && Shaped(Show(sc, f)) && Shaped(Show(sc, g)) && Sorted(Show(sc, g))
    requires Numbered(Show(sc, f))
    ensures Show(sc, g) == Sort(Show(sc, f))
  {
    hide Show, Rooted;
    var ts, us := Show(sc, f), Show(sc, g);
    ShowPermuted(sc, g, f);
    SortFacts(ts);
    forall t <- us
      ensures t in ts
    {
      assert t in multiset(us);
    }
    SortedIsUnique(us, Sort(ts));
  }

  lemma BesideSiblings(m: map<Cell, nat>, m': map<Cell, nat>, m'': map<Cell, nat>, f: seq<Rose>, h: seq<Rose>)
    requires Beside(m, m', Pre(f)) && SameCells(Pre(h), Pre(f)) && m''.Keys == m'.Keys
    requires forall c {:trigger m''[c]} | c in m' && c !in Pre(h) :: m''[c] == m'[c]
    ensures Beside(m, m'', Pre(f))
  {
  }
}