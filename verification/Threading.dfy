/** The REFERENCES threading algorithm on values, from the messages to the threads. */
module Threading {
  import opened Messages
  import opened Roses
  import opened Threads
  import opened Merging
  import opened Containers
  import opened Linkages
  import opened Linking
  import opened Pruning
  import opened Growing
  import opened ThreadNodes
  import opened ThreadSort

  // ---- The messages of a forest of containers ----

  /** The messages that the cells stand for, in order. */
  ghost function Values(tag: map<Cell, Option<Message>>, s: seq<Cell>): seq<Message> {
    if s == [] then []
    else (if Label(tag, s[0]).Some? then [Label(tag, s[0]).value] else []) + Values(tag, s[1..])
  }

  lemma {:induction false} ValuesAppend(tag: map<Cell, Option<Message>>, s: seq<Cell>, t: seq<Cell>)
    ensures Values(tag, s + t) == Values(tag, s) + Values(tag, t)
  {
    if s == [] {
      assert s + t == t;
    } else {
      assert (s + t)[1..] == s[1..] + t;
      ValuesAppend(tag, s[1..], t);
    }
  }

  /** The threads show the messages of the cells in preorder. */
  lemma {:induction false} ShowMessages(tag: map<Cell, Option<Message>>, f: seq<Rose>)
    ensures MessagesOf(Show(tag, f)) == Values(tag, Pre(f))
  {
    if f != [] {
      ShowMessages(tag, f[0].kids);
      ShowMessages(tag, f[1..]);
      var ts := Show(tag, f);
      assert ts[1..] == Show(tag, f[1..]);
      ValuesAppend(tag, [f[0].v] + Pre(f[0].kids), Pre(f[1..]));
      ValuesAppend(tag, [f[0].v], Pre(f[0].kids));
    }
  }

  lemma {:induction false} ValuesKept(cache: seq<Option<Message>>, s: seq<Cell>)
    ensures Values(Labels(cache), Kept(MessagesIn(cache), s)) == Values(Labels(cache), s)
  {
    if s != [] {
      ValuesKept(cache, s[1..]);
      LabelsAt(cache, s[0]);
      ValuesAppend(Labels(cache), [s[0]], Kept(MessagesIn(cache), s[1..]));
      assert [] + Kept(MessagesIn(cache), s[1..]) == Kept(MessagesIn(cache), s[1..]);
    }
  }

  lemma {:induction false} ValuesPermuted(tag: map<Cell, Option<Message>>, s: seq<Cell>, t: seq<Cell>)
    requires multiset(s) == multiset(t)
    ensures multiset(Values(tag, s)) == multiset(Values(tag, t))
  {
    if s == [] {
      assert |t| == |multiset(t)| == 0;
    } else {
      hide Values;
      MultisetSplit(s, t);
      var k :| 0 <= k < |t| && t[k] == s[0] && multiset(s[1..]) == multiset(t[..k] + t[k + 1..]);
      ValuesPermuted(tag, s[1..], t[..k] + t[k + 1..]);
      ValuesMoved(tag, s, t, k);
    }
  }

  lemma ValuesMoved(tag: map<Cell, Option<Message>>, s: seq<Cell>, t: seq<Cell>, k: nat)
    requires s != [] && k < |t| && t[k] == s[0]
    requires multiset(Values(tag, s[1..])) == multiset(Values(tag, t[..k] + t[k + 1..]))
    ensures multiset(Values(tag, s)) == multiset(Values(tag, t))
  {
    hide Values;
    var a, c, b := t[..k], [s[0]], t[k + 1..];
    ValuesAppend(tag, a, b);
    ValuesAppend(tag, a, c + b);
    ValuesAppend(tag, c, b);
    assert t == a + (c + b);
    ValuesAppend(tag, c, s[1..]);
    assert s == c + s[1..];
  }

  /** The containers in the order of their creation. */
  ghost function UpTo(n: nat): seq<Cell> {
    if n == 0 then [] else UpTo(n - 1) + [n]
  }

  lemma {:induction false} UpToCells(n: nat)
    ensures NoDup(UpTo(n)) && forall c: Cell :: c in UpTo(n) <==> c <= n
  {
    if n > 0 {
      UpToCells(n - 1);
      assert NoDup([n]);
      NoDupConcat(UpTo(n - 1), [n]);
    }
  }

  lemma SameMultiset(s: seq<Cell>, t: seq<Cell>)
    requires NoDup(s) && NoDup(t) && SameCells(s, t)
    ensures multiset(s) == multiset(t)
  {
    forall c: Cell
      ensures multiset(s)[c] == multiset(t)[c]
    {
      OneOnly(s, c);
      OneOnly(t, c);
      assert c in s <==> c in multiset(s);
      assert c in t <==> c in multiset(t);
    }
  }

  lemma {:induction false} ValuesUpTo(sc: seq<Message>, cache: seq<Option<Message>>, n: nat)
    requires Dummies(Cached(sc), cache) && n <= |cache|
    ensures Values(Labels(cache), UpTo(n)) == sc[..if n < |sc| then n else |sc|]
  {
    hide Labels, Cached;
    if n > 0 {
      ValuesUpTo(sc, cache, n - 1);
      ValuesAppend(Labels(cache), UpTo(n - 1), [n]);
      ValueOne(Labels(cache), n);
      LabelsAt(cache, n);
      hide Values, Labels, Cached;
    }
  }

  lemma {:induction false} ValueOne(tag: map<Cell, Option<Message>>, c: Cell)
    ensures Values(tag, [c]) == if Label(tag, c).Some? then [Label(tag, c).value] else []
  {
    assert [c][1..] == [];
  }

  /** A forest with every container once holds every message once. */
  lemma AllMessages(sc: seq<Message>, cache: seq<Option<Message>>, f: seq<Rose>)
    requires Dummies(Cached(sc), cache) && NoDup(Pre(f)) && forall c: Cell :: c in Pre(f) <==> c <= |cache|
    ensures multiset(MessagesOf(Show(Labels(cache), f))) == multiset(sc)
  {
    ShowMessages(Labels(cache), f);
    UpToCells(|cache|);
    SameMultiset(Pre(f), UpTo(|cache|));
    ValuesPermuted(Labels(cache), Pre(f), UpTo(|cache|));
    ValuesUpTo(sc, cache, |cache|);
    assert sc[..|sc|] == sc;
  }

  /** Pruned trees show the messages of the trees before. */
  lemma PrunedMessages(cache: seq<Option<Message>>, f: seq<Rose>)
    ensures MessagesOf(Show(Labels(cache), Prune(MessagesIn(cache), f, true))) == MessagesOf(Show(Labels(cache), f))
  {
    var msgs := MessagesIn(cache);
    var g := Prune(msgs, f, true);
    PruneKeepsMessages(msgs, f, true);
    ShowMessages(Labels(cache), f);
    ShowMessages(Labels(cache), g);
    ValuesKept(cache, Pre(f));
    ValuesKept(cache, Pre(g));
  }

  lemma {:induction false} CleanIsPlain(cache: seq<Option<Message>>, f: seq<Rose>)
    requires Clean(MessagesIn(cache), f)
    ensures Plain(Show(Labels(cache), f))
  {
    if f != [] {
      assert f[0].v in Pre(f);
      assert forall c <- Pre(f[0].kids) :: c in Pre(f);
      assert forall c <- Pre(f[1..]) :: c in Pre(f);
      LabelsAt(cache, f[0].v);
      CleanIsPlain(cache, f[0].kids);
      CleanIsPlain(cache, f[1..]);
      assert Show(Labels(cache), f)[1..] == Show(Labels(cache), f[1..]);
    }
  }

  /** After pruning dummies stand only at the root, each over several messages. */
  lemma PrunedIsShaped(cache: seq<Option<Message>>, f: seq<Rose>)
    ensures var ts := Show(Labels(cache), Prune(MessagesIn(cache), f, true));
      Shaped(ts) && forall t <- ts | t.msg == None :: |t.kids| > 1
  {
    var g := Prune(MessagesIn(cache), f, true);
    var ts := Show(Labels(cache), g);
    PruneShape(MessagesIn(cache), f);
    forall i | 0 <= i < |ts|
      ensures Rooted(ts[i]) && (ts[i].msg == None ==> |ts[i].kids| > 1)
    {
      assert g[i] in g;
      ShowAt(Labels(cache), g, i);
      LabelsAt(cache, g[i].v);
      CleanIsPlain(cache, g[i].kids);
    }
  }

  /** No two messages have the same number. */
  ghost predicate Distinguished(sc: seq<Message>) {
    forall i, j | 0 <= i < j < |sc| :: sc[i].num != sc[j].num
  }

  /** The proper threads `ts` are made of exactly the messages `sc`. */
  ghost predicate Complete(ts: seq<Thread>, sc: seq<Message>) {
    Shaped(ts) && multiset(MessagesOf(ts)) == multiset(sc)
  }

  /** The forest `f` holds the containers of the family, message below message as
      in the family. */
  ghost predicate Grown(fam: Family, msgs: set<Cell>, f: seq<Rose>)
    requires fam.Ok()
  {
    && NoDup(Pre(f)) && (forall c: Cell :: c in Pre(f) <==> c in fam.kids)
    && (forall a, b | a in fam.kids && b in fam.kids ::
          (a, b) in Over(msgs, f) <==> a in msgs && b in msgs && a != b && fam.Below(a, b))
  }

  /** The threads of the pruned forest are proper and hold every message once. */
  lemma PrunedIsComplete(sc: seq<Message>, cache: seq<Option<Message>>, forest: seq<Rose>)
    requires Dummies(Cached(sc), cache) && NoDup(Pre(forest)) && forall c: Cell :: c in Pre(forest) <==> c <= |cache|
    ensures Complete(Show(Labels(cache), Prune(MessagesIn(cache), forest, true)), sc)
  {
    hide Prune, Show, MessagesOf, Dummies, Pre, NoDup;
    AllMessages(sc, cache, forest);
    PrunedMessages(cache, forest);
    PrunedIsShaped(cache, forest);
  }

  lemma CompleteFacts(ts: seq<Thread>, sc: seq<Message>)
    requires Complete(ts, sc) && Distinguished(sc)
    ensures Shaped(ts) && DistinctNums(ts) && Numbered(ts) && |ts| <= |sc| && |MessagesOf(ts)| == |sc|
  {
    NumsPermuted(sc, MessagesOf(ts));
    DistinctIsNumbered(ts);
    AtLeastOneMessageEach(ts);
    assert |MessagesOf(ts)| == |multiset(MessagesOf(ts))| == |multiset(sc)| == |sc|;
  }

  lemma SortComplete(ts: seq<Thread>, sc: seq<Message>)
    requires Complete(ts, sc)
    ensures Complete(Sort(ts), sc) && Complete(SortAll(ts), sc)
  {
    SortMessages(ts);
    SortAllMessages(ts);
  }

  lemma MergeComplete(ts: seq<Thread>, sc: seq<Message>)
    requires Complete(ts, sc)
    ensures Complete(Merge(ts, 0), sc)
  {
    MergeConserves(ts, 0, None);
    UnderAll(ts);
    UnderAll(Merge(ts, 0));
  }

  // ---- The algorithm ----

  /** What the containers hold after step 1: the messages, and then nothing. */
  ghost function Contents(sc: seq<Message>): (cache: seq<Option<Message>>)
    ensures |cache| == StepOne(sc).count && Dummies(Cached(sc), cache)
  {
    Cached(sc) + Nothing(StepOne(sc).count - |sc|)
  }

  ghost function Nothing(n: nat): (r: seq<Option<Message>>)
    ensures |r| == n && forall i | 0 <= i < n :: r[i] == None
  {
    if n == 0 then [] else Nothing(n - 1) + [None]
  }

  lemma ContentsOnly(sc: seq<Message>, cache: seq<Option<Message>>)
    requires Dummies(Cached(sc), cache) && |cache| == StepOne(sc).count
    ensures cache == Contents(sc)
  {
    hide StepOne, Cached;
  }

  /** The containers up to `n` without a parent. */
  ghost function RootsUpTo(fam: Family, n: nat): seq<Cell> {
    if n == 0 then [] else RootsUpTo(fam, n - 1) + if n in fam.parent && fam.parent[n] == NIL then [n] else []
  }

  lemma {:induction false} RootsUpToFacts(fam: Family, n: nat)
    ensures Distinct(RootsUpTo(fam, n))
    ensures forall c: Cell :: c in RootsUpTo(fam, n) <==> c <= n && c in fam.parent && fam.parent[c] == NIL
  {
    if n > 0 {
      hide Distinct;
      RootsUpToFacts(fam, n - 1);
      if n in fam.parent && fam.parent[n] == NIL {
        DistinctAppend(RootsUpTo(fam, n - 1), n);
      } else {
        assert RootsUpTo(fam, n) == RootsUpTo(fam, n - 1) + [] == RootsUpTo(fam, n - 1);
      }
    }
  }

  /** The containers that step 1 leaves without a parent. */
  ghost function TopLevel(sc: seq<Message>): (roots: seq<Cell>)
    ensures Roots(StepOne(sc).fam, roots)
  {
    RootsUpToFacts(StepOne(sc).fam, StepOne(sc).count);
    RootsUpTo(StepOne(sc).fam, StepOne(sc).count)
  }

  /** The threads of the trees below the given containers, pruned. */
  ghost function Pruned(fam: Family, cache: seq<Option<Message>>, roots: seq<Cell>): (ts: seq<Thread>)
    requires fam.Ok() && forall k <- roots :: k in fam.kids
    ensures Shaped(ts)
  {
    PrunedIsShaped(cache, Trees(fam, roots, 0));
    Show(Labels(cache), Prune(MessagesIn(cache), Trees(fam, roots, 0), true))
  }

  /** Steps 1 to 3. */
  ghost function PrunedThreads(sc: seq<Message>): (ts: seq<Thread>)
    ensures Shaped(ts)
  {
    RootsApart(StepOne(sc).fam, TopLevel(sc));
    Pruned(StepOne(sc).fam, Contents(sc), TopLevel(sc))
  }

  /** Steps 4 to 6. */
  ghost function Finished(ts: seq<Thread>): (r: seq<Thread>)
    requires Shaped(ts)
    ensures Shaped(r)
  {
    SortAll(Merge(Sort(ts), 0))
  }

  /** The threads of the messages. */
  ghost function Threaded(sc: seq<Message>): (ts: seq<Thread>)
    ensures Shaped(ts)
  {
    Finished(PrunedThreads(sc))
  }

  // ---- The order in which the roots are met does not matter ----

  lemma {:induction false} TreesAppend(fam: Family, a: seq<Cell>, b: seq<Cell>, lo: nat)
    requires fam.Ok() && forall k <- a + b :: k in fam.kids && fam.rank[k] >= lo
    ensures (forall k <- a :: k in fam.kids && fam.rank[k] >= lo) && forall k <- b :: k in fam.kids && fam.rank[k] >= lo
    ensures Trees(fam, a + b, lo) == Trees(fam, a, lo) + Trees(fam, b, lo)
  {
    hide Trees, Family.Ok;
    assert (forall k <- a :: k in a + b) && forall k <- b :: k in a + b;
    if a == [] {
      assert a + b == b;
      NoTree(fam, lo);
    } else {
      assert (a + b)[1..] == a[1..] + b;
      assert forall k <- a[1..] + b :: k in a + b;
      TreesFirst(fam, a, lo);
      TreesFirst(fam, a + b, lo);
      TreesAppend(fam, a[1..], b, lo);
      FirstAppend(Trees(fam, a, lo), Trees(fam, b, lo), Trees(fam, a + b, lo));
    }
  }

  lemma FirstAppend(f: seq<Rose>, g: seq<Rose>, h: seq<Rose>)
    requires f != [] && h != [] && h[0] == f[0] && h[1..] == f[1..] + g
    ensures h == f + g
  {
    assert f == [f[0]] + f[1..] && h == [h[0]] + h[1..];
  }

  lemma NoTree(fam: Family, lo: nat)
    requires fam.Ok()
    ensures Trees(fam, [], lo) == []
  {
  }

  lemma PrunedAppend(fam: Family, cache: seq<Option<Message>>, a: seq<Cell>, b: seq<Cell>)
    requires fam.Ok() && forall k <- a + b :: k in fam.kids
    ensures (forall k <- a :: k in fam.kids) && forall k <- b :: k in fam.kids
    ensures Pruned(fam, cache, a + b) == Pruned(fam, cache, a) + Pruned(fam, cache, b)
  {
    hide Trees, Prune, Show, Family.Matched, Family.Ranked;
    TreesAppend(fam, a, b, 0);
    PruneAppend(MessagesIn(cache), Trees(fam, a, 0), Trees(fam, b, 0), true);
    var msgs := MessagesIn(cache);
    ShowAppend(Labels(cache), Prune(msgs, Trees(fam, a, 0), true), Prune(msgs, Trees(fam, b, 0), true));
  }

  lemma {:induction false} PrunedPermuted(fam: Family, cache: seq<Option<Message>>, a: seq<Cell>, b: seq<Cell>)
    requires fam.Ok() && (forall k <- a :: k in fam.kids) && (forall k <- b :: k in fam.kids)
    requires multiset(a) == multiset(b)
    ensures multiset(Pruned(fam, cache, a)) == multiset(Pruned(fam, cache, b))
  {
    if a == [] {
      assert |b| == |multiset(b)| == 0;
    } else {
      hide Pruned, Family.Ok;
      MultisetSplit(a, b);
      var k :| 0 <= k < |b| && b[k] == a[0] && multiset(a[1..]) == multiset(b[..k] + b[k + 1..]);
      PrunedPermuted(fam, cache, a[1..], b[..k] + b[k + 1..]);
      PrunedMoved(fam, cache, a, b, k);
    }
  }

  lemma PrunedMoved(fam: Family, cache: seq<Option<Message>>, a: seq<Cell>, b: seq<Cell>, k: nat)
    requires fam.Ok() && (forall c <- a :: c in fam.kids) && (forall c <- b :: c in fam.kids)
    requires a != [] && k < |b| && b[k] == a[0]
    requires multiset(Pruned(fam, cache, a[1..])) == multiset(Pruned(fam, cache, b[..k] + b[k + 1..]))
    ensures multiset(Pruned(fam, cache, a)) == multiset(Pruned(fam, cache, b))
  {
    hide Pruned, Family.Ok;
    var x, c, y := b[..k], [a[0]], b[k + 1..];
    assert b == x + (c + y) && a == c + a[1..];
    PrunedAppend(fam, cache, x, y);
    PrunedAppend(fam, cache, x, c + y);
    PrunedAppend(fam, cache, c, y);
    PrunedAppend(fam, cache, c, a[1..]);
  }

  lemma SortPermuted(ts: seq<Thread>, us: seq<Thread>)
    requires Shaped(ts) && Shaped(us) && multiset(ts) == multiset(us) && Numbered(ts)
    ensures Sort(ts) == Sort(us)
  {
    SortFacts(ts);
    SortFacts(us);
    forall t <- Sort(ts)
      ensures t in ts
    {
      assert t in multiset(Sort(ts));
    }
    SortedIsUnique(Sort(ts), Sort(us));
  }

  lemma {:induction false} DistinctCells(ks: seq<Cell>)
    requires Distinct(ks)
    ensures NoDup(ks)
  {
    if ks != [] {
      DistinctCells(ks[1..]);
      NoDupConcat([ks[0]], ks[1..]);
      assert [ks[0]] + ks[1..] == ks;
    }
  }

  lemma RootsPermuted(fam: Family, a: seq<Cell>, b: seq<Cell>)
    requires Roots(fam, a) && Roots(fam, b)
    ensures multiset(a) == multiset(b)
  {
    DistinctCells(a);
    DistinctCells(b);
    SameMultiset(a, b);
  }

  /** Every message stands exactly once in the threads of the pruned forest. */
  lemma PrunedComplete(sc: seq<Message>, roots: seq<Cell>)
    requires Roots(StepOne(sc).fam, roots) && forall k <- roots :: k in StepOne(sc).fam.kids
    ensures Complete(Pruned(StepOne(sc).fam, Contents(sc), roots), sc)
  {
    hide StepOne, Trees, Family.Matched, Family.Ranked;
    var fam := StepOne(sc).fam;
    TreesOfAll(fam, roots);
    PrunedIsComplete(sc, Contents(sc), Trees(fam, roots, 0));
  }

  lemma PrunedThreadsComplete(sc: seq<Message>)
    ensures Complete(PrunedThreads(sc), sc)
  {
    hide StepOne, Pruned, Complete, Roots, Family.Ok;
    RootsApart(StepOne(sc).fam, TopLevel(sc));
    PrunedComplete(sc, TopLevel(sc));
  }

  /** However the roots of the forest are ordered, steps 4 to 6 make the same threads. */
  lemma AnyRootOrder(sc: seq<Message>, roots: seq<Cell>)
    requires Distinguished(sc)
    requires Roots(StepOne(sc).fam, roots) && forall k <- roots :: k in StepOne(sc).fam.kids
    ensures Finished(Pruned(StepOne(sc).fam, Contents(sc), roots)) == Threaded(sc)
  {
    hide StepOne, Pruned, Complete, Roots, Family.Ok;
    var fam, cache, roots' := StepOne(sc).fam, Contents(sc), TopLevel(sc);
    RootsPermuted(fam, roots, roots');
    RootsApart(fam, roots');
    PrunedPermuted(fam, cache, roots, roots');
    PrunedComplete(sc, roots);
    CompleteFacts(Pruned(fam, cache, roots), sc);
    SortPermuted(Pruned(fam, cache, roots), PrunedThreads(sc));
  }

  /** Every message stands in the threads exactly once, dummies only at the root over
      messages, and every list of siblings is in order. */
  lemma ThreadedComplete(sc: seq<Message>)
    ensures Complete(Threaded(sc), sc) && InOrder(Threaded(sc))
  {
    hide PrunedThreads, Complete, InOrder;
    PrunedThreadsComplete(sc);
    var ts := PrunedThreads(sc);
    SortComplete(ts, sc);
    MergeComplete(Sort(ts), sc);
    SortComplete(Merge(Sort(ts), 0), sc);
    SortAllInOrder(Merge(Sort(ts), 0));
  }
}
