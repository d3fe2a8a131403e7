/** The REFERENCES threading algorithm on linked containers and nodes, from the
    messages to the thread tree. */
module References {
  import opened Messages
  import opened Roses
  import opened Threads
  import opened Merging
  import opened HashTables
  import opened Containers
  import opened Linkages
  import opened Linking
  import opened Pruning
  import opened Growing
  import opened ThreadNodes
  import opened ThreadSort
  import opened SubjectMerge
  import opened MergeNodes
  import opened Threading
  import opened ThreadOrder

  /** The links that step 2 leaves. */
  ghost function RootsChained(linker: Linker): Links
    reads linker, linker.pool, linker.ht
  {
    var pool := linker.pool;
    Links(pool.parent, ChainedUp(pool.sibling, Orphans(pool.parent, Walk(linker.ht.table))), pool.child)
  }

  lemma ForestOf(linker: Linker) returns (roots: seq<Cell>)
    requires linker.Valid()
    ensures var l, pool := RootsChained(linker), linker.pool;
      && pool.fam.Ok() && Roots(pool.fam, roots) && (forall k <- roots :: k in pool.fam.kids && pool.fam.rank[k] >= 0)
      && Held(l, MessagesIn(pool.cache), Trees(pool.fam, roots, 0), NIL, NIL) && Indexed(l, pool.cache)
      && Head(Trees(pool.fam, roots, 0)) == First(Orphans(pool.parent, Walk(linker.ht.table)))
  {
    hide Family.Matched, Family.Ranked, HashTab.Valid, Orphans, ChainedUp, Walk, Trees;
    var l, pool := RootsChained(linker), linker.pool;
    roots := Orphans(linker.pool.parent, Walk(linker.ht.table));
    ChainedAfterWalk(linker, l);
    RootsHeld(l, pool.fam, roots, MessagesIn(pool.cache));
  }

  /** Steps 1 and 2: the containers are linked, and the roots chained. */
  method LinkAll(sc: seq<Message>) returns (linker: Linker, con: nat, ghost roots: seq<Cell>)
    ensures fresh(linker) && fresh(linker.pool) && fresh(linker.ht) && linker.ht.Valid()
    ensures linker.pool.cache == Contents(sc) && linker.pool.fam == StepOne(sc).fam
    ensures Roots(StepOne(sc).fam, roots) && forall k <- roots ::
      k in StepOne(sc).fam.kids && StepOne(sc).fam.rank[k] >= 0
    ensures var forest := Trees(StepOne(sc).fam, roots, 0);
      && con == Head(forest)
      && Held(Now(linker.pool), MessagesIn(Contents(sc)), forest, NIL, NIL) && Indexed(Now(linker.pool), Contents(sc))
  {
    hide Family.Matched, Family.Ranked, HashTab.Valid, Held, Indexed, Dummies, Roots, Trees;
    linker := new Linker();
    var unique := linker.Link(sc);
    ContentsOnly(sc, linker.pool.cache);
    roots := ForestOf(linker);
    ghost var l := RootsChained(linker);
    con := ChainRoots(linker);
    assert Now(linker.pool) == l;
  }

  /** Step 3: the forest is pruned and turned into nodes. */
  method PruneAll(pool: Pool, con: nat, ghost forest: seq<Rose>) returns (np: NodePool, root: nat, ghost g: seq<Rose>)
    requires Held(Now(pool), MessagesIn(pool.cache), forest, NIL, NIL) && Indexed(Now(pool), pool.cache)
    requires con == Head(forest)
    modifies pool`parent, pool`sibling, pool`child
    ensures fresh(np) && np.Valid() && Listed(np.next, np.branch, g) && root == Head(g)
    ensures Show(np.sc, g) == Show(Labels(pool.cache), Prune(MessagesIn(pool.cache), forest, true))
  {
    hide Show, Held, Indexed;
    ghost var pruned := Prune(MessagesIn(pool.cache), forest, true);
    var top := NIL;
    if con != NIL {
      top, pruned := PruneDummy(pool, con, forest, NIL);
    }
    HeldFacts(Now(pool), MessagesIn(pool.cache), pruned, con);
    np := new NodePool();
    root, g := C2Node(pool, top, np, pruned);
  }

  lemma HeldFacts(l: Links, msgs: set<Cell>, pruned: seq<Rose>, con: nat)
    requires if con == NIL then pruned == [] else Held(l, msgs, pruned, NIL, NIL)
    ensures Linked(l.child, l.sibling, pruned, NIL)
  {
  }

  /** Step 4: the roots are put in order. */
  method SortRoots(np: NodePool, root: nat, tc: array<Cell>, ghost f: seq<Rose>, ghost sc: seq<Message>)
    returns (root': nat, ghost g: seq<Rose>)
    requires np.Valid() && Listed(np.next, np.branch, f) && root == Head(f)
    requires Complete(Show(np.sc, f), sc) && Distinguished(sc) && |sc| <= tc.Length
    modifies tc, np`branch
    ensures np.Valid() && Listed(np.next, np.branch, g) && root' == Head(g)
    ensures Complete(Show(np.sc, g), sc) && Shaped(Show(np.sc, f)) && Show(np.sc, g) == Sort(Show(np.sc, f))
  {
    hide Show, Complete, Pre, Sorted, Sort, Shaped;
    CompleteFacts(Show(np.sc, f), sc);
    root', g := SortSiblings(np, root, tc, f);
    SortedRoots(np.sc, f, g);
    SortComplete(Show(np.sc, f), sc);
  }

  /** Step 5: roots with the same subject are merged. */
  method MergeRoots(np: NodePool, ht: HashTab, root: nat, ghost f: seq<Rose>, ghost sc: seq<Message>)
    returns (root': nat, ghost g: seq<Rose>)
    requires np.Valid() && Listed(np.next, np.branch, f) && root == Head(f) && ht.Valid()
    requires Complete(Show(np.sc, f), sc)
    modifies np, ht
    ensures np.Valid() && Listed(np.next, np.branch, g) && root' == Head(g) && Complete(Show(np.sc, g), sc)
    ensures Shaped(old(Show(np.sc, f))) && Show(np.sc, g) == Merge(old(Show(np.sc, f)), 0)
  {
    hide Show, TableOf, HashTab.Valid, Pre, Listed;
    ht.Reset();
    FillTable(np, ht, root, f);
    root', g := MergeSubjects(np, ht, root, f);
    MergeComplete(old(Show(np.sc, f)), sc);
  }

  /** The messages in threads, as the source arranges them: `g` is the list of nodes
      that is returned, and it shows what the algorithm on values makes of them. */
  method ThreadReferences(sc: seq<Message>) returns (np: NodePool, root: nat, ghost g: seq<Rose>)
    requires Distinguished(sc)
    ensures np.Valid() && Listed(np.next, np.branch, g) && root == Head(g)
    ensures Show(np.sc, g) == Threaded(sc)
    ensures Complete(Show(np.sc, g), sc)
    ensures forall us | Siblings(us, Show(np.sc, g)) :: ByDate(us)
  {
    hide Show, Complete, Pre, InOrder, HashTab.Valid, Listed, Held, Indexed, Family.Matched, Family.Ranked, Prune;
    hide Trees, Roots, StepOne, Siblings, ByDate, Threaded;
    var linker, con;
    ghost var roots;
    linker, con, roots := LinkAll(sc);
    PrunedComplete(sc, roots);
    np, root, g := PruneAll(linker.pool, con, Trees(StepOne(sc).fam, roots, 0));
    ghost var ts := Show(np.sc, g);
    var tc := new Cell[|sc|](_ => 1);
    root, g := SortRoots(np, root, tc, g, sc);
    root, g := MergeRoots(np, linker.ht, root, g, sc);
    CompleteIsSortable(np.sc, g, sc);
    root, g := MailThreadSort(np, root, tc, g);
    AnyRootOrder(sc, roots);
    ThreadedComplete(sc);
    AllByDate(sc);
  }

  lemma CompleteIsSortable(nodes: map<Cell, Option<Message>>, f: seq<Rose>, sc: seq<Message>)
    requires Complete(Show(nodes, f), sc) && Distinguished(sc)
    ensures Sortable(nodes, f, |sc|) && Shaped(Show(nodes, f))
  {
    CompleteFacts(Show(nodes, f), sc);
  }
}
