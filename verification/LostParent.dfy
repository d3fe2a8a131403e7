module LostParent {
  import opened Messages
  import opened Roses
  import opened Threads
  import opened Merging
  import opened Containers
  import opened Linkages
  import opened Linking
  import opened Citing
  import opened Pruning
  import opened Growing
  import opened ThreadNodes
  import opened Threading
  import opened RootSubjects

  function Letter(num: nat, date: nat, subject: string, id: string, references: seq<string>): Message {
    Message(num, date, subject, false, Some(id), "", references)
  }

  /** Two answers to a message that is missing, "X" and before it "Y", and a later
      message "Y". */
  function Lost(): seq<Message> {
    [Letter(1, 5, "X", "a", ["d"]), Letter(2, 1, "Y", "b", ["d"]), Letter(3, 9, "Y", "c", [])]
  }

  lemma {:induction false} EnrolledMore(sc: seq<Message>, s: Message)
    ensures Enrolled(sc + [s]) == Enrolled(sc).Bound(UniqueName(Enrolled(sc).ids.Keys, s))
    ensures Names(sc + [s]) == Names(sc) + [UniqueName(Enrolled(sc).ids.Keys, s)]
  {
    assert (sc + [s])[..|sc|] == sc;
  }

  lemma EnrolledNone()
    ensures Enrolled([]) == Linkage(map[], NOBODY, 0) && Names([]) == []
  {
  }

  lemma LostEnrolled()
    ensures Names(Lost()) == ["a", "b", "c"]
    ensures var k := Enrolled(Lost());
      && k.ids == map["a" := 1, "b" := 2, "c" := 3] && k.count == 3
      && k.fam.kids == map[1 := [], 2 := [], 3 := []] && k.fam.parent == map[1 := NIL, 2 := NIL, 3 := NIL]
  {
    hide Enrolled, Names, Linkage.Ok;
    var sc := Lost();
    EnrolledNone();
    EnrolledMore([], sc[0]);
    assert [] + [sc[0]] == [sc[0]];
    EnrolledMore([sc[0]], sc[1]);
    assert [sc[0]] + [sc[1]] == [sc[0], sc[1]];
    EnrolledMore([sc[0], sc[1]], sc[2]);
    assert [sc[0], sc[1]] + [sc[2]] == sc;
  }

  /** A message with one reference, both still without parents. */
  lemma {:induction false} LinkAnswer(k: Linkage, name: string, id: string)
    requires k.Ok() && id in k.ids && (name in k.ids ==> k.fam.parent[k.ids[name] as Cell] == NIL)
    requires k.fam.parent[k.ids[id] as Cell] == NIL && (name in k.ids ==> k.ids[name] != k.ids[id])
    ensures var g, h := k.Knowing(name), k.Linking([name], id);
      var p: Cell, c: Cell := g.ids[name], g.ids[id];
      && h.ids == g.ids && h.count == g.count
      && h.fam.kids == g.fam.kids[p := g.fam.kids[p] + [c]] && h.fam.parent == g.fam.parent[c := p]
  {
    hide Family.Ok, Family.Settle, Family.Grow;
    var g := k.Knowing(name);
    KnownAlone(k, name, id);
    assert k.Referring([name], 1) == g;
    SettleAlone(g.fam, g.ids[name], g.ids[id]);
  }

  lemma KnownAlone(k: Linkage, name: string, id: string)
    requires k.Ok() && id in k.ids && (name in k.ids ==> k.fam.parent[k.ids[name] as Cell] == NIL)
    requires k.fam.parent[k.ids[id] as Cell] == NIL && (name in k.ids ==> k.ids[name] != k.ids[id])
    ensures var g := k.Knowing(name);
      var p: Cell, c: Cell := g.ids[name], g.ids[id];
      && g.Ok() && p in g.fam.kids && c in g.fam.kids && p != c
      && g.fam.parent[p] == NIL && g.fam.parent[c] == NIL
  {
    hide Family.Matched, Family.Ranked;
  }

  /** A root is settled below another. */
  lemma SettleAlone(fam: Family, p: Cell, c: Cell)
    requires fam.Ok() && p in fam.kids && c in fam.kids && p != c && fam.parent[p] == NIL && fam.parent[c] == NIL
    ensures var h := fam.Settle(p, c);
      h.kids == fam.kids[p := fam.kids[p] + [c]] && h.parent == fam.parent[c := p]
  {
    hide Family.Matched, Family.Ranked;
    assert !fam.Below(c, p);
  }

  /** The answers end up below a container for the missing message. */
  lemma LostLinked()
    ensures var k := StepOne(Lost());
      k.count == 4 && k.fam.kids == map[1 := [], 2 := [], 3 := [], 4 := [1, 2]]
      && k.fam.parent == map[1 := 4, 2 := 4, 3 := NIL, 4 := NIL]
  {
    hide Enrolled, Names, Linkage.Ok, Linkage.Linking, Linkage.Knowing, Stepped;
    var sc := Lost();
    LostEnrolled();
    LostSecond();
    SteppedMore(sc, 1);
    FoundName(Stepped(sc, 1), "d");
    LinkAnswer(Stepped(sc, 1), "d", "b");
    SteppedMore(sc, 2);
    LinkAlone(Stepped(sc, 2), "c");
    assert [1] + [2] == [1, 2];
  }

  /** The first answer makes a container for the missing message. */
  lemma LostSecond()
    ensures var k := Stepped(Lost(), 1);
      && k.ids == map["a" := 1, "b" := 2, "c" := 3, "d" := 4] && k.count == 4
      && k.fam.kids == map[1 := [], 2 := [], 3 := [], 4 := [1]]
      && k.fam.parent == map[1 := 4, 2 := NIL, 3 := NIL, 4 := NIL]
  {
    hide Enrolled, Names, Linkage.Ok, Linkage.Linking, Linkage.Knowing, Stepped;
    var sc := Lost();
    LostEnrolled();
    SteppedNone(sc);
    SteppedMore(sc, 0);
    NewName(Stepped(sc, 0), "d");
    LinkAnswer(Stepped(sc, 0), "d", "a");
    assert [] + [1] == [1];
  }

  lemma FoundName(k: Linkage, name: string)
    requires k.Ok() && name in k.ids
    ensures k.Knowing(name) == k
  {
  }

  lemma NewName(k: Linkage, name: string)
    requires k.Ok() && name !in k.ids
    ensures var g, c := k.Knowing(name), k.count + 1;
      && g.ids == k.ids[name := c] && g.count == c
      && g.fam.kids == k.fam.kids[c := []] && g.fam.parent == k.fam.parent[c := NIL]
  {
    hide Linkage.Ok, Family.Ok;
  }

  lemma LostForest()
    ensures TopLevel(Lost()) == [3, 4]
    ensures forall k <- [3, 4] :: k in StepOne(Lost()).fam.kids && StepOne(Lost()).fam.rank[k] >= 0
    ensures Trees(StepOne(Lost()).fam, [3, 4], 0) == [Node(3, []), Node(4, [Node(1, []), Node(2, [])])]
  {
    hide StepOne, Family.Matched, Family.Ranked, Trees;
    LostLinked();
    var fam := StepOne(Lost()).fam;
    LostRoots(fam);
    fam.ChildFacts(4, 1);
    fam.ChildFacts(4, 2);
    Leaves(fam, [1, 2], fam.rank[4] + 1);
    Leaves(fam, [3], 0);
    OneTree(fam, 4);
    assert [3] + [4] == [3, 4];
    TreesAppend(fam, [3], [4], 0);
    LeafNodes();
  }

  lemma LostRoots(fam: Family)
    requires fam.parent == map[1 := 4, 2 := 4, 3 := NIL, 4 := NIL]
    ensures RootsUpTo(fam, 4) == [3, 4]
  {
    assert RootsUpTo(fam, 1) == [] && RootsUpTo(fam, 2) == [] && RootsUpTo(fam, 3) == [3];
  }

  lemma {:induction false} OneTree(fam: Family, k: Cell)
    requires fam.Ok() && k in fam.kids
    ensures forall c <- fam.kids[k] :: c in fam.kids && fam.rank[c] >= fam.rank[k] + 1
    ensures Trees(fam, [k], 0) == [Node(k, Trees(fam, fam.kids[k], fam.rank[k] + 1))]
  {
    assert [k][1..] == [];
  }

  /** Containers without children. */
  lemma {:induction false} Leaves(fam: Family, ks: seq<Cell>, lo: nat)
    requires fam.Ok() && forall k <- ks :: k in fam.kids && fam.rank[k] >= lo && fam.kids[k] == []
    ensures Trees(fam, ks, lo) == Nodes(ks)
  {
    if ks != [] {
      Leaves(fam, ks[1..], lo);
    }
  }

  ghost function Nodes(ks: seq<Cell>): seq<Rose> {
    if ks == [] then [] else [Node(ks[0], [])] + Nodes(ks[1..])
  }

  lemma {:induction false} LeafNodes()
    ensures Nodes([1, 2]) == [Node(1, []), Node(2, [])] && Nodes([3]) == [Node(3, [])]
  {
    assert [1, 2][1..] == [2] && [2][1..] == [] && [3][1..] == [];
  }

  lemma LostContents()
    ensures Contents(Lost()) == [Some(Lost()[0]), Some(Lost()[1]), Some(Lost()[2]), None]
  {
    hide StepOne, Contents, Cached, Family.Ok;
    LostLinked();
    FourContents(Lost(), Contents(Lost()));
  }

  lemma {:induction false} FourContents(sc: seq<Message>, cache: seq<Option<Message>>)
    requires |sc| == 3 && |cache| == 4 && Dummies(Cached(sc), cache)
    ensures cache == [Some(sc[0]), Some(sc[1]), Some(sc[2]), None]
  {
    hide Cached;
    var c := Cached(sc);
    assert cache[0] == c[0] && cache[1] == c[1] && cache[2] == c[2];
  }

  lemma PruneLeaves(msgs: set<Cell>)
    requires 1 in msgs && 2 in msgs && 3 in msgs && 4 !in msgs
    ensures var f := [Node(3, []), Node(4, [Node(1, []), Node(2, [])])]; Prune(msgs, f, true) == f
  {
    var k, f := [Node(1, []), Node(2, [])], [Node(3, []), Node(4, [Node(1, []), Node(2, [])])];
    assert k[1..] == [Node(2, [])] && f[1..] == [Node(4, k)] && k[1..][1..] == [] && f[1..][1..] == [];
    assert Pre(k[1..]) == [2] + Pre([]) + Pre([]) == [2];
    assert Pre(k) == [1] + Pre([]) + Pre(k[1..]) == [1, 2];
    PruneOfClean(msgs, k, false);
    assert PruneTree(msgs, f[1], true) == [Node(4, k)];
    assert PruneTree(msgs, f[0], true) == [Node(3, [])];
    assert Prune(msgs, f[1..], true) == [Node(4, k)];
  }

  lemma ShowLeaves(tag: map<Cell, Option<Message>>)
    ensures Show(tag, [Node(3, []), Node(4, [Node(1, []), Node(2, [])])]) ==
      [Thread(Label(tag, 3), []), Thread(Label(tag, 4), [Thread(Label(tag, 1), []), Thread(Label(tag, 2), [])])]
  {
    var k, f := [Node(1, []), Node(2, [])], [Node(3, []), Node(4, [Node(1, []), Node(2, [])])];
    ShowAt(tag, k, 0);
    ShowAt(tag, k, 1);
    ShowAt(tag, f, 0);
    ShowAt(tag, f, 1);
    assert Show(tag, k) == [Thread(Label(tag, 1), []), Thread(Label(tag, 2), [])];
  }

  lemma LostPruned()
    ensures var sc := Lost();
      PrunedThreads(sc) == [Thread(Some(sc[2]), []), Thread(None, [Thread(Some(sc[0]), []), Thread(Some(sc[1]), [])])]
  {
    hide StepOne, Family.Ok, Contents, Labels, Prune, Show, MessagesIn;
    var sc, cache := Lost(), Contents(Lost());
    LostForest();
    LostContents();
    PruneLeaves(MessagesIn(cache));
    ShowLeaves(Labels(cache));
    LabelsAt(cache, 1);
    LabelsAt(cache, 2);
    LabelsAt(cache, 3);
    LabelsAt(cache, 4);
  }

  /** The threads of these messages have two roots with the subject "Y". */
  lemma TwoRootsOneSubject()
    ensures Distinguished(Lost()) && !SubjectsDiffer(Threaded(Lost()))
  {
    hide Threaded, PrunedThreads, LeadersDiffer, SubjectsDiffer;
    LostPruned();
    LostLeads(PrunedThreads(Lost()));
    ThreadedOneRoot(Lost());
  }

  lemma LostLeads(ts: seq<Thread>)
    requires Shaped(ts) && |ts| == 2 && ts[0] == Thread(Some(Lost()[2]), [])
    requires ts[1] == Thread(None, [Thread(Some(Lost()[0]), []), Thread(Some(Lost()[1]), [])])
    ensures !LeadersDiffer(ts)
  {
    var k := ts[1].kids;
    assert k[1..] == [k[1]] && Earliest([k[1]]) == Lost()[1];
    assert Subject(ts[0]) == "Y" && Subject(ts[1]) == "X" && "X" != "Y";
    assert EarliestSubject(ts[0]) == EarliestSubject(ts[1]) == "Y";
    hide Subject, EarliestSubject, EarliestOf, Rooted, Lost;
    assert Leader(ts, ts[0]) && Leader(ts, ts[1]);
  }
}
