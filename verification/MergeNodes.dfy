/** Step 5 of the REFERENCES algorithm as the source runs it: one pass over the
    roots fills the subject table, another relinks them in place. */
module MergeNodes {
  import opened Sequences
  import opened Messages
  import opened Roses
  import opened Threads
  import opened Merging
  import opened HashTables
  import opened ThreadNodes
  import opened ThreadSort
  import opened SubjectMerge

  /** The list `f` of nodes, which shows proper threads. */
  ghost predicate Proper(sc: map<Cell, Option<Message>>, next: map<Cell, nat>, branch: map<Cell, nat>, f: seq<Rose>) {
    sc.Keys == next.Keys && Listed(next, branch, f) && Shaped(Show(sc, f))
  }

  /** What the node of root `x` holds and leads to. */
  lemma RootNode(sc: map<Cell, Option<Message>>, next: map<Cell, nat>, branch: map<Cell, nat>,
                 f: seq<Rose>, x: nat)
    requires Proper(sc, next, branch, f) && x < |f|
    ensures var c, t := f[x].v, Show(sc, f)[x];
      && c in sc && c in next && c in branch && Rooted(t)
      && branch[c] == HeadAt(f, x + 1) && next[c] == Head(f[x].kids)
      && sc[c] == t.msg && |t.kids| == |f[x].kids|
      && NodeLead(sc, next, c) == Some(Lead(t))
    ensures Hung(next, branch, f[x])
  {
    LinkedByIndex(next, branch, f);
    assert Hung(next, branch, f[x]);
    TreeIsLed(sc, branch, next, f, x);
    ShowAt(sc, f, x);
  }

  // ---- Step 5B ----

  /** What the first `n` roots leave in the table. */
  ghost predicate Picked(m: map<string, int>, ts: seq<Thread>, vs: seq<Cell>, n: nat)
    requires Shaped(ts) && n <= |ts| == |vs|
  {
    && "" !in m
    && forall s {:trigger s in m} {:trigger Pick(ts, s, n)} | s != "" ::
         if Pick(ts, s, n) == None then s !in m else s in m && m[s] == vs[Pick(ts, s, n).value]
  }

  lemma PickedNone(ts: seq<Thread>, vs: seq<Cell>)
    requires Shaped(ts) && |ts| == |vs|
    ensures Picked(map[], ts, vs, 0)
  {
  }

  lemma PickedMore(m: map<string, int>, ts: seq<Thread>, vs: seq<Cell>, n: nat)
    requires Shaped(ts) && n < |ts| == |vs| && Picked(m, ts, vs, n)
    ensures var s := Subject(ts[n]);
      var best := Pick(ts, s, n);
      && (s != "" && (best == None || Class(ts[n]) < Class(ts[best.value])) ==> Picked(m[s := vs[n]], ts, vs, n + 1))
      && (s == "" || (best.Some? && Class(ts[n]) >= Class(ts[best.value])) ==> Picked(m, ts, vs, n + 1))
      && (s != "" ==> (s in m <==> best.Some?) && (best.Some? ==> m[s] == vs[best.value]))
  {
    hide Class, Subject, Rooted;
  }

  lemma PickedAll(m: map<string, int>, ts: seq<Thread>, vs: seq<Cell>)
    requires Shaped(ts) && |ts| == |vs| && Picked(m, ts, vs, |ts|)
    ensures TableOf(m, ts, vs)
  {
    forall k | 0 <= k < |ts| && Subject(ts[k]) != ""
      ensures Subject(ts[k]) in m && m[Subject(ts[k])] == vs[StandingFor(ts, k)]
    {
      PickStands(ts, k);
    }
  }

  /** Step 5B for one root. */
  method EnterSubject(np: NodePool, ht: HashTab, cur: Cell, ghost f: seq<Rose>, ghost n: nat)
    requires np.Valid() && ht.Valid() && Proper(np.sc, np.next, np.branch, f) && n < |f| && cur == f[n].v
    requires Picked(ht.contents, Show(np.sc, f), Tops(f), n)
    modifies ht
    ensures ht.Valid() && Picked(ht.contents, Show(np.sc, f), Tops(f), n + 1)
  {
    hide Picked, Pick, Proper, HashTab.Valid, NodePool.Valid;
    ghost var ts := Show(np.sc, f);
    ProperFacts(np.sc, np.next, np.branch, f);
    RootNode(np.sc, np.next, np.branch, f, n);
    PickedMore(ht.contents, ts, Tops(f), n);
    var m := LeadOfNode(np, cur);
    if m.subject != "" {
      var sub := ht.Lookup(m.subject);
      if sub == None {
        ht.Add(m.subject, cur);
      } else {
        ghost var best := Pick(ts, m.subject, n).value;
        RootNode(np.sc, np.next, np.branch, f, best);
        var lst := sub.value;
        var s := np.sc[lst];
        if s.Some? && (np.sc[cur] == None || (!m.refwd && s.value.refwd)) {
          ht.Replace(m.subject, cur);
        }
      }
    }
  }

  /** Step 5B. */
  method FillTable(np: NodePool, ht: HashTab, root: nat, ghost f: seq<Rose>)
    requires np.Valid() && ht.Valid() && ht.contents == map[]
    requires Proper(np.sc, np.next, np.branch, f) && root == Head(f)
    modifies ht
    ensures ht.Valid() && TableOf(ht.contents, Show(np.sc, f), Tops(f))
  {
    hide Picked, HashTab.Valid, NodePool.Valid, Proper, TableOf;
    ProperFacts(np.sc, np.next, np.branch, f);
    PickedNone(Show(np.sc, f), Tops(f));
    var cur := root;
    ghost var n := 0;
    while cur != NIL
      invariant n <= |f| && cur == HeadAt(f, n) && ht.Valid()
      invariant Picked(ht.contents, Show(np.sc, f), Tops(f), n)
      decreases |f| - n
    {
      RootNode(np.sc, np.next, np.branch, f, n);
      EnterSubject(np, ht, cur, f, n);
      cur := np.branch[cur];
      n := n + 1;
    }
    PickedAll(ht.contents, Show(np.sc, f), Tops(f));
  }

  lemma ProperFacts(sc: map<Cell, Option<Message>>, next: map<Cell, nat>, branch: map<Cell, nat>, f: seq<Rose>)
    requires Proper(sc, next, branch, f)
    ensures sc.Keys == next.Keys && Listed(next, branch, f) && Shaped(Show(sc, f)) && |Show(sc, f)| == |f| == |Tops(f)|
  {
  }

  // ---- Step 5C ----

  /** The current root is the one at `i`, after its elder sister `sis`; the table
      serves for the roots as they are now. */
  ghost predicate Scanning(sc: map<Cell, Option<Message>>, next: map<Cell, nat>, branch: map<Cell, nat>,
                           m: map<string, int>,
                           f: seq<Rose>, i: nat, root: nat, sis: nat, cur: nat) {
    && Proper(sc, next, branch, f) && TableOf(m, Show(sc, f), Tops(f))
    && i <= |f| && root == Head(f) && cur == HeadAt(f, i)
    && sis == if i == 0 then NIL else f[i - 1].v
  }

  lemma ScanningFacts(sc: map<Cell, Option<Message>>, next: map<Cell, nat>, branch: map<Cell, nat>, m: map<string, int>,
                      f: seq<Rose>, i: nat, root: nat, sis: nat, cur: nat)
    requires Scanning(sc, next, branch, m, f, i, root, sis, cur) && i < |f|
    ensures Proper(sc, next, branch, f) && Shaped(Show(sc, f)) && |Show(sc, f)| == |f|
    ensures cur == f[i].v && root == f[0].v && sis == if i == 0 then NIL else f[i - 1].v
    ensures var ts := Show(sc, f); var s, j := Subject(ts[i]), StandingFor(ts, i);
      s != "" ==> s in m && m[s] == f[j].v && (f[j].v == cur <==> j == i)
  {
    var j := StandingFor(Show(sc, f), i);
    TopsApart(f, i, j);
  }

  /** A root that has no subject or stands for its own stays. */
  lemma KeepRoot(sc: map<Cell, Option<Message>>, next: map<Cell, nat>, branch: map<Cell, nat>, m: map<string, int>,
                 f: seq<Rose>, i: nat, root: nat, sis: nat, cur: nat)
    requires Scanning(sc, next, branch, m, f, i, root, sis, cur) && i < |f|
    ensures cur in branch && Scanning(sc, next, branch, m, f, i + 1, root, cur, branch[cur])
  {
    RootNode(sc, next, branch, f, i);
  }

  /** The last node of a list. */
  method YoungestNode(np: NodePool, first: Cell, ghost k: seq<Rose>) returns (cur: Cell)
    requires k != [] && first == k[0].v && Linked(np.next, np.branch, k, NIL)
    ensures cur == k[|k| - 1].v && cur in np.branch
  {
    cur := first;
    ghost var rest := k;
    while np.branch[cur] != NIL
      invariant rest != [] && cur == rest[0].v && Linked(np.next, np.branch, rest, NIL)
      invariant rest[|rest| - 1] == k[|k| - 1]
      decreases |rest|
    {
      rest := rest[1..];
      cur := np.branch[cur];
    }
  }

  /** The elder sister of `x` on the way along `vs`. */
  method ElderNode(np: NodePool, root: Cell, x: Cell, ghost vs: seq<Cell>) returns (nxt: Cell)
    requires |vs| > 1 && root == vs[0] && x == vs[|vs| - 1]
    requires forall y | 0 <= y < |vs| - 1 :: vs[y] in np.branch && np.branch[vs[y]] == vs[y + 1] && vs[y] != x
    ensures nxt == vs[|vs| - 2]
  {
    nxt := root;
    ghost var y := 0;
    while np.branch[nxt] != x
      invariant 0 <= y < |vs| - 1 && nxt == vs[y]
      decreases |vs| - y
    {
      y := y + 1;
      assert vs[y] != x;
      nxt := np.branch[nxt];
    }
    assert vs[y + 1] == x;
  }

  /** Appends the current root, or its children if it is a dummy, to the children
      of the dummy `lst`. */
  method AdoptIntoDummy(np: NodePool, cur: Cell, lst: Cell, ghost f: seq<Rose>, ghost i: nat, ghost j: nat)
    returns (msg: nat)
    requires Proper(np.sc, np.next, np.branch, f) && i < |f| && j < |f| && i != j && cur == f[i].v && lst == f[j].v
    requires np.sc.Keys == np.branch.Keys && lst in np.sc && np.sc[lst] == None
    modifies np`next, np`branch
    ensures cur in np.sc && np.sc.Keys == np.branch.Keys == np.next.Keys
    ensures np.next == AdoptedNext(old(np.next), f, i, j, np.sc[cur] == None)
    ensures AdoptedBranch(old(np.branch), f, i, j, np.sc[cur] == None) ==
      if i == 0 then np.branch else np.branch[f[i - 1].v := HeadAt(f, i + 1)]
    ensures msg == HeadAt(f, i + 1)
    ensures f[j].kids != []
  {
    hide Proper, Pre, NoDup, Show, AdoptedNext, AdoptedBranch;
    ProperFacts(np.sc, np.next, np.branch, f);
    RootNode(np.sc, np.next, np.branch, f, i);
    RootNode(np.sc, np.next, np.branch, f, j);
    AdoptApart(np.sc, np.next, np.branch, f, i, j);
    AdoptedParts(np.next, np.branch, f, i, j, np.sc[cur] == None);
    msg := YoungestNode(np, np.next[lst], f[j].kids);
    if np.sc[cur] == None {
      np.branch := np.branch[msg := np.next[cur]];
      msg := np.branch[cur];
      np.branch := np.branch[cur := NIL];
      np.next := np.next[cur := NIL];
    } else {
      np.branch := np.branch[msg := cur];
      msg := np.branch[cur];
      np.branch := np.branch[cur := NIL];
    }
  }

  /** The links that change when root `i` goes to the children of root `j`. */
  lemma AdoptedParts(next: map<Cell, nat>, branch: map<Cell, nat>, f: seq<Rose>, i: nat, j: nat, dummy: bool)
    requires i < |f| && j < |f|
    ensures f[j].kids != [] ==> AdoptedNext(next, f, i, j, dummy) == if dummy then next[f[i].v := NIL] else next
    ensures !dummy && f[j].kids == [] ==> AdoptedNext(next, f, i, j, dummy) == next[f[j].v := f[i].v]
    ensures var k := f[j].kids;
      var last := if k == [] then branch else branch[k[|k| - 1].v := if dummy then Head(f[i].kids) else f[i].v];
      AdoptedBranch(branch, f, i, j, dummy) ==
        if i == 0 then last[f[i].v := NIL] else last[f[i].v := NIL][f[i - 1].v := HeadAt(f, i + 1)]
  {
  }

  /** Appends the current root, a reply, to the children of the message `lst`. */
  method AdoptIntoMessage(np: NodePool, cur: Cell, lst: Cell, ghost f: seq<Rose>, ghost i: nat, ghost j: nat)
    returns (msg: nat)
    requires Proper(np.sc, np.next, np.branch, f) && i < |f| && j < |f| && i != j && cur == f[i].v && lst == f[j].v
    requires np.sc.Keys == np.branch.Keys
    modifies np`next, np`branch
    ensures np.sc.Keys == np.branch.Keys == np.next.Keys
    ensures np.next == AdoptedNext(old(np.next), f, i, j, false)
    ensures AdoptedBranch(old(np.branch), f, i, j, false) ==
      if i == 0 then np.branch else np.branch[f[i - 1].v := HeadAt(f, i + 1)]
    ensures msg == HeadAt(f, i + 1)
  {
    hide Proper, Pre, NoDup, Show, AdoptedNext, AdoptedBranch;
    ProperFacts(np.sc, np.next, np.branch, f);
    RootNode(np.sc, np.next, np.branch, f, i);
    RootNode(np.sc, np.next, np.branch, f, j);
    AdoptApart(np.sc, np.next, np.branch, f, i, j);
    AdoptedParts(np.next, np.branch, f, i, j, false);
    if np.next[lst] != NIL {
      msg := YoungestNode(np, np.next[lst], f[j].kids);
      np.branch := np.branch[msg := cur];
    } else {
      np.next := np.next[lst := cur];
    }
    msg := np.branch[cur];
    np.branch := np.branch[cur := NIL];
  }

  lemma AdoptApart(sc: map<Cell, Option<Message>>, next: map<Cell, nat>, branch: map<Cell, nat>,
                   f: seq<Rose>, i: nat, j: nat)
    requires Proper(sc, next, branch, f) && i < |f| && j < |f| && i != j
    ensures f[j].kids != [] ==> f[j].kids[|f[j].kids| - 1].v != f[i].v
    ensures i > 0 ==> f[i - 1].v in branch
  {
    AdoptCells(f, i, j);
    if i > 0 {
      RootNode(sc, next, branch, f, i - 1);
    }
  }

  lemma TopsRemove(f: seq<Rose>, i: nat, j: nat, t: Rose)
    requires i < |f| && j < |f|
    ensures Tops(Remove(f[j := t], i)) == Remove(Tops(f)[j := t.v], i)
  {
    hide Tops;
  }

  /** The roots and their table after an adoption. */
  lemma AfterAdoption(sc: map<Cell, Option<Message>>, next: map<Cell, nat>, branch: map<Cell, nat>, m: map<string, int>,
                      f: seq<Rose>, i: nat, root: nat, sis: nat, cur: nat)
    requires Scanning(sc, next, branch, m, f, i, root, sis, cur) && i < |f| && Adopts(Show(sc, f), i)
    ensures var ts := Show(sc, f);
      var j, dummy := StandingFor(ts, i), ts[i].msg == None;
      var f' := Adopted(f, i, j, dummy);
      && Scanning(sc, AdoptedNext(next, f, i, j, dummy), AdoptedBranch(branch, f, i, j, dummy), m, f', i,
                  if i == 0 then HeadAt(f, 1) else root, sis, HeadAt(f, i + 1))
      && Show(sc, f') == Step(ts, i).0 && Step(ts, i).1 == i
  {
    hide AdoptedNext, AdoptedBranch, Pre, NoDup, Show, Stands, TableOf, Step, Adopts, Linked, Shaped, Tops, StandingFor;
    var ts := Show(sc, f);
    var j, dummy := StandingFor(ts, i), ts[i].msg == None;
    AdoptedShow(sc, next, branch, m, f, i);
    AdoptedListed(next, branch, f, i, j, dummy);
    AdoptedKeys(next, branch, f, i, j, dummy);
  }

  /** The current root goes below the one that stands for its subject. */
  ghost predicate Adopts(ts: seq<Thread>, i: nat)
    requires Shaped(ts) && i < |ts|
  {
    var j := StandingFor(ts, i);
    && Subject(ts[i]) != "" && j != i
    && (ts[j].msg == None || (ts[i].msg.Some? && ts[i].msg.value.refwd && !ts[j].msg.value.refwd))
  }

  lemma AdoptedShow(sc: map<Cell, Option<Message>>, next: map<Cell, nat>, branch: map<Cell, nat>, m: map<string, int>,
                    f: seq<Rose>, i: nat)
    requires Proper(sc, next, branch, f) && TableOf(m, Show(sc, f), Tops(f)) && i < |f| && Adopts(Show(sc, f), i)
    ensures var ts := Show(sc, f);
      var j, dummy := StandingFor(ts, i), ts[i].msg == None;
      var f' := Adopted(f, i, j, dummy);
      && i != j && (dummy ==> f[j].kids != [])
      && Show(sc, f') == Step(ts, i).0 && Step(ts, i).1 == i
      && TableOf(m, Show(sc, f'), Tops(f'))
  {
    hide Pre, NoDup, Show, Stands, TableOf, Linked, Shaped;
    var ts := Show(sc, f);
    var j, dummy := StandingFor(ts, i), ts[i].msg == None;
    RootNode(sc, next, branch, f, i);
    RootNode(sc, next, branch, f, j);
    var more := if dummy then ts[i].kids else [ts[i]];
    if !dummy {
      OnePlain(ts[i]);
    }
    AdoptStep(ts, i);
    AdoptRooted(ts[j], more);
    ShowAdopted(sc, f, i, j);
    TableAdopted(m, ts, Tops(f), i, j, Adopt(ts[j], more));
    TopsRemove(f, i, j, Node(f[j].v, f[j].kids + if dummy then f[i].kids else [f[i]]));
    assert Tops(f)[j := f[j].v] == Tops(f);
  }

  lemma AdoptStep(ts: seq<Thread>, i: nat)
    requires Shaped(ts) && i < |ts| && Adopts(ts, i)
    ensures var j := StandingFor(ts, i);
      && Step(ts, i) == (Remove(ts[j := Adopt(ts[j], if ts[i].msg == None then ts[i].kids else [ts[i]])], i), i)
      && (ts[i].msg == None ==> ts[j].msg == None)
  {
  }

  lemma AdoptedKeys(next: map<Cell, nat>, branch: map<Cell, nat>, f: seq<Rose>, i: nat, j: nat, dummy: bool)
    requires Listed(next, branch, f) && i < |f| && j < |f|
    ensures AdoptedNext(next, f, i, j, dummy).Keys == next.Keys
  {
    LinkedByIndex(next, branch, f);
    assert Hung(next, branch, f[i]) && Hung(next, branch, f[j]);
  }

  /** The tops of a list are different nodes, linked one to the next. */
  ghost predicate TopChain(branch: map<Cell, nat>, f: seq<Rose>) {
    && (forall x {:trigger f[x]} | 0 <= x < |f| :: f[x].v in branch && branch[f[x].v] == HeadAt(f, x + 1))
    && (forall x, y {:trigger f[x], f[y]} | 0 <= x < |f| && 0 <= y < |f| && f[x].v == f[y].v :: x == y)
  }

  lemma TopsChained(sc: map<Cell, Option<Message>>, next: map<Cell, nat>, branch: map<Cell, nat>, f: seq<Rose>)
    requires Proper(sc, next, branch, f)
    ensures TopChain(branch, f)
  {
    hide Pre, NoDup, Show;
    forall x | 0 <= x < |f|
      ensures f[x].v in branch && branch[f[x].v] == HeadAt(f, x + 1)
    {
      RootNode(sc, next, branch, f, x);
    }
    forall x, y | 0 <= x < |f| && 0 <= y < |f| && f[x].v == f[y].v
      ensures x == y
    {
      TopsApart(f, x, y);
    }
  }

  /** Takes the root `lst` out of the list. */
  method TakeOut(np: NodePool, root: Cell, sis: Cell, lst: Cell, ghost f: seq<Rose>, ghost j: nat)
    returns (root': nat, sis': nat)
    requires TopChain(np.branch, f) && j + 1 < |f| && lst == f[j].v && root == f[0].v
    modifies np`branch
    ensures np.branch == WithoutBranch(old(np.branch), f, j) && np.branch.Keys == old(np.branch.Keys)
    ensures root' == if j == 0 then f[1].v else root
    ensures sis' == if j == 0 && sis == lst then NIL else sis
  {
    root', sis' := root, sis;
    assert f[j].v == lst && f[0].v == root;
    if lst == root {
      root' := np.branch[lst];
      if lst == sis {
        sis' := NIL;
      }
    } else {
      ghost var vs := Tops(f)[..j + 1];
      forall y | 0 <= y < |vs| - 1
        ensures vs[y] in np.branch && np.branch[vs[y]] == vs[y + 1] && vs[y] != lst
      {
        assert f[y].v == vs[y] && f[y + 1].v == vs[y + 1];
      }
      var nxt := ElderNode(np, root, lst, vs);
      assert nxt == f[j - 1].v;
      np.branch := np.branch[nxt := np.branch[lst]];
    }
  }

  /** Finds the elder sister of the current root anew, after its elder sister
      `lst` was taken out of the list and linked to it. */
  method Rescan(np: NodePool, root: Cell, cur: Cell, lst: Cell, ghost branch: map<Cell, nat>, ghost f: seq<Rose>,
                ghost j: nat)
    returns (sis: Cell)
    requires TopChain(branch, f) && 0 < j && j + 1 < |f| && lst == f[j].v && cur == f[j + 1].v && root == f[0].v
    requires np.branch == WithoutBranch(branch, f, j)[lst := cur]
    ensures sis == f[j - 1].v
  {
    ghost var vs := Tops(f)[..j] + [cur];
    forall y | 0 <= y < |vs| - 1
      ensures vs[y] in np.branch && np.branch[vs[y]] == vs[y + 1] && vs[y] != cur
    {
      assert f[y].v == vs[y] && f[y + 1].v in branch;
      assert f[j].v == lst && f[j + 1].v == cur && f[j - 1].v in branch;
    }
    sis := ElderNode(np, root, cur, vs);
  }

  /** Makes a new dummy over the message `lst`, which stands for the subject, and
      the current root; the dummy takes the place of the latter. */
  method PairUnderDummy(np: NodePool, root: Cell, sis: Cell, cur: Cell, lst: Cell,
                        ghost f: seq<Rose>, ghost i: nat, ghost j: nat) returns (root': nat, dummy: Cell, msg: nat)
    requires np.Valid() && TopChain(np.branch, f) && j < i < |f| && cur == f[i].v && lst == f[j].v
    requires root == f[0].v && sis == f[i - 1].v
    modifies np
    ensures np.Valid() && dummy == old(np.count) + 1 && np.count == dummy
    ensures np.sc == old(np.sc)[dummy := None] && np.next == old(np.next)[dummy := lst]
    ensures np.branch == PairedBranch(old(np.branch), f, i, j, dummy)
    ensures msg == HeadAt(f, i + 1) && root' == Paired(f, i, j, dummy)[0].v
  {
    hide TopChain, Paired, PairedBranch;
    dummy := np.New(None);
    NewChained(old(np.branch), f, dummy);
    ghost var branch0 := np.branch;
    root', msg := LinkPair(np, root, sis, cur, lst, dummy, f, i, j);
    np.next := np.next[dummy := lst];
    PairedAnew(old(np.branch), f, i, j, dummy);
  }

  /** The links between roots that change when the pair is made. */
  method LinkPair(np: NodePool, root: Cell, sis: Cell, cur: Cell, lst: Cell, dummy: Cell,
                  ghost f: seq<Rose>, ghost i: nat, ghost j: nat) returns (root': nat, msg: nat)
    requires TopChain(np.branch, f) && j < i < |f| && cur == f[i].v && lst == f[j].v
    requires root == f[0].v && sis == f[i - 1].v && forall x {:trigger f[x]} | 0 <= x < |f| :: f[x].v != dummy
    requires dummy in np.branch
    modifies np`branch
    ensures np.branch == PairedBranch(old(np.branch), f, i, j, dummy) && np.branch.Keys == old(np.branch.Keys)
    ensures msg == HeadAt(f, i + 1) && root' == Paired(f, i, j, dummy)[0].v
  {
    hide TopChain, Paired, WithoutBranch, HeadAt;
    ghost var branch0 := np.branch;
    var sis';
    root', sis' := TakeOut(np, root, sis, lst, f, j);
    np.branch := np.branch[lst := cur];
    TopsDiffer(branch0, f, i, j);
    PairedHead(f, i, j, dummy);
    if sis' != NIL {
      if sis' == lst {
        sis' := Rescan(np, root', cur, lst, branch0, f, j);
      }
      np.branch := np.branch[sis' := dummy];
    } else {
      root' := dummy;
    }
    WithoutAt(branch0, f, i, j);
    msg := np.branch[cur];
    np.branch := np.branch[cur := NIL];
    np.branch := np.branch[dummy := msg];
  }

  lemma WithoutAt(branch: map<Cell, nat>, f: seq<Rose>, i: nat, j: nat)
    requires TopChain(branch, f) && j < i < |f|
    ensures f[i].v in WithoutBranch(branch, f, j) && WithoutBranch(branch, f, j)[f[i].v] == HeadAt(f, i + 1)
  {
  }

  lemma PairedHead(f: seq<Rose>, i: nat, j: nat, m: Cell)
    requires j < i < |f|
    ensures Paired(f, i, j, m)[0].v == if i == 1 then m else if j == 0 then f[1].v else f[0].v
  {
  }

  lemma PairedAnew(branch: map<Cell, nat>, f: seq<Rose>, i: nat, j: nat, m: Cell)
    requires j < i < |f| && forall x {:trigger f[x]} | 0 <= x < |f| :: f[x].v != m
    ensures PairedBranch(branch[m := NIL], f, i, j, m) == PairedBranch(branch, f, i, j, m)
  {
  }

  lemma NewChained(branch: map<Cell, nat>, f: seq<Rose>, m: Cell)
    requires TopChain(branch, f) && m !in branch
    ensures TopChain(branch[m := NIL], f) && forall x {:trigger f[x]} | 0 <= x < |f| :: f[x].v != m
  {
  }

  lemma TopsDiffer(branch: map<Cell, nat>, f: seq<Rose>, i: nat, j: nat)
    requires TopChain(branch, f) && j < i < |f|
    ensures f[i].v in branch && f[j].v in branch && branch[f[i].v] == HeadAt(f, i + 1) && f[i].v != f[j].v
    ensures f[i - 1].v in branch && f[i - 1].v != f[i].v && (f[i - 1].v == f[j].v ==> i - 1 == j)
    ensures j > 0 ==> f[j - 1].v in branch && f[j - 1].v != f[i].v && f[j - 1].v != f[j].v && f[j - 1].v != f[i - 1].v
    ensures f[0].v == f[j].v ==> j == 0
  {
  }

  /** The current root is paired with the message that stands for its subject. */
  ghost predicate Pairs(ts: seq<Thread>, i: nat)
    requires Shaped(ts) && i < |ts|
  {
    Subject(ts[i]) != "" && StandingFor(ts, i) != i && !Adopts(ts, i)
  }

  lemma PairStep(ts: seq<Thread>, i: nat)
    requires Shaped(ts) && i < |ts| && Pairs(ts, i)
    ensures var j := StandingFor(ts, i);
      && Step(ts, i) == (Remove(ts[i := Thread(None, [ts[j], ts[i]])], j), i)
      && j < i && ts[i].msg.Some? && ts[j].msg.Some?
  {
    NewDummy(ts, i, StandingFor(ts, i));
  }

  /** The roots and their table after a pair was made. */
  lemma AfterPair(sc: map<Cell, Option<Message>>, next: map<Cell, nat>, branch: map<Cell, nat>, m: map<string, int>,
                  f: seq<Rose>, i: nat, root: nat, sis: nat, cur: nat, dummy: Cell)
    requires Scanning(sc, next, branch, m, f, i, root, sis, cur) && i < |f| && Pairs(Show(sc, f), i) && dummy !in next
    ensures var ts := Show(sc, f);
      var j := StandingFor(ts, i);
      && j < i
      && var f' := Paired(f, i, j, dummy);
      && Scanning(sc[dummy := None], next[dummy := f[j].v], PairedBranch(branch, f, i, j, dummy),
                  m[Subject(ts[i]) := dummy], f', i, f'[0].v, dummy, HeadAt(f, i + 1))
      && Show(sc[dummy := None], f') == Step(ts, i).0 && Step(ts, i).1 == i
  {
    hide PairedBranch, Pre, NoDup, Show, Stands, TableOf, Step, Linked, Shaped, Pairs, Tops, StandingFor;
    var ts := Show(sc, f);
    var j := StandingFor(ts, i);
    AllNodes(next, branch, f);
    PairStep(ts, i);
    PairedShow(sc, m, f, i, dummy);
    PairedListed(next, branch, f, i, j, dummy);
  }

  lemma AllNodes(next: map<Cell, nat>, branch: map<Cell, nat>, f: seq<Rose>)
    requires Linked(next, branch, f, NIL)
    ensures forall c <- Pre(f) :: c in next
  {
    LinkedNodes(next, branch, f, NIL);
  }

  lemma {:induction false} LinkedNodes(next: map<Cell, nat>, branch: map<Cell, nat>, f: seq<Rose>, tail: nat)
    requires Linked(next, branch, f, tail)
    ensures forall c <- Pre(f) :: c in next
  {
    if f != [] {
      LinkedNodes(next, branch, f[0].kids, NIL);
      LinkedNodes(next, branch, f[1..], tail);
    }
  }

  lemma PairedShow(sc: map<Cell, Option<Message>>, m: map<string, int>, f: seq<Rose>, i: nat, dummy: Cell)
    requires Shaped(Show(sc, f)) && TableOf(m, Show(sc, f), Tops(f)) && i < |f| && Pairs(Show(sc, f), i)
    requires dummy !in Pre(f)
    ensures var ts := Show(sc, f);
      var j := StandingFor(ts, i);
      && j < i
      && var f' := Paired(f, i, j, dummy);
      && Show(sc[dummy := None], f') == Step(ts, i).0 && Step(ts, i).1 == i
      && TableOf(m[Subject(ts[i]) := dummy], Show(sc[dummy := None], f'), Tops(f'))
  {
    hide Pre, Show, Stands, TableOf, Shaped, Step;
    var ts := Show(sc, f);
    var j := StandingFor(ts, i);
    PairStep(ts, i);
    ShowPaired(sc, f, i, j, dummy);
    RootedAt(ts, i);
    RootedAt(ts, j);
    PairRooted(ts[j], ts[i]);
    TablePaired(m, ts, Tops(f), i, j, Thread(None, [ts[j], ts[i]]), dummy);
    TopsRemove(f, j, i, Node(dummy, [f[j], f[i]]));
  }

  lemma RootedAt(ts: seq<Thread>, i: nat)
    requires Shaped(ts) && i < |ts|
    ensures Rooted(ts[i])
  {
  }

  /** Step 5C for the current root; the node after it comes next. */
  method MergeRoot(np: NodePool, ht: HashTab, root: Cell, sis: nat, cur: Cell, ghost f: seq<Rose>, ghost i: nat)
    returns (root': nat, sis': nat, msg: nat, ghost f': seq<Rose>, ghost i': nat)
    requires np.Valid() && ht.Valid() && i < |f|
    requires Scanning(np.sc, np.next, np.branch, ht.contents, f, i, root, sis, cur)
    modifies np, ht
    ensures np.Valid() && ht.Valid() && Scanning(np.sc, np.next, np.branch, ht.contents, f', i', root', sis', msg)
    ensures Shaped(old(Show(np.sc, f))) && (Show(np.sc, f'), i') == Step(old(Show(np.sc, f)), i)
  {
    hide Scanning, Step, Proper, HashTab.Valid, Rooted, Pre, Show, Stands, Pairs, Adopts, StandingFor;
    ghost var ts := Show(np.sc, f);
    ScanningFacts(np.sc, np.next, np.branch, ht.contents, f, i, root, sis, cur);
    RootNode(np.sc, np.next, np.branch, f, i);
    StayStep(ts, i);
    var lead := LeadOfNode(np, cur);
    var sub := ht.Lookup(lead.subject);
    if lead.subject == "" || sub == Some(cur) {
      KeepRoot(np.sc, np.next, np.branch, ht.contents, f, i, root, sis, cur);
      return root, cur, np.branch[cur], f, i + 1;
    }
    ghost var j := StandingFor(ts, i);
    RootNode(np.sc, np.next, np.branch, f, j);
    var lst := sub.value;
    AbsorbCases(ts, i);
    if np.sc[lst] == None || (np.sc[cur].value.refwd && !np.sc[lst].value.refwd) {
      root', msg, f' := AdoptRoot(np, ht.contents, root, sis, cur, lst, f, i, j);
      sis', i' := sis, i;
    } else {
      root', sis', msg, f' := PairRoots(np, ht, root, sis, cur, lst, lead.subject, f, i, j);
      i' := i;
    }
  }

  /** The turn in which a new dummy is made. */
  method PairRoots(np: NodePool, ht: HashTab, root: Cell, sis: Cell, cur: Cell, lst: Cell, subject: string,
                   ghost f: seq<Rose>, ghost i: nat, ghost j: nat)
    returns (root': nat, dummy: Cell, msg: nat, ghost f': seq<Rose>)
    requires np.Valid() && ht.Valid() && i < |f|
    requires Scanning(np.sc, np.next, np.branch, ht.contents, f, i, root, sis, cur)
    requires Shaped(Show(np.sc, f)) && Pairs(Show(np.sc, f), i) && j == StandingFor(Show(np.sc, f), i) && j < i
    requires lst == f[j].v && subject == Subject(Show(np.sc, f)[i]) && subject in ht.contents
    modifies np, ht
    ensures np.Valid() && ht.Valid() && Scanning(np.sc, np.next, np.branch, ht.contents, f', i, root', dummy, msg)
    ensures Shaped(old(Show(np.sc, f))) && (Show(np.sc, f'), i) == Step(old(Show(np.sc, f)), i)
  {
    hide Scanning, Step, Proper, HashTab.Valid, Rooted, PairedBranch, Paired, Pre, Show, Stands, Pairs, StandingFor;
    hide TableOf, TopChain, Shaped, HeadAt, Subject;
    ScanningFacts(np.sc, np.next, np.branch, ht.contents, f, i, root, sis, cur);
    AfterPair(np.sc, np.next, np.branch, ht.contents, f, i, root, sis, cur, np.count + 1);
    TopsChained(np.sc, np.next, np.branch, f);
    root', dummy, msg := PairUnderDummy(np, root, sis, cur, lst, f, i, j);
    ht.Replace(subject, dummy);
    f' := Paired(f, i, j, dummy);
  }

  lemma StayStep(ts: seq<Thread>, i: nat)
    requires Shaped(ts) && i < |ts|
    ensures Subject(ts[i]) == "" || StandingFor(ts, i) == i ==> Step(ts, i) == (ts, i + 1)
  {
  }

  lemma AbsorbCases(ts: seq<Thread>, i: nat)
    requires Shaped(ts) && i < |ts| && Subject(ts[i]) != "" && StandingFor(ts, i) != i
    ensures var j := StandingFor(ts, i);
      && (ts[j].msg.Some? ==> ts[i].msg.Some?)
      && (Adopts(ts, i) <==> ts[j].msg == None || (ts[i].msg.value.refwd && !ts[j].msg.value.refwd))
      && (Adopts(ts, i) || (Pairs(ts, i) && j < i))
  {
    var j := StandingFor(ts, i);
    assert Stands(ts, Subject(ts[i]), j);
    if Pairs(ts, i) {
      PairStep(ts, i);
    }
  }

  /** An adoption, with the elder sister linked to the younger one. */
  method AdoptRoot(np: NodePool, ghost m: map<string, int>, root: Cell, sis: nat, cur: Cell, lst: Cell,
                   ghost f: seq<Rose>, ghost i: nat, ghost j: nat)
    returns (root': nat, msg: nat, ghost f': seq<Rose>)
    requires np.Valid() && i < |f| && Scanning(np.sc, np.next, np.branch, m, f, i, root, sis, cur)
    requires Shaped(Show(np.sc, f)) && Adopts(Show(np.sc, f), i) && j == StandingFor(Show(np.sc, f), i) && lst == f[j].v
    modifies np`next, np`branch
    ensures np.Valid() && Scanning(np.sc, np.next, np.branch, m, f', i, root', sis, msg)
    ensures (Show(np.sc, f'), i) == Step(Show(np.sc, f), i)
  {
    hide Scanning, Step, Proper, AdoptedNext, AdoptedBranch, Adopted, Pre, NoDup, Listed, Show, Stands, StandingFor;
    hide TableOf;
    ghost var ts := Show(np.sc, f);
    AfterAdoption(np.sc, np.next, np.branch, m, f, i, root, sis, cur);
    ScanningFacts(np.sc, np.next, np.branch, m, f, i, root, sis, cur);
    RootNode(np.sc, np.next, np.branch, f, i);
    RootNode(np.sc, np.next, np.branch, f, j);
    f' := Adopted(f, i, j, np.sc[cur] == None);
    AdoptStep(ts, i);
    AdoptApart(np.sc, np.next, np.branch, f, i, j);
    if np.sc[lst] == None {
      msg := AdoptIntoDummy(np, cur, lst, f, i, j);
    } else {
      msg := AdoptIntoMessage(np, cur, lst, f, i, j);
    }
    root' := root;
    if sis != NIL {
      np.branch := np.branch[sis := msg];
    } else {
      root' := msg;
    }
  }

  /** Step 5C. */
  method MergeSubjects(np: NodePool, ht: HashTab, root: nat, ghost f: seq<Rose>)
    returns (root': nat, ghost g: seq<Rose>)
    requires np.Valid() && ht.Valid() && Proper(np.sc, np.next, np.branch, f) && root == Head(f)
    requires TableOf(ht.contents, Show(np.sc, f), Tops(f))
    modifies np, ht
    ensures np.Valid() && Proper(np.sc, np.next, np.branch, g) && root' == Head(g)
    ensures Shaped(old(Show(np.sc, f))) && Show(np.sc, g) == Merge(old(Show(np.sc, f)), 0)
  {
    hide Scanning, Step, Proper, HashTab.Valid, NodePool.Valid, Show, TableOf;
    ScanningStart(np.sc, np.next, np.branch, ht.contents, f);
    root' := root;
    var cur, sis := root, NIL;
    g := f;
    ghost var i := 0;
    while cur != NIL
      invariant np.Valid() && ht.Valid() && 0 <= i <= |g|
      invariant Scanning(np.sc, np.next, np.branch, ht.contents, g, i, root', sis, cur)
      invariant Shaped(old(Show(np.sc, f))) && Shaped(Show(np.sc, g)) && |Show(np.sc, g)| == |g|
      invariant Merge(Show(np.sc, g), i) == Merge(old(Show(np.sc, f)), 0)
      decreases |g| - i
    {
      ScanningCurrent(np.sc, np.next, np.branch, ht.contents, g, i, root', sis, cur);
      root', sis, cur, g, i := MergeRoot(np, ht, root', sis, cur, g, i);
      ScanningNow(np.sc, np.next, np.branch, ht.contents, g, i, root', sis, cur);
    }
    ScanningNow(np.sc, np.next, np.branch, ht.contents, g, i, root', sis, cur);
  }

  lemma ScanningStart(sc: map<Cell, Option<Message>>, next: map<Cell, nat>, branch: map<Cell, nat>, m: map<string, int>,
                      f: seq<Rose>)
    requires Proper(sc, next, branch, f) && TableOf(m, Show(sc, f), Tops(f))
    ensures Scanning(sc, next, branch, m, f, 0, Head(f), NIL, Head(f))
    ensures Shaped(Show(sc, f)) && |Show(sc, f)| == |f|
  {
  }

  lemma ScanningCurrent(sc: map<Cell, Option<Message>>, next: map<Cell, nat>, branch: map<Cell, nat>,
                        m: map<string, int>,
                        f: seq<Rose>, i: nat, root: nat, sis: nat, cur: nat)
    requires Scanning(sc, next, branch, m, f, i, root, sis, cur) && cur != NIL
    ensures i < |f| && root != NIL
  {
  }

  lemma ScanningNow(sc: map<Cell, Option<Message>>, next: map<Cell, nat>, branch: map<Cell, nat>, m: map<string, int>,
                    f: seq<Rose>, i: nat, root: nat, sis: nat, cur: nat)
    requires Scanning(sc, next, branch, m, f, i, root, sis, cur)
    ensures Proper(sc, next, branch, f) && Shaped(Show(sc, f)) && |Show(sc, f)| == |f| && i <= |f| && root == Head(f)
    ensures cur == NIL ==> i == |f|
  {
  }
}
