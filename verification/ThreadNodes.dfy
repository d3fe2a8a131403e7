/** The thread nodes that containers are turned into (step 3 of the REFERENCES
    algorithm), numbered from 1 like the containers. */
module ThreadNodes {
  import opened Messages
  import opened Roses
  import opened Threads
  import opened Containers
  import opened Pruning

  /** The threads that trees of labelled cells show. */
  ghost function Show(tag: map<Cell, Option<Message>>, f: seq<Rose>): (ts: seq<Thread>)
    ensures |ts| == |f|
  {
    if f == [] then []
    else [Thread(Label(tag, f[0].v), Show(tag, f[0].kids))] + Show(tag, f[1..])
  }

  ghost function Label(tag: map<Cell, Option<Message>>, c: Cell): Option<Message> {
    if c in tag then tag[c] else None
  }

  lemma {:induction false} ShowAppend(tag: map<Cell, Option<Message>>, f: seq<Rose>, g: seq<Rose>)
    ensures Show(tag, f + g) == Show(tag, f) + Show(tag, g)
  {
    if f == [] {
      assert f + g == g;
    } else {
      assert (f + g)[1..] == f[1..] + g;
      ShowAppend(tag, f[1..], g);
    }
  }

  lemma {:induction false} ShowAt(tag: map<Cell, Option<Message>>, f: seq<Rose>, i: nat)
    requires i < |f|
    ensures Show(tag, f)[i] == Thread(Label(tag, f[i].v), Show(tag, f[i].kids))
  {
    if i > 0 {
      ShowAt(tag, f[1..], i - 1);
    }
  }

  lemma {:induction false} ShowFrame(tag: map<Cell, Option<Message>>, tag': map<Cell, Option<Message>>, f: seq<Rose>)
    requires forall c <- Pre(f) :: Label(tag', c) == Label(tag, c)
    ensures Show(tag', f) == Show(tag, f)
  {
    if f != [] {
      assert f[0].v in Pre(f);
      assert forall c <- Pre(f[0].kids) :: c in Pre(f);
      assert forall c <- Pre(f[1..]) :: c in Pre(f);
      ShowFrame(tag, tag', f[0].kids);
      ShowFrame(tag, tag', f[1..]);
    }
  }

  /** The containers with what they hold. */
  ghost function Labels(cache: seq<Option<Message>>): map<Cell, Option<Message>> {
    if cache == [] then map[] else Labels(cache[..|cache| - 1])[|cache| := cache[|cache| - 1]]
  }

  lemma {:induction false} LabelsAt(cache: seq<Option<Message>>, c: Cell)
    ensures Label(Labels(cache), c) == if c <= |cache| then cache[c - 1] else None
  {
    if cache != [] {
      LabelsAt(cache[..|cache| - 1], c);
    }
  }

  /** All nodes: the message of each, and its links to its younger sister and to
      its eldest child. */
  class NodePool {
    var sc: map<Cell, Option<Message>>
    var branch: map<Cell, nat>
    var next: map<Cell, nat>
    var count: nat

    ghost predicate Valid()
      reads this
    {
      && sc.Keys == branch.Keys == next.Keys
      && forall c: Cell {:trigger c in next} {:trigger c in sc} {:trigger c in branch} :: c in sc <==> c <= count
    }

    constructor ()
      ensures Valid() && count == 0
    {
      sc, branch, next, count := map[], map[], map[], 0;
    }

    method New(msg: Option<Message>) returns (c: Cell)
      requires Valid()
      modifies this
      ensures Valid() && c == count == old(count) + 1
      ensures sc == old(sc)[c := msg] && branch == old(branch)[c := NIL] && next == old(next)[c := NIL]
    {
      count := count + 1;
      c := count;
      sc, branch, next := sc[c := msg], branch[c := NIL], next[c := NIL];
    }
  }

  /** The list `g` of nodes numbered above `lo`, `ret` its first and `cur` its last. */
  ghost predicate Built(branch: map<Cell, nat>, next: map<Cell, nat>, lo: nat, hi: nat,
                        g: seq<Rose>, ret: nat, cur: nat) {
    && Linked(next, branch, g, NIL) && NoDup(Pre(g))
    && (forall c <- Pre(g) :: lo < c <= hi)
    && ret == Head(g) && cur == if g == [] then NIL else g[|g| - 1].v
  }

  /** The nodes up to `lo` are as they were. */
  ghost predicate Older<T>(m: map<Cell, T>, m': map<Cell, T>, lo: nat) {
    forall c: Cell {:trigger c in m'} {:trigger m'[c]} | c <= lo && c in m :: c in m' && m'[c] == m[c]
  }

  /** Appends a node with children `k` to the list `g`; the node's number lies
      above those of the list and below those of its children. */
  lemma {:induction false} BuiltMore(branch: map<Cell, nat>, next: map<Cell, nat>, lo: nat, mid: nat, hi: nat,
                                     g: seq<Rose>, ret: nat, cur: nat, k: seq<Rose>,
                                     branch': map<Cell, nat>, next': map<Cell, nat>)
    requires Built(branch, next, lo, mid, g, ret, cur) && lo <= mid < hi
    requires Linked(next', branch', k, NIL) && NoDup(Pre(k)) && forall c <- Pre(k) :: mid + 1 < c <= hi
    requires forall c: Cell {:trigger branch'[c]} {:trigger c in branch'} | c <= mid && c in branch ::
      c in branch' && branch'[c] == if c == cur then mid + 1 else branch[c]
    requires forall c: Cell {:trigger next'[c]} {:trigger c in next'} | c <= mid && c in next ::
      c in next' && next'[c] == next[c]
    requires mid + 1 in branch' && mid + 1 in next' && branch'[mid + 1] == NIL && next'[mid + 1] == Head(k)
    ensures Built(branch', next', lo, hi, g + [Node(mid + 1, k)], if g == [] then mid + 1 else ret, mid + 1)
  {
    var n := Node(mid + 1, k);
    BuiltCells(g, k, mid + 1);
    if g != [] {
      BuiltLinks(branch, next, g, mid, branch', next');
    }
    LinkedAppend(next', branch', g, [n], NIL);
    LinkedOne(next', branch', n);
  }

  lemma BuiltCells(g: seq<Rose>, k: seq<Rose>, c: Cell)
    requires NoDup(Pre(g)) && NoDup(Pre(k)) && (forall x <- Pre(g) :: x < c) && forall x <- Pre(k) :: c < x
    ensures NoDup(Pre(g + [Node(c, k)]))
    ensures forall x <- Pre(g + [Node(c, k)]) :: x in Pre(g) || x == c || x in Pre(k)
  {
    var n := Node(c, k);
    assert Pre([n]) == [n.v] + Pre(k) by { assert [n][1..] == []; }
    hide Pre;
    NoDupConcat([n.v], Pre(k));
    NoDupConcat(Pre(g), Pre([n]));
    PreAppend(g, [n]);
  }

  lemma LinkedOne(next: map<Cell, nat>, branch: map<Cell, nat>, n: Rose)
    requires n.v in next && n.v in branch && next[n.v] == Head(n.kids) && branch[n.v] == NIL
    requires Linked(next, branch, n.kids, NIL)
    ensures Linked(next, branch, [n], NIL)
  {
    assert [n][1..] == [];
  }

  /** The last of the list gets the new node as its sister. */
  lemma BuiltLinks(branch: map<Cell, nat>, next: map<Cell, nat>, g: seq<Rose>, mid: nat,
                   branch': map<Cell, nat>, next': map<Cell, nat>)
    requires g != [] && Linked(next, branch, g, NIL) && NoDup(Pre(g)) && forall c <- Pre(g) :: c <= mid
    requires forall c: Cell {:trigger branch'[c]} {:trigger c in branch'} | c <= mid && c in branch ::
      c in branch' && branch'[c] == if c == g[|g| - 1].v then mid + 1 else branch[c]
    requires forall c: Cell {:trigger next'[c]} {:trigger c in next'} | c <= mid && c in next ::
      c in next' && next'[c] == next[c]
    ensures Linked(next', branch', g, mid + 1)
  {
    hide Pre, Linked;
    var cur := g[|g| - 1].v;
    LinkedRetail(next, branch, g, NIL, mid + 1);
    LastInPre(g);
    LastLinked(next, branch, g, NIL);
    var branch1 := branch[cur := mid + 1];
    forall c <- Pre(g) | c in next && c in branch1
      ensures c in next' && c in branch' && next'[c] == next[c] && branch'[c] == branch1[c]
    {
      assert c <= mid;
    }
    LinkedFrame(next, branch1, next', branch', g, mid + 1);
  }

  lemma BuiltNone(branch: map<Cell, nat>, next: map<Cell, nat>, lo: nat)
    ensures Built(branch, next, lo, lo, [], NIL, NIL)
  {
  }

  lemma BuiltFacts(branch: map<Cell, nat>, next: map<Cell, nat>, lo: nat, hi: nat, g: seq<Rose>, ret: nat, cur: nat)
    requires Built(branch, next, lo, hi, g, ret, cur)
    ensures ret == Head(g) && Linked(next, branch, g, NIL) && NoDup(Pre(g))
    ensures forall c <- Pre(g) :: lo < c <= hi
    ensures g != [] ==> cur in branch && lo < cur <= hi
    ensures g == [] ==> cur == NIL
  {
    if g != [] {
      LastInPre(g);
      LastLinked(next, branch, g, NIL);
    }
  }

  /** What the list shows grows by one thread. */
  lemma ShowMore(sc: map<Cell, Option<Message>>, sc': map<Cell, Option<Message>>, mid: nat,
                 g: seq<Rose>, k: seq<Rose>, msg: Option<Message>)
    requires forall c <- Pre(g) :: c <= mid && c in sc
    requires forall c: Cell | c <= mid && c in sc :: c in sc' && sc'[c] == sc[c]
    requires mid + 1 in sc' && sc'[mid + 1] == msg
    ensures Show(sc', g + [Node(mid + 1, k)]) == Show(sc, g) + [Thread(msg, Show(sc', k))]
  {
    ShowFrame(sc, sc', g);
    ShowAppend(sc', g, [Node(mid + 1, k)]);
    assert [Node(mid + 1, k)][1..] == [];
  }

  /** Turns a list of containers with everything below it into nodes. */
  method C2Node(pool: Pool, con: nat, np: NodePool, ghost f: seq<Rose>) returns (ret: nat, ghost g: seq<Rose>)
    requires Linked(pool.child, pool.sibling, f, NIL) && con == Head(f)
    requires Indexed(Now(pool), pool.cache) && np.Valid()
    modifies np
    ensures np.Valid() && old(np.count) <= np.count
    ensures Linked(np.next, np.branch, g, NIL) && ret == Head(g) && NoDup(Pre(g))
    ensures forall c <- Pre(g) :: old(np.count) < c <= np.count
    ensures Show(np.sc, g) == Show(Labels(pool.cache), f)
    ensures Older(old(np.sc), np.sc, old(np.count))
    ensures Older(old(np.branch), np.branch, old(np.count)) && Older(old(np.next), np.next, old(np.count))
    decreases |Pre(f)|
  {
    hide Built, Show, Indexed, Pre, Linked, Older;
    ret := NIL;
    var cur, con' := NIL, con;
    ghost var lo, rest := np.count, f;
    g := [];
    BuiltNone(np.branch, np.next, lo);
    ShowNone(np.sc);
    OlderSelf(np.sc, lo);
    OlderSelf(np.branch, lo);
    OlderSelf(np.next, lo);
    while con' != NIL
      invariant con' == Head(rest) && Linked(pool.child, pool.sibling, rest, NIL) && |Pre(rest)| <= |Pre(f)|
      invariant np.Valid() && lo <= np.count && Built(np.branch, np.next, lo, np.count, g, ret, cur)
      invariant Show(np.sc, g) + Show(Labels(pool.cache), rest) == Show(Labels(pool.cache), f)
      invariant Older(old(np.sc), np.sc, lo) && Older(old(np.branch), np.branch, lo) && Older(old(np.next), np.next, lo)
      decreases |rest|
    {
      ghost var sc0, branch0, next0 := np.sc, np.branch, np.next;
      FirstListed(Now(pool), rest, pool.cache);
      ShowFirst(Labels(pool.cache), rest);
      ret, cur, g := ConvertNext(pool, con', np, ret, cur, lo, g, rest);
      OlderTrans(old(np.sc), sc0, np.sc, lo);
      OlderTrans(old(np.branch), branch0, np.branch, lo);
      OlderTrans(old(np.next), next0, np.next, lo);
      rest := rest[1..];
      con' := pool.sibling[con'];
    }
    BuiltFacts(np.branch, np.next, lo, np.count, g, ret, cur);
  }

  /** Converts one container of a list with everything below it. */
  method ConvertNext(pool: Pool, con: Cell, np: NodePool, ret0: nat, cur0: nat, ghost lo: nat, ghost g0: seq<Rose>,
                     ghost f: seq<Rose>)
    returns (ret: nat, cur: nat, ghost g: seq<Rose>)
    requires f != [] && Linked(pool.child, pool.sibling, f, NIL) && con == f[0].v
    requires Indexed(Now(pool), pool.cache) && np.Valid()
    requires lo <= np.count && Built(np.branch, np.next, lo, np.count, g0, ret0, cur0)
    modifies np
    ensures np.Valid() && old(np.count) <= np.count && Built(np.branch, np.next, lo, np.count, g, ret, cur)
    ensures Show(np.sc, g) ==
      old(Show(np.sc, g0)) + [Thread(Label(Labels(pool.cache), con), Show(Labels(pool.cache), f[0].kids))]
    ensures Older(old(np.sc), np.sc, lo) && Older(old(np.branch), np.branch, lo) && Older(old(np.next), np.next, lo)
    decreases |Pre(f)|, 2
  {
    hide Built, Show, Indexed, Pre, Linked;
    BuiltFacts(np.branch, np.next, lo, np.count, g0, ret0, cur0);
    FirstListed(Now(pool), f, pool.cache);
    LabelsAt(pool.cache, con);
    ghost var branch0, next0, sc0, mid := np.branch, np.next, np.sc, np.count;
    ghost var k;
    ret, cur, k := ConvertOne(pool, con, np, ret0, cur0, f);
    BuiltMore(branch0, next0, lo, mid, np.count, g0, ret0, cur0, k, np.branch, np.next);
    ShowMore(sc0, np.sc, mid, g0, k, pool.cache[con - 1]);
    g := g0 + [Node(mid + 1, k)];
  }

  lemma OlderSelf<T>(m: map<Cell, T>, lo: nat)
    ensures Older(m, m, lo)
  {
  }

  lemma OlderTrans<T>(m: map<Cell, T>, m': map<Cell, T>, m'': map<Cell, T>, lo: nat)
    requires Older(m, m', lo) && Older(m', m'', lo)
    ensures Older(m, m'', lo)
  {
  }

  lemma ShowFirst(tag: map<Cell, Option<Message>>, f: seq<Rose>)
    requires f != []
    ensures Show(tag, f) == [Thread(Label(tag, f[0].v), Show(tag, f[0].kids))] + Show(tag, f[1..])
  {
  }

  lemma ShowNone(sc: map<Cell, Option<Message>>)
    ensures Show(sc, []) == []
  {
  }

  method ConvertOne(pool: Pool, con: Cell, np: NodePool, ret0: nat, cur0: nat, ghost f: seq<Rose>)
    returns (ret: nat, cur: nat, ghost k: seq<Rose>)
    requires f != [] && Linked(pool.child, pool.sibling, f, NIL) && con == f[0].v
    requires Indexed(Now(pool), pool.cache) && np.Valid()
    requires (ret0 == NIL <==> cur0 == NIL) && (cur0 != NIL ==> cur0 in np.branch)
    modifies np
    ensures np.Valid() && old(np.count) < np.count && cur == old(np.count) + 1
    ensures ret == if ret0 == NIL then cur else ret0
    ensures Linked(np.next, np.branch, k, NIL) && NoDup(Pre(k)) && forall c <- Pre(k) :: cur < c <= np.count
    ensures np.sc[cur] == pool.cache[con - 1] && np.branch[cur] == NIL && np.next[cur] == Head(k)
    ensures Show(np.sc, k) == Show(Labels(pool.cache), f[0].kids)
    ensures Older(old(np.sc), np.sc, old(np.count)) && Older(old(np.next), np.next, old(np.count))
    ensures forall c: Cell {:trigger np.branch[c]} {:trigger c in np.branch} |
        c <= old(np.count) && c in old(np.branch) ::
      c in np.branch && np.branch[c] == if c == cur0 then cur else old(np.branch)[c]
    decreases |Pre(f)|, 1
  {
    hide Show, Indexed, Pre, MessagesIn, Linked, NoDup;
    FirstListed(Now(pool), f, pool.cache);
    ret, cur := AppendNew(np, pool.cache[con - 1], ret0, cur0);
    k := AttachKids(pool, con, np, cur, f);
  }

  /** Converts the children of a container and hangs them below its new node. */
  method AttachKids(pool: Pool, con: Cell, np: NodePool, cur: Cell, ghost f: seq<Rose>) returns (ghost k: seq<Rose>)
    requires f != [] && Linked(pool.child, pool.sibling, f, NIL) && con == f[0].v
    requires Indexed(Now(pool), pool.cache) && np.Valid() && np.count == cur && np.next[cur] == NIL
    modifies np
    ensures np.Valid() && cur <= np.count
    ensures Linked(np.next, np.branch, k, NIL) && NoDup(Pre(k)) && forall c <- Pre(k) :: cur < c <= np.count
    ensures np.next[cur] == Head(k)
    ensures Show(np.sc, k) == Show(Labels(pool.cache), f[0].kids)
    ensures Older(old(np.sc), np.sc, cur) && Older(old(np.branch), np.branch, cur)
    ensures Older(old(np.next), np.next, cur - 1)
    decreases |Pre(f)|, 0
  {
    hide Show, Indexed, Pre, MessagesIn, Linked, NoDup;
    FirstListed(Now(pool), f, pool.cache);
    k := [];
    if pool.child[con] != NIL {
      var nxt;
      nxt, k := C2Node(pool, pool.child[con], np, f[0].kids);
      LinkedApart(np.next, np.branch, k, cur, nxt);
      np.next := np.next[cur := nxt];
    } else {
      ShowNone(np.sc);
      ShowNone(Labels(pool.cache));
      PreNone();
    }
  }

  lemma LinkedApart(next: map<Cell, nat>, branch: map<Cell, nat>, k: seq<Rose>, c: Cell, x: nat)
    requires Linked(next, branch, k, NIL) && c !in Pre(k)
    ensures Linked(next[c := x], branch, k, NIL)
  {
    LinkedFrame(next, branch, next[c := x], branch, k, NIL);
  }

  lemma PreNone()
    ensures Pre([]) == [] && NoDup([]) && forall next, branch :: Linked(next, branch, [], NIL)
  {
  }

  lemma FirstListed(l: Links, f: seq<Rose>, cache: seq<Option<Message>>)
    requires f != [] && Linked(l.child, l.sibling, f, NIL) && Indexed(l, cache)
    ensures f[0].v in l.child && f[0].v in l.sibling && f[0].v <= |cache|
    ensures l.child[f[0].v] == Head(f[0].kids) && l.sibling[f[0].v] == Head(f[1..])
    ensures Linked(l.child, l.sibling, f[0].kids, NIL) && Linked(l.child, l.sibling, f[1..], NIL)
    ensures |Pre(f[0].kids)| < |Pre(f)| && |Pre(f[1..])| < |Pre(f)|
  {
  }

  /** A new node at the end of a list. */
  method AppendNew(np: NodePool, msg: Option<Message>, ret0: nat, cur0: nat) returns (ret: nat, cur: nat)
    requires np.Valid() && (ret0 == NIL <==> cur0 == NIL) && (cur0 != NIL ==> cur0 in np.branch)
    modifies np
    ensures np.Valid() && np.count == cur == old(np.count) + 1 && ret == if ret0 == NIL then cur else ret0
    ensures cur in np.sc && np.sc[cur] == msg && np.branch[cur] == NIL && np.next[cur] == NIL
    ensures Older(old(np.sc), np.sc, old(np.count)) && Older(old(np.next), np.next, old(np.count))
    ensures forall c: Cell {:trigger np.branch[c]} {:trigger c in np.branch} |
        c <= old(np.count) && c in old(np.branch) ::
      c in np.branch && np.branch[c] == if c == cur0 then cur else old(np.branch)[c]
  {
    cur := np.New(msg);
    if ret0 != NIL {
      np.branch := np.branch[cur0 := cur];
      ret := ret0;
    } else {
      ret := cur;
    }
  }
}
