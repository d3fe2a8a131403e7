/** What the links that step 1 of the REFERENCES algorithm leaves have to do with the
    references of the messages. */
module Citing {
  import opened Messages
  import opened Roses
  import opened Containers
  import opened Linkages

  /** The unique string of a message: its id if it has one that no message before it
      goes by, else the string made up for it. */
  lemma NameGiven(sc: seq<Message>, i: nat)
    requires i < |sc|
    ensures var id := sc[i].messageId;
      Names(sc)[i] == if id.Some? && id.value !in Names(sc)[..i] then id.value else sc[i].generated
  {
    hide Names;
    var one := sc[..i + 1];
    assert one[..i] == sc[..i];
    NamesPrefix(sc, i);
    NamesPrefix(sc, i + 1);
    LastGiven(one);
    assert Names(sc)[..i + 1][i] == Names(sc)[i];
  }

  lemma {:induction false} NamesPrefix(sc: seq<Message>, i: nat)
    requires i <= |sc|
    ensures Names(sc)[..i] == Names(sc[..i])
  {
    hide Names;
    if i == |sc| {
      assert sc[..i] == sc;
    } else {
      var rest := sc[..|sc| - 1];
      NamesPrefix(rest, i);
      assert rest[..i] == sc[..i];
      NamesRest(sc);
      assert Names(sc)[..i] == Names(sc)[..|sc| - 1][..i];
    }
  }

  lemma NamesRest(sc: seq<Message>)
    requires sc != []
    ensures Names(sc)[..|sc| - 1] == Names(sc[..|sc| - 1])
  {
    hide Enrolled, UniqueName;
  }

  lemma LastGiven(sc: seq<Message>)
    requires sc != []
    ensures var n, id := |sc| - 1, sc[|sc| - 1].messageId;
      Names(sc)[n] == if id.Some? && id.value !in Names(sc[..n]) then id.value else sc[n].generated
  {
    hide Enrolled;
    if sc[|sc| - 1].messageId.Some? {
      NameBound(sc[..|sc| - 1], sc[|sc| - 1].messageId.value);
    }
  }

  // ---- Names and containers ----

  /** No container has two names. */
  ghost predicate OneName(ids: map<string, int>) {
    forall a, b {:trigger ids[a], ids[b]} | a in ids && b in ids && ids[a] == ids[b] :: a == b
  }

  lemma BoundOneName(k: Linkage, name: string)
    requires k.Ok() && OneName(k.ids)
    ensures OneName(k.Bound(name).ids)
  {
  }

  lemma {:induction false} ReferringOneName(k: Linkage, refs: seq<string>, n: nat)
    requires k.Ok() && OneName(k.ids) && n <= |refs|
    ensures OneName(k.Referring(refs, n).ids)
    decreases n
  {
    hide OneName, Family.Matched, Family.Ranked;
    if n > 0 {
      ReferringOneName(k, refs, n - 1);
      BoundOneName(if n == 1 then k else k.Referring(refs, n - 1), refs[n - 1]);
    }
  }

  lemma {:induction false} EnrolledOneName(sc: seq<Message>)
    ensures OneName(Enrolled(sc).ids)
  {
    if sc != [] {
      EnrolledOneName(sc[..|sc| - 1]);
      BoundOneName(Enrolled(sc[..|sc| - 1]), UniqueName(Enrolled(sc[..|sc| - 1]).ids.Keys, sc[|sc| - 1]));
    }
  }

  lemma LinkingOneName(k: Linkage, refs: seq<string>, name: string)
    requires k.Ok() && OneName(k.ids) && name in k.ids
    ensures OneName(k.Linking(refs, name).ids)
  {
    hide OneName, Family.Settle, Family.Matched, Family.Ranked;
    ReferringOneName(k, refs, |refs|);
  }

  lemma SteppedNone(sc: seq<Message>)
    ensures Stepped(sc, 0) == Enrolled(sc)
  {
  }

  /** A message without references keeps its root. */
  lemma LinkAlone(k: Linkage, id: string)
    requires k.Ok() && id in k.ids && k.fam.parent[k.ids[id] as Cell] == NIL
    ensures k.Linking([], id) == k
  {
    hide Family.Matched, Family.Ranked;
  }

  lemma {:induction false} SteppedOneName(sc: seq<Message>, n: nat)
    requires n <= |sc|
    ensures OneName(Stepped(sc, n).ids)
  {
    hide OneName, Linkage.Ok, Linkage.Linking, Stepped;
    if n == 0 {
      EnrolledOneName(sc);
      SteppedNone(sc);
    } else {
      SteppedOneName(sc, n - 1);
      SteppedMore(sc, n - 1);
      LinkingOneName(Stepped(sc, n - 1), sc[n - 1].references, Names(sc)[n - 1]);
    }
  }

  lemma NameKnown(sc: seq<Message>, i: nat, n: nat)
    requires i < |sc| && n <= |sc|
    ensures Names(sc)[i] in Enrolled(sc).ids && Names(sc)[i] in Stepped(sc, n).ids
    ensures Stepped(sc, n).ids[Names(sc)[i]] == Enrolled(sc).ids[Names(sc)[i]]
  {
    NameBound(sc, Names(sc)[i]);
    assert Names(sc)[i] in Names(sc);
    assert Stepped(sc, n).Extends(Enrolled(sc));
  }

  /** The container of a name, or none. */
  ghost function ContainerOf(k: Linkage, name: string): (c: nat)
    requires k.Ok()
    ensures c != NIL ==> c in k.fam.kids
  {
    if name in k.ids then k.ids[name] else NIL
  }

  /** The parent of the container of a name, or none. */
  ghost function ParentOf(k: Linkage, name: string): nat
    requires k.Ok()
  {
    var c := ContainerOf(k, name);
    if c == NIL then NIL else k.fam.parent[c]
  }

  /** The container of `b` lies in the subtree of that of `a`. */
  ghost predicate Inside(k: Linkage, a: string, b: string)
    requires k.Ok()
  {
    var c, d := ContainerOf(k, a), ContainerOf(k, b);
    c != NIL && d != NIL && k.fam.Below(c, d)
  }

  /** Message `i` is the last to go by its name. */
  ghost predicate LastNamed(sc: seq<Message>, i: nat) {
    i < |sc| && forall j | i < j < |sc| :: Names(sc)[j] != Names(sc)[i]
  }

  /** The last message to go by a name owns the container that the name is bound to. */
  lemma LastNamedBound(sc: seq<Message>, i: nat)
    requires LastNamed(sc, i)
    ensures Names(sc)[i] in Enrolled(sc).ids && Enrolled(sc).ids[Names(sc)[i]] == i + 1
  {
    NameKnown(sc, i, 0);
    NameBound(sc, Names(sc)[i]);
  }

  // ---- Which links are made ----

  /** The references put `p` right before `c`. */
  ghost predicate Cites(refs: seq<string>, ids: map<string, int>, p: nat, c: Cell) {
    exists j :: 0 < j < |refs| && refs[j - 1] in ids && refs[j] in ids && ids[refs[j - 1]] == p && ids[refs[j]] == c
  }

  /** A link `c` has in `h` and had in `k` is the same, and each new one is between
      neighbours in the references. */
  ghost predicate OnlyCited(k: Linkage, h: Linkage, refs: seq<string>) {
    && (forall c {:trigger h.fam.parent[c]} {:trigger k.fam.parent[c]} | c in k.fam.parent && k.fam.parent[c] != NIL ::
          c in h.fam.parent && h.fam.parent[c] == k.fam.parent[c])
    && (forall c {:trigger h.fam.parent[c]} | c in h.fam.parent && h.fam.parent[c] != NIL ::
          || (c in k.fam.parent && k.fam.parent[c] == h.fam.parent[c])
          || Cites(refs, h.ids, h.fam.parent[c], c))
  }

  lemma CitesMore(k: Linkage, h: Linkage, refs: seq<string>, p: nat, c: Cell)
    requires h.Extends(k) && Cites(refs, k.ids, p, c)
    ensures Cites(refs, h.ids, p, c)
  {
    var j :|
      0 < j < |refs| && refs[j - 1] in k.ids && refs[j] in k.ids && k.ids[refs[j - 1]] == p && k.ids[refs[j]] == c;
    assert refs[j - 1] in h.ids && refs[j] in h.ids;
  }

  lemma KnowingParents(k: Linkage, name: string, c: Cell)
    requires k.Ok()
    ensures var h := k.Knowing(name);
      c in h.fam.parent ==> h.fam.parent[c] == if c in k.fam.parent then k.fam.parent[c] else NIL
    ensures c in k.fam.parent ==> c in k.Knowing(name).fam.parent
  {
  }

  lemma PairingParents(k: Linkage, earlier: string, later: string, c: Cell)
    requires k.Ok() && earlier in k.ids
    ensures var h := k.Pairing(earlier, later);
      && (c in k.fam.parent ==> c in h.fam.parent)
      && (c in h.fam.parent ==>
            || h.fam.parent[c] == (if c in k.fam.parent then k.fam.parent[c] else NIL)
            || (&& h.ids[later] == c && h.fam.parent[c] == h.ids[earlier]
                && (c in k.fam.parent ==> k.fam.parent[c] == NIL)))
  {
    KnowingParents(k, later, c);
    var h := k.Knowing(later);
    if c in h.fam.kids {
      h.fam.ReferParent(h.ids[earlier], h.ids[later], c);
    }
  }

  /** Step 1A only adds links. */
  lemma {:induction false} ReferringCites(k: Linkage, refs: seq<string>, n: nat)
    requires k.Ok() && n <= |refs|
    ensures OnlyCited(k, k.Referring(refs, n), refs)
    decreases n
  {
    hide Family.Matched, Family.Ranked;
    if n == 1 {
      forall c: Cell {
        KnowingParents(k, refs[0], c);
      }
    } else if n > 1 {
      ReferringCites(k, refs, n - 1);
      PairingCites(k, k.Referring(refs, n - 1), refs, n);
    }
  }

  lemma PairingCites(k: Linkage, g: Linkage, refs: seq<string>, n: nat)
    requires 1 < n <= |refs| && g.Ok() && OnlyCited(k, g, refs) && refs[n - 2] in g.ids
    ensures OnlyCited(k, g.Pairing(refs[n - 2], refs[n - 1]), refs)
  {
    hide Family.Matched, Family.Ranked, Linkage.Pairing;
    var h := g.Pairing(refs[n - 2], refs[n - 1]);
    forall c: Cell | c in k.fam.parent && k.fam.parent[c] != NIL
      ensures c in h.fam.parent && h.fam.parent[c] == k.fam.parent[c]
    {
      PairingParents(g, refs[n - 2], refs[n - 1], c);
    }
    forall c: Cell | c in h.fam.parent && h.fam.parent[c] != NIL
      ensures (c in k.fam.parent && k.fam.parent[c] == h.fam.parent[c]) || Cites(refs, h.ids, h.fam.parent[c], c)
    {
      PairingParents(g, refs[n - 2], refs[n - 1], c);
      if c in g.fam.parent && g.fam.parent[c] == h.fam.parent[c] {
        if Cites(refs, g.ids, h.fam.parent[c], c) {
          CitesMore(g, h, refs, h.fam.parent[c], c);
        }
      } else {
        assert Cites(refs, h.ids, h.fam.parent[c], c);
      }
    }
  }

  /** The message's references put `p` right before `c`, or `p` is the last of them
      and `c` the container of the message. */
  ghost predicate Refers(s: Message, name: string, ids: map<string, int>, p: nat, c: Cell) {
    var refs := s.references;
    || Cites(refs, ids, p, c)
    || (refs != [] && refs[|refs| - 1] in ids && ids[refs[|refs| - 1]] == p && name in ids && ids[name] == c)
  }

  /** Every link comes from the references of one of the first `n` messages. */
  ghost predicate Explained(sc: seq<Message>, n: nat, k: Linkage) {
    && n <= |sc|
    && forall c {:trigger k.fam.parent[c]} | c in k.fam.parent && k.fam.parent[c] != NIL ::
         exists i :: 0 <= i < n && Refers(sc[i], Names(sc)[i], k.ids, k.fam.parent[c], c)
  }

  lemma RefersMore(k: Linkage, h: Linkage, s: Message, name: string, p: nat, c: Cell)
    requires h.Extends(k) && Refers(s, name, k.ids, p, c)
    ensures Refers(s, name, h.ids, p, c)
  {
    var refs := s.references;
    if Cites(refs, k.ids, p, c) {
      CitesMore(k, h, refs, p, c);
    } else {
      assert refs[|refs| - 1] in h.ids && name in h.ids;
    }
  }

  /** The parents after a message was linked. */
  lemma LinkingParents(k: Linkage, refs: seq<string>, name: string, c: Cell)
    requires k.Ok() && name in k.ids
    ensures var g, h := k.Referring(refs, |refs|), k.Linking(refs, name);
      && h.ids == g.ids && h.fam.parent.Keys == g.fam.parent.Keys
      && (c in h.fam.parent ==>
            if c != h.ids[name] then h.fam.parent[c] == g.fam.parent[c]
            else if refs == [] || g.fam.Below(c, g.LastOf(refs)) then h.fam.parent[c] == NIL
            else h.fam.parent[c] == g.LastOf(refs))
  {
    hide Family.Matched, Family.Ranked, Family.Settle;
    var g := k.Referring(refs, |refs|);
    if c in g.fam.kids {
      g.fam.SettleParent(g.LastOf(refs), g.ids[name], c);
    }
  }

  lemma {:induction false} NobodyLinked(sc: seq<Message>, c: Cell)
    ensures c in Enrolled(sc).fam.parent ==> Enrolled(sc).fam.parent[c] == NIL
  {
    if sc != [] {
      NobodyLinked(sc[..|sc| - 1], c);
    }
  }

  /** Every link comes from the references of some message. */
  lemma {:induction false} LinksExplained(sc: seq<Message>, n: nat)
    requires n <= |sc|
    ensures Explained(sc, n, Stepped(sc, n))
  {
    hide Linkage.Ok, Linkage.Linking, Stepped, Explained;
    if n == 0 {
      SteppedNone(sc);
      StartExplained(sc);
    } else {
      SteppedMore(sc, n - 1);
      LinksExplained(sc, n - 1);
      LinkingExplained(sc, n - 1, Stepped(sc, n - 1));
    }
  }

  lemma StartExplained(sc: seq<Message>)
    ensures Explained(sc, 0, Enrolled(sc))
  {
    forall c: Cell | c in Enrolled(sc).fam.parent
      ensures Enrolled(sc).fam.parent[c] == NIL
    {
      NobodyLinked(sc, c);
    }
  }

  lemma LinkingExplained(sc: seq<Message>, n: nat, k: Linkage)
    requires n < |sc| && k.Ok() && Names(sc)[n] in k.ids && Explained(sc, n, k)
    ensures Explained(sc, n + 1, k.Linking(sc[n].references, Names(sc)[n]))
  {
    hide Linkage.Ok, Linkage.Linking, Linkage.Referring, Refers, Names;
    var name, refs := Names(sc)[n], sc[n].references;
    var g, h := k.Referring(refs, |refs|), k.Linking(refs, name);
    ReferringCites(k, refs, |refs|);
    forall c: Cell | c in h.fam.parent && h.fam.parent[c] != NIL
      ensures exists i :: 0 <= i < n + 1 && Refers(sc[i], Names(sc)[i], h.ids, h.fam.parent[c], c)
    {
      LinkingParents(k, refs, name, c);
      if c == h.ids[name] || Cites(refs, h.ids, h.fam.parent[c], c) {
        OwnRefers(h, sc[n], name, h.fam.parent[c], c);
      } else {
        var i :| 0 <= i < n && Refers(sc[i], Names(sc)[i], k.ids, k.fam.parent[c], c);
        RefersMore(k, h, sc[i], Names(sc)[i], k.fam.parent[c], c);
      }
    }
  }

  lemma OwnRefers(h: Linkage, s: Message, name: string, p: nat, c: Cell)
    requires h.Ok() && name in h.ids && (s.references != [] ==> s.references[|s.references| - 1] in h.ids)
    requires Cites(s.references, h.ids, p, c) || (c == h.ids[name] && s.references != [] && p == h.LastOf(s.references))
    ensures Refers(s, name, h.ids, p, c)
  {
  }

  // ---- Which links last ----

  /** A link stays unless it is that of a message still to be linked. */
  lemma {:induction false} LinkStays(sc: seq<Message>, i: nat, n: nat, c: Cell)
    requires i <= n <= |sc| && c in Stepped(sc, i).fam.parent && Stepped(sc, i).fam.parent[c] != NIL
    requires forall j {:trigger Names(sc)[j]} | i <= j < n ::
      Names(sc)[j] in Enrolled(sc).ids && Enrolled(sc).ids[Names(sc)[j]] != c
    ensures c in Stepped(sc, n).fam.parent && Stepped(sc, n).fam.parent[c] == Stepped(sc, i).fam.parent[c]
    decreases n
  {
    hide Linkage.Ok, Linkage.Linking, Linkage.Referring, Stepped, Names, Enrolled;
    if i < n {
      var k := Stepped(sc, n - 1);
      LinkStays(sc, i, n - 1, c);
      SteppedMore(sc, n - 1);
      NameKnown(sc, n - 1, n - 1);
      NameKnown(sc, n - 1, n);
      ReferringCites(k, sc[n - 1].references, |sc[n - 1].references|);
      LinkingParents(k, sc[n - 1].references, Names(sc)[n - 1], c);
    }
  }

  /** A link that a message's references made early in its turn stays to the end of
      step 1A. */
  lemma {:induction false} ReferringStays(k: Linkage, refs: seq<string>, m: nat, n: nat, c: Cell)
    requires k.Ok() && 0 < m <= n <= |refs|
    requires c in k.Referring(refs, m).fam.parent && k.Referring(refs, m).fam.parent[c] != NIL
    ensures c in k.Referring(refs, n).fam.parent
    ensures k.Referring(refs, n).fam.parent[c] == k.Referring(refs, m).fam.parent[c]
    decreases n
  {
    hide Linkage.Pairing, Linkage.Ok, Linkage.Extends;
    if m < n {
      ReferringStays(k, refs, m, n - 1, c);
      PairingParents(k.Referring(refs, n - 1), refs[n - 2], refs[n - 1], c);
    }
  }

  /** Step 1A of message `i` done. */
  ghost function Turn(sc: seq<Message>, i: nat): (k: Linkage)
    requires i < |sc|
    ensures k.Ok()
  {
    Stepped(sc, i).Referring(sc[i].references, |sc[i].references|)
  }

  /** What step 1 does with the container of the last message to go by its name.
      The last reference becomes its parent for good, unless there is none or it is
      in the subtree of the message then; in that case later references may still
      find it a parent. */
  lemma ReplyLinked(sc: seq<Message>, i: nat)
    requires LastNamed(sc, i)
    ensures var name, refs, g, k := Names(sc)[i], sc[i].references, Turn(sc, i), StepOne(sc);
      && ContainerOf(k, name) == i + 1
      && (if refs == [] || Inside(g, name, refs[|refs| - 1]) then ParentOf(Stepped(sc, i + 1), name) == NIL
          else ParentOf(k, name) == ContainerOf(k, refs[|refs| - 1]) != NIL)
  {
    hide Linkage.Referring, Stepped, Names, Enrolled, Family.Matched, Family.Ranked, Family.Settle;
    var refs, k := sc[i].references, Stepped(sc, i);
    LastNamedBound(sc, i);
    NameKnown(sc, i, i);
    NameKnown(sc, i, i + 1);
    NameKnown(sc, i, |sc|);
    SteppedMore(sc, i);
    LinkingParents(k, refs, Names(sc)[i], i + 1);
    SteppedExtends(sc, i + 1, |sc|);
    OtherNames(sc, i + 1, Names(sc)[i]);
    if refs != [] && !Inside(Turn(sc, i), Names(sc)[i], refs[|refs| - 1]) {
      LinkStays(sc, i + 1, |sc|, i + 1);
    }
  }

  lemma {:induction false} SteppedExtends(sc: seq<Message>, i: nat, n: nat)
    requires i <= n <= |sc|
    ensures Stepped(sc, n).Extends(Stepped(sc, i))
    decreases n
  {
    hide Linkage.Ok, Linkage.Linking, Stepped;
    if i < n {
      SteppedExtends(sc, i, n - 1);
      SteppedMore(sc, n - 1);
    }
  }

  /** The messages that do not go by a name own other containers. */
  lemma OtherNames(sc: seq<Message>, i: nat, name: string)
    requires i <= |sc| && name in StepOne(sc).ids && forall n | i <= n < |sc| :: Names(sc)[n] != name
    ensures forall j {:trigger Names(sc)[j]} | i <= j < |sc| ::
      Names(sc)[j] in Enrolled(sc).ids && Enrolled(sc).ids[Names(sc)[j]] != StepOne(sc).ids[name]
  {
    hide Stepped, Names, Enrolled, Linkage.Ok;
    SteppedOneName(sc, |sc|);
    forall j | i <= j < |sc|
      ensures Names(sc)[j] in Enrolled(sc).ids && Enrolled(sc).ids[Names(sc)[j]] != StepOne(sc).ids[name]
    {
      NameKnown(sc, j, |sc|);
    }
  }

  lemma {:induction false} ReferringExtends(k: Linkage, refs: seq<string>, m: nat, n: nat)
    requires k.Ok() && 0 < m <= n <= |refs|
    ensures k.Referring(refs, n).Extends(k.Referring(refs, m))
    decreases n
  {
    hide Linkage.Pairing, Linkage.Ok, Linkage.Extends;
    if m == n {
      k.Referring(refs, n).ExtendsSelf();
    } else {
      ReferringExtends(k, refs, m, n - 1);
      var g := k.Referring(refs, n - 1);
      k.Referring(refs, m).ExtendsTrans(g, g.Pairing(refs[n - 2], refs[n - 1]));
    }
  }

  /** What step 1 does with two neighbours in the references of message `i`, when
      neither it nor a later message goes by the second: a parent that the second has
      stays for good, and if it has none the first becomes its parent for good, unless
      that is in its subtree then. */
  lemma PairLinked(sc: seq<Message>, i: nat, j: nat)
    requires i < |sc| && 0 < j < |sc[i].references|
    requires forall n | i <= n < |sc| :: Names(sc)[n] != sc[i].references[j]
    ensures var a, b, k := sc[i].references[j - 1], sc[i].references[j], StepOne(sc);
      var g := Stepped(sc, i).Referring(sc[i].references, j).Knowing(b);
      && ContainerOf(k, a) == ContainerOf(g, a) != NIL && ContainerOf(k, b) == ContainerOf(g, b) != NIL
      && (ParentOf(g, b) != NIL ==> ParentOf(k, b) == ParentOf(g, b))
      && (ParentOf(g, b) == NIL && !Inside(g, b, a) ==> ParentOf(k, b) == ContainerOf(k, a))
  {
    hide ParentOf, ContainerOf, Inside, Linkage.Referring, Linkage.Knowing, Linkage.Pairing, Linkage.Extends, Stepped;
    hide Names;
    var refs, a, b, k := sc[i].references, sc[i].references[j - 1], sc[i].references[j], Stepped(sc, i);
    var h := k.Referring(refs, j + 1);
    ReferringMore(k, refs, j);
    PairedParent(k.Referring(refs, j), a, b);
    PairKnown(sc, i, j, a);
    PairKnown(sc, i, j, b);
    if ParentOf(h, b) != NIL {
      PairStays(sc, i, j);
    }
  }

  /** The containers of all names that are known when a pair is done stay theirs. */
  lemma PairKnown(sc: seq<Message>, i: nat, j: nat, name: string)
    requires i < |sc| && 0 < j < |sc[i].references|
    ensures var h := Stepped(sc, i).Referring(sc[i].references, j + 1);
      ContainerOf(h, name) != NIL ==> ContainerOf(StepOne(sc), name) == ContainerOf(h, name)
  {
    hide Linkage.Ok, Linkage.Referring, Stepped, Names, Family.Settle;
    ReferringExtends(Stepped(sc, i), sc[i].references, j + 1, |sc[i].references|);
    SteppedMore(sc, i);
    SteppedExtends(sc, i + 1, |sc|);
    var g, h := Turn(sc, i), Stepped(sc, i).Referring(sc[i].references, j + 1);
    assert name in h.ids ==> name in g.ids;
    assert Stepped(sc, i + 1).ids == g.ids;
    assert name in g.ids ==> name in StepOne(sc).ids;
  }

  lemma ReferringMore(k: Linkage, refs: seq<string>, i: nat)
    requires k.Ok() && 0 < i < |refs|
    ensures k.Referring(refs, i + 1) == k.Referring(refs, i).Pairing(refs[i - 1], refs[i])
  {
  }

  /** Step 1A for two neighbours. */
  lemma PairedParent(k: Linkage, a: string, b: string)
    requires k.Ok() && a in k.ids
    ensures var g, h := k.Knowing(b), k.Pairing(a, b);
      && ContainerOf(h, a) == ContainerOf(g, a) != NIL && ContainerOf(h, b) == ContainerOf(g, b) != NIL
      && ParentOf(h, b) == if ParentOf(g, b) != NIL || Inside(g, b, a) then ParentOf(g, b) else ContainerOf(g, a)
  {
    hide Family.Matched, Family.Ranked, Family.Refer;
    var g := k.Knowing(b);
    g.fam.ReferParent(g.ids[a], g.ids[b], g.ids[b]);
  }

  lemma PairStays(sc: seq<Message>, i: nat, j: nat)
    requires i < |sc| && 0 < j < |sc[i].references|
    requires forall n | i <= n < |sc| :: Names(sc)[n] != sc[i].references[j]
    requires ParentOf(Stepped(sc, i).Referring(sc[i].references, j + 1), sc[i].references[j]) != NIL
    ensures var b := sc[i].references[j];
      ParentOf(StepOne(sc), b) == ParentOf(Stepped(sc, i).Referring(sc[i].references, j + 1), b)
  {
    hide Linkage.Linking, Linkage.Referring, Stepped, Names, Enrolled, Family.Matched, Family.Ranked, Family.Settle;
    var refs, b, k := sc[i].references, sc[i].references[j], Stepped(sc, i);
    var h := k.Referring(refs, j + 1);
    assert b in h.ids && h.fam.parent[h.ids[b] as Cell] != NIL;
    PairKnown(sc, i, j, b);
    ReferringExtends(k, refs, j + 1, |refs|);
    assert b in Turn(sc, i).ids;
    SteppedMore(sc, i);
    NameKnown(sc, i, i);
    LinkingParents(k, refs, Names(sc)[i], h.ids[b]);
    ReferringStays(k, refs, j + 1, |refs|, h.ids[b]);
    OtherNames(sc, i, b);
    NameKnown(sc, i, i + 1);
    LinkStays(sc, i + 1, |sc|, h.ids[b]);
  }

  // ---- References in a consistent order ----

  /** The references of every message are in the order of `time`, and all of them
      come before the message. */
  ghost predicate InTime(sc: seq<Message>, time: string -> int) {
    forall i {:trigger sc[i]} | 0 <= i < |sc| ::
      var refs := sc[i].references;
      && (forall j | 0 < j < |refs| :: time(refs[j - 1]) < time(refs[j]))
      && (refs != [] ==> time(refs[|refs| - 1]) < time(Names(sc)[i]))
  }

  /** `a` comes before `b`, and their containers are `p` and `c`. */
  ghost predicate Earlier(ids: map<string, int>, time: string -> int, a: string, b: string, p: nat, c: Cell) {
    a in ids && b in ids && ids[a] == p && ids[b] == c && time(a) < time(b)
  }

  ghost predicate LinksInTime(k: Linkage, time: string -> int) {
    forall c {:trigger k.fam.parent[c]} | c in k.fam.parent && k.fam.parent[c] != NIL ::
      exists a, b :: Earlier(k.ids, time, a, b, k.fam.parent[c], c)
  }

  lemma {:induction false} RefersInTime(sc: seq<Message>, time: string -> int, i: nat, ids: map<string, int>, p: nat,
                                        c: Cell)
    requires InTime(sc, time) && i < |sc| && Refers(sc[i], Names(sc)[i], ids, p, c)
    ensures exists a, b :: Earlier(ids, time, a, b, p, c)
  {
    var refs := sc[i].references;
    if Cites(refs, ids, p, c) {
      var j :| 0 < j < |refs| && refs[j - 1] in ids && refs[j] in ids && ids[refs[j - 1]] == p && ids[refs[j]] == c;
      assert Earlier(ids, time, refs[j - 1], refs[j], p, c);
    } else {
      assert Earlier(ids, time, refs[|refs| - 1], Names(sc)[i], p, c);
    }
  }

  lemma TurnInTime(sc: seq<Message>, time: string -> int, i: nat)
    requires InTime(sc, time) && i < |sc|
    ensures LinksInTime(Turn(sc, i), time)
  {
    hide Linkage.Ok, Linkage.Referring, InTime, Refers, Earlier, Stepped, Names;
    var k, g, refs := Stepped(sc, i), Turn(sc, i), sc[i].references;
    LinksExplained(sc, i);
    ReferringCites(k, refs, |refs|);
    forall c | c in g.fam.parent && g.fam.parent[c] != NIL
      ensures exists a, b :: Earlier(g.ids, time, a, b, g.fam.parent[c], c)
    {
      if Cites(refs, g.ids, g.fam.parent[c], c) {
        CitesRefers(sc[i], Names(sc)[i], g.ids, g.fam.parent[c], c);
        RefersInTime(sc, time, i, g.ids, g.fam.parent[c], c);
      } else {
        var h :| 0 <= h < i && Refers(sc[h], Names(sc)[h], k.ids, k.fam.parent[c], c);
        RefersMore(k, g, sc[h], Names(sc)[h], k.fam.parent[c], c);
        RefersInTime(sc, time, h, g.ids, g.fam.parent[c], c);
      }
    }
  }

  lemma CitesRefers(s: Message, name: string, ids: map<string, int>, p: nat, c: Cell)
    requires Cites(s.references, ids, p, c)
    ensures Refers(s, name, ids, p, c)
  {
  }

  /** What lies in a subtree comes later. */
  lemma {:induction false} InsideIsLater(k: Linkage, time: string -> int, a: string, b: string)
    requires k.Ok() && OneName(k.ids) && LinksInTime(k, time) && Inside(k, a, b)
    ensures time(a) <= time(b)
    decreases k.fam.rank[ContainerOf(k, b)]
  {
    var c: Cell, d: Cell := k.ids[a], k.ids[b];
    if c != d {
      var x, y :| Earlier(k.ids, time, x, y, k.fam.parent[d], d);
      InsideIsLater(k, time, a, x);
    }
  }

  /** When the references agree with some order, the last reference of a message
      becomes its parent, with no exception. */
  lemma InTimeLinked(sc: seq<Message>, time: string -> int, i: nat)
    requires InTime(sc, time) && LastNamed(sc, i) && sc[i].references != []
    ensures var k, refs := StepOne(sc), sc[i].references;
      ContainerOf(k, Names(sc)[i]) == i + 1 && ParentOf(k, Names(sc)[i]) == ContainerOf(k, refs[|refs| - 1]) != NIL
  {
    hide Linkage.Ok, Linkage.Referring, Stepped, Names, LinksInTime;
    ReplyLinked(sc, i);
    TurnInTime(sc, time, i);
    SteppedOneName(sc, i);
    ReferringOneName(Stepped(sc, i), sc[i].references, |sc[i].references|);
    var refs := sc[i].references;
    if Inside(Turn(sc, i), Names(sc)[i], refs[|refs| - 1]) {
      InsideIsLater(Turn(sc, i), time, Names(sc)[i], refs[|refs| - 1]);
    }
  }

  lemma InTimeParent(sc: seq<Message>, time: string -> int, a: nat, i: nat)
    requires InTime(sc, time) && LastNamed(sc, a) && LastNamed(sc, i)
    requires sc[i].references != [] && sc[i].references[|sc[i].references| - 1] == Names(sc)[a]
    ensures i + 1 in StepOne(sc).fam.kids && StepOne(sc).fam.parent[i + 1] == a + 1
  {
    hide StepOne, InTime, Names, Enrolled, Stepped, Family.Matched, Family.Ranked, Linkage.Referring, Linkage.Linking;
    InTimeLinked(sc, time, i);
    OwnContainer(sc, a);
  }

  lemma OwnContainer(sc: seq<Message>, i: nat)
    requires LastNamed(sc, i)
    ensures ContainerOf(StepOne(sc), Names(sc)[i]) == i + 1
  {
    hide Names, Enrolled, Stepped;
    LastNamedBound(sc, i);
    NameKnown(sc, i, |sc|);
  }
}
