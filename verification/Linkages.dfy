/** Step 1 of the REFERENCES algorithm on values: the id table and the family of
    containers after each message. */
module Linkages {
  import opened Messages
  import opened Roses
  import opened Containers

  /** The containers that the names are bound to, the family of all containers and
      how many there are. */
  datatype Linkage = Linkage(ids: map<string, int>, fam: Family, count: nat) {
    ghost predicate Ok() {
      && fam.Ok() && (forall c: Cell :: c in fam.kids <==> c <= count)
      && (forall n {:trigger ids[n]} | n in ids :: 0 < ids[n] <= count)
    }

    /** `k` has the names and the containers of this one, and maybe more. */
    ghost predicate Extends(k: Linkage) {
      k.count <= count && forall n {:trigger n in ids} | n in k.ids :: n in ids && ids[n] == k.ids[n]
    }

    /** The container of a name, made if need be. */
    ghost function Knowing(name: string): (k: Linkage)
      requires Ok()
      ensures k.Ok() && k.Extends(this) && name in k.ids
    {
      if name in ids then this else Bound(name)
    }

    /** A new container that the name is bound to from now on. */
    ghost function Bound(name: string): (k: Linkage)
      requires Ok()
      ensures k.Ok() && name in k.ids && k.ids[name] == k.count == count + 1
    {
      fam.GrowOk(count + 1);
      Linkage(ids[name := count + 1], fam.Grow(count + 1), count + 1)
    }

    /** Step 1A for two consecutive references, the earlier of which is known. */
    ghost function Pairing(earlier: string, later: string): (k: Linkage)
      requires Ok() && earlier in ids
      ensures k.Ok() && k.Extends(this) && later in k.ids
    {
      var k := Knowing(later);
      k.(fam := k.fam.Refer(k.ids[earlier], k.ids[later]))
    }

    /** Step 1A for the first `n` references of a message. */
    ghost function Referring(refs: seq<string>, n: nat): (k: Linkage)
      requires Ok() && n <= |refs|
      ensures k.Ok() && k.Extends(this) && (n > 0 ==> refs[n - 1] in k.ids)
      decreases n
    {
      if n == 0 then this
      else if n == 1 then Knowing(refs[0])
      else
        var k := Referring(refs, n - 1);
        ExtendsTrans(k, k.Pairing(refs[n - 2], refs[n - 1]));
        k.Pairing(refs[n - 2], refs[n - 1])
    }

    lemma ExtendsSelf()
      ensures Extends(this)
    {
    }

    lemma ExtendsTrans(k: Linkage, h: Linkage)
      requires k.Extends(this) && h.Extends(k)
      ensures h.Extends(this)
    {
    }

    /** The container of the last reference, or none. */
    ghost function LastOf(refs: seq<string>): nat
      requires Ok() && (refs != [] ==> refs[|refs| - 1] in ids)
    {
      if refs == [] then NIL else ids[refs[|refs| - 1]]
    }

    /** Steps 1A and 1B for a message that goes by the name. */
    ghost function Linking(refs: seq<string>, name: string): (k: Linkage)
      requires Ok() && name in ids
      ensures k.Ok() && k.Extends(this)
    {
      var k := Referring(refs, |refs|);
      k.(fam := k.fam.Settle(k.LastOf(refs), k.ids[name]))
    }
  }

  const NOBODY: Family := Family(map[], map[], map[], 0)

  /** The id of a message, unless it is missing or taken. */
  function UniqueName(taken: set<string>, s: Message): string {
    if s.messageId.Some? && s.messageId.value !in taken then s.messageId.value else s.generated
  }

  /** Every message has a container of its own; of two with the same name the later
      one is bound to it. */
  ghost function Enrolled(sc: seq<Message>): (k: Linkage)
    ensures k.Ok() && k.count == |sc|
  {
    if sc == [] then Linkage(map[], NOBODY, 0)
    else
      var k := Enrolled(sc[..|sc| - 1]);
      k.Bound(UniqueName(k.ids.Keys, sc[|sc| - 1]))
  }

  /** The names that the messages go by. */
  ghost function Names(sc: seq<Message>): (r: seq<string>)
    ensures |r| == |sc|
  {
    if sc == [] then []
    else Names(sc[..|sc| - 1]) + [UniqueName(Enrolled(sc[..|sc| - 1]).ids.Keys, sc[|sc| - 1])]
  }

  /** Only the names of messages are known, and each is bound to the container of the
      last message that goes by it. */
  lemma {:induction false} NameBound(sc: seq<Message>, n: string)
    ensures n in Enrolled(sc).ids <==> n in Names(sc)
    ensures n in Enrolled(sc).ids ==>
      var c := Enrolled(sc).ids[n];
      0 < c <= |sc| && Names(sc)[c - 1] == n && forall i | c <= i < |sc| :: Names(sc)[i] != n
  {
    hide Linkage.Ok;
    if sc != [] {
      var rest := sc[..|sc| - 1];
      NameBound(rest, n);
      BoundLast(Enrolled(rest), UniqueName(Enrolled(rest).ids.Keys, sc[|sc| - 1]), Names(rest), n);
    }
  }

  lemma BoundLast(k: Linkage, name: string, names: seq<string>, n: string)
    requires k.Ok() && k.count == |names| && (n in k.ids <==> n in names)
    requires n in k.ids ==>
      var c := k.ids[n]; 0 < c <= |names| && names[c - 1] == n && forall i | c <= i < |names| :: names[i] != n
    ensures var ids, more := k.Bound(name).ids, names + [name];
      && (n in ids <==> n in more)
      && (n in ids ==>
            var c := ids[n]; 0 < c <= |more| && more[c - 1] == n && forall i | c <= i < |more| :: more[i] != n)
  {
    hide Linkage.Ok;
  }

  /** The linkage after the first `n` messages. */
  ghost function Stepped(sc: seq<Message>, n: nat): (k: Linkage)
    requires n <= |sc|
    ensures k.Ok() && k.Extends(Enrolled(sc))
  {
    if n == 0 then Enrolled(sc)
    else
      var k := Stepped(sc, n - 1);
      NameBound(sc, Names(sc)[n - 1]);
      assert Names(sc)[n - 1] in k.ids;
      Enrolled(sc).ExtendsTrans(k, k.Linking(sc[n - 1].references, Names(sc)[n - 1]));
      k.Linking(sc[n - 1].references, Names(sc)[n - 1])
  }

  /** One more message. */
  lemma SteppedMore(sc: seq<Message>, i: nat)
    requires i < |sc|
    ensures var k, name := Stepped(sc, i), Names(sc)[i];
      name in k.ids && Stepped(sc, i + 1) == k.Linking(sc[i].references, name)
  {
    NameBound(sc, Names(sc)[i]);
    assert Names(sc)[i] in Names(sc);
  }

  /** Step 1. */
  ghost function StepOne(sc: seq<Message>): (k: Linkage)
    ensures k.Ok() && |sc| <= k.count
  {
    Stepped(sc, |sc|)
  }
}
