/** Steps 1 and 2 of the REFERENCES algorithm: the containers of messages and of
    the ids they refer to are linked into a forest, and its roots are chained. */
module Linking {
  import opened Messages
  import opened Roses
  import opened Containers
  import opened HashTables
  import opened Linkages

  const REFHASHSIZE: nat := 1009

  class Linker {
    const pool: Pool
    const ht: HashTab

    /** The id table binds names to containers, and a walk over its buckets
        meets every container exactly once. */
    ghost predicate Valid()
      reads this, pool, ht
    {
      && pool.Valid() && ht.Valid()
      && (forall name :: name in ht.contents ==> 0 < ht.contents[name] <= |pool.cache|)
      && (forall c :: multiset(Walk(ht.table))[c] == if 0 < c <= |pool.cache| then 1 else 0)
    }

    /** What the table and the links say. */
    ghost function Value(): (k: Linkage)
      requires Valid()
      reads this, pool, ht
      ensures k.Ok() && k.count == |pool.cache|
    {
      Linkage(ht.contents, pool.fam, |pool.cache|)
    }

    constructor ()
      ensures Valid() && fresh(pool) && fresh(ht)
      ensures pool.cache == [] && Value() == Linkage(map[], NOBODY, 0)
    {
      pool := new Pool();
      ht := new HashTab(REFHASHSIZE);
    }

    method NewContainer(name: string, msg: Option<Message>) returns (c: Cell)
      requires Valid()
      modifies pool, ht
      ensures Valid() && Value() == old(Value()).Bound(name) && c == Value().ids[name]
      ensures pool.cache == old(pool.cache) + [msg]
    {
      hide Pool.Sound, HashTab.Valid, Walk, Family.Grow, Family.Ok;
      c := pool.New(msg);
      ht.Add(name, c);
    }

    /** hash_lookup_and_add: the container of a name, a dummy if it is new. */
    method LookupAndAdd(name: string) returns (c: Cell)
      requires Valid()
      modifies pool, ht
      ensures Valid() && Value() == old(Value()).Knowing(name) && c == Value().ids[name]
      ensures Dummies(old(pool.cache), pool.cache)
    {
      hide Family.Matched, Family.Ranked, Family.Says, HashTab.Valid;
      var found := ht.Lookup(name);
      if found.Some? {
        c := found.value;
      } else {
        c := NewContainer(name, None);
      }
    }

    /** Step 1A for two consecutive references. */
    method LinkReference(con: Cell, name: string, ghost earlier: string) returns (nxc: Cell)
      requires Valid() && earlier in Value().ids && con == Value().ids[earlier]
      modifies pool, ht
      ensures Valid() && Value() == old(Value()).Pairing(earlier, name) && nxc == Value().ids[name]
      ensures Dummies(old(pool.cache), pool.cache)
    {
      hide Family.Matched, Family.Ranked, Family.Says, Family.Refer, HashTab.Valid;
      nxc := LookupAndAdd(name);
      pool.LinkRef(con, nxc);
    }

    /** Step 1A: linking the references of one message. */
    method LinkReferences(refs: seq<string>) returns (con: nat)
      requires Valid()
      modifies pool, ht
      ensures Valid() && Value() == old(Value()).Referring(refs, |refs|) && con == Value().LastOf(refs)
      ensures Dummies(old(pool.cache), pool.cache)
    {
      hide Dummies, Linkage.Pairing, Linkage.Knowing, Linkage.Extends, HashTab.Valid, Family.Ok;
      DummiesTrans(pool.cache, pool.cache, pool.cache);
      if refs == [] {
        return NIL;
      }
      con := LookupAndAdd(refs[0]);
      for i := 1 to |refs|
        invariant Valid() && Dummies(old(pool.cache), pool.cache)
        invariant refs[i - 1] in Value().ids && con == Value().ids[refs[i - 1]]
        invariant Value() == old(Value()).Referring(refs, i)
      {
        ghost var cache := pool.cache;
        con := LinkReference(con, refs[i], refs[i - 1]);
        DummiesTrans(old(pool.cache), cache, pool.cache);
      }
    }

    /** Step 1B: the last reference becomes the parent of the message's container;
        the container is a root if there is no such reference or it is the
        container's own descendant. */
    method LinkMessage(con: nat, unique: string) returns (nxc: Cell)
      requires Valid() && unique in Value().ids && (con != NIL ==> con <= Value().count)
      modifies pool
      ensures Valid() && pool.cache == old(pool.cache)
      ensures nxc == Value().ids[unique] && Value() == old(Value()).(fam := old(Value()).fam.Settle(con, nxc))
      ensures pool.parent[nxc] == if con == NIL || old(pool.fam).Below(nxc, con) then NIL else con
      ensures forall c {:trigger pool.parent[c]} | c in pool.parent && c != nxc :: pool.parent[c] == old(pool.parent)[c]
    {
      hide Family.Matched, Family.Ranked, Family.Says, HashTab.Valid;
      var found := ht.Lookup(unique);
      nxc := found.value;
      pool.Relink(con, nxc);
    }

    /** Step 1, first pass: every message gets a container under a unique string,
        its id unless the id is missing or taken. */
    method Enroll(sc: seq<Message>) returns (unique: seq<string>)
      requires Valid() && pool.cache == [] && Value() == Linkage(map[], NOBODY, 0)
      modifies pool, ht
      ensures Valid() && pool.cache == Cached(sc)
      ensures Value() == Enrolled(sc) && unique == Names(sc)
    {
      hide Family.Matched, Family.Ranked, Family.Says, HashTab.Valid;
      unique := [];
      assert sc[..0] == [];
      for i := 0 to |sc|
        invariant Valid() && pool.cache == Cached(sc[..i])
        invariant Value() == Enrolled(sc[..i]) && unique == Names(sc[..i])
      {
        assert sc[..i + 1][..i] == sc[..i];
        var u := PickUnique(sc[i]);
        var c := NewContainer(u, Some(sc[i]));
        unique := unique + [u];
      }
      assert sc[..|sc|] == sc;
    }

    method PickUnique(s: Message) returns (u: string)
      requires ht.Valid()
      ensures u == UniqueName(ht.contents.Keys, s)
    {
      u := s.generated;
      if s.messageId.Some? {
        var taken := ht.Lookup(s.messageId.value);
        if taken == None {
          u := s.messageId.value;
        }
      }
    }

    /** Step 1: exactly the links that the references make, message by message;
        afterwards the containers form a forest, the first of them those of the
        messages in order and all others dummies. */
    method Link(sc: seq<Message>) returns (unique: seq<string>)
      requires Valid() && pool.cache == [] && Value() == Linkage(map[], NOBODY, 0)
      modifies pool, ht
      ensures Valid() && Value() == StepOne(sc) && unique == Names(sc)
      ensures Dummies(Cached(sc), pool.cache)
    {
      hide Family.Matched, Family.Ranked, HashTab.Valid, Dummies, Linkage.Linking;
      unique := Enroll(sc);
      DummiesTrans(pool.cache, pool.cache, pool.cache);
      for i := 0 to |sc|
        invariant Valid() && Value() == Stepped(sc, i)
        invariant Dummies(Cached(sc), pool.cache)
      {
        ghost var cache := pool.cache;
        SteppedMore(sc, i);
        LinkOne(sc[i], unique[i]);
        DummiesTrans(Cached(sc), cache, pool.cache);
      }
    }

    /** Steps 1A and 1B for one message. */
    method LinkOne(s: Message, name: string)
      requires Valid() && name in Value().ids
      modifies pool, ht
      ensures Valid() && Value() == old(Value()).Linking(s.references, name)
      ensures Dummies(old(pool.cache), pool.cache)
    {
      hide Family.Matched, Family.Ranked, Family.Settle, HashTab.Valid, Dummies, Linkage.Referring;
      var con := LinkReferences(s.references);
      var nxc := LinkMessage(con, name);
    }
  }

  ghost function Cached(sc: seq<Message>): (r: seq<Option<Message>>)
    ensures |r| == |sc| && forall i | 0 <= i < |sc| :: r[i] == Some(sc[i])
  {
    if sc == [] then [] else Cached(sc[..|sc| - 1]) + [Some(sc[|sc| - 1])]
  }

  /** All later containers are dummies. */
  ghost predicate Dummies(cache: seq<Option<Message>>, cache': seq<Option<Message>>) {
    cache <= cache' && forall i | |cache| <= i < |cache'| :: cache'[i] == None
  }

  lemma DummiesTrans(a: seq<Option<Message>>, b: seq<Option<Message>>, c: seq<Option<Message>>)
    ensures Dummies(a, a)
    ensures Dummies(a, b) && Dummies(b, c) ==> Dummies(a, c)
  {
  }
}
