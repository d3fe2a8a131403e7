/** The chained hash tables in which threading looks up containers by unique
    id and threads by subject. */
module HashTables {
  import opened Machine
  import opened Messages

  const HASHMULT: nat := 29

  datatype Entry = Entry(name: string, data: int)

  /** The polynomial of the letters of the key, in the source's unsigned long. */
  function Polynomial(key: string): nat {
    if key == [] then 0
    else (Polynomial(key[..|key| - 1]) * HASHMULT + key[|key| - 1] as int) % ULONG
  }

  /** The first entry of the name in a chain. */
  ghost function Find(chain: seq<Entry>, name: string): Option<int> {
    if chain == [] then None
    else if chain[0].name == name then Some(chain[0].data)
    else Find(chain[1..], name)
  }

  /** `chain` with the first entry of the name given other data. */
  ghost function Rebind(chain: seq<Entry>, name: string, data: int): seq<Entry> {
    if chain == [] then []
    else if chain[0].name == name then [Entry(name, data)] + chain[1..]
    else [chain[0]] + Rebind(chain[1..], name, data)
  }

  lemma {:induction false} RebindFinds(chain: seq<Entry>, name: string, data: int, other: string)
    requires Find(chain, name).Some?
    ensures Find(Rebind(chain, name, data), other) == if other == name then Some(data) else Find(chain, other)
  {
    if chain[0].name != name {
      RebindFinds(chain[1..], name, data, other);
    }
  }

  /** The data of all entries in the order of a walk over the buckets. */
  function Walk(table: seq<seq<Entry>>): seq<int> {
    if table == [] then [] else Datas(table[0]) + Walk(table[1..])
  }

  function Datas(chain: seq<Entry>): (r: seq<int>)
    ensures |r| == |chain|
  {
    if chain == [] then [] else [chain[0].data] + Datas(chain[1..])
  }

  lemma {:induction false} WalkPush(table: seq<seq<Entry>>, i: nat, e: Entry)
    requires i < |table|
    ensures multiset(Walk(table[i := [e] + table[i]])) == multiset(Walk(table)) + multiset{e.data}
  {
    hide Walk, Datas;
    var table' := table[i := [e] + table[i]];
    WalkFirst(table);
    WalkFirst(table');
    if i == 0 {
      DatasPush(table[0], e);
      assert table'[1..] == table[1..];
    } else {
      assert table'[1..] == table[1..][i - 1 := [e] + table[1..][i - 1]];
      WalkPush(table[1..], i - 1, e);
    }
  }

  lemma WalkFirst(table: seq<seq<Entry>>)
    requires table != []
    ensures multiset(Walk(table)) == multiset(Datas(table[0])) + multiset(Walk(table[1..]))
  {
  }

  lemma DatasPush(chain: seq<Entry>, e: Entry)
    ensures multiset(Datas([e] + chain)) == multiset(Datas(chain)) + multiset{e.data}
  {
    assert ([e] + chain)[1..] == chain;
  }

  function Index(key: string, size: nat): (i: nat)
    requires size > 0
    ensures i < size
  {
    Polynomial(key) % size
  }

  /** What a lookup finds. */
  ghost function Bound(table: seq<seq<Entry>>, name: string): Option<int>
    requires |table| > 0
  {
    Find(table[Index(name, |table|)], name)
  }

  lemma PushBinds(table: seq<seq<Entry>>, e: Entry, name: string)
    requires |table| > 0
    ensures var i := Index(e.name, |table|);
      Bound(table[i := [e] + table[i]], name) == if name == e.name then Some(e.data) else Bound(table, name)
  {
    var i := Index(e.name, |table|);
    assert ([e] + table[i])[1..] == table[i];
  }

  lemma RebindBinds(table: seq<seq<Entry>>, key: string, data: int, name: string)
    requires |table| > 0 && Bound(table, key).Some?
    ensures var i := Index(key, |table|);
      Bound(table[i := Rebind(table[i], key, data)], name) == if name == key then Some(data) else Bound(table, name)
  {
    RebindFinds(table[Index(key, |table|)], key, data, name);
  }

  class HashTab {
    var table: seq<seq<Entry>>
    ghost var contents: map<string, int>

    /** The chains hold exactly the bindings of `contents`; an older entry of a
        name stays in its chain behind the newer one. */
    ghost predicate Valid()
      reads this
    {
      && |table| > 0
      && forall name: string {:trigger Bound(table, name)} {:trigger name in contents} ::
           Bound(table, name) == if name in contents then Some(contents[name]) else None
    }

    constructor (size: nat)
      requires size > 0
      ensures Valid() && contents == map[] && Walk(table) == []
    {
      table := seq(size, _ => []);
      contents := map[];
      new;
      WalkEmpty(table);
    }

    /** Drops every entry. */
    method Reset()
      requires Valid()
      modifies this
      ensures Valid() && contents == map[] && |table| == old(|table|)
    {
      table := seq(|table|, _ => []);
      contents := map[];
    }

    method Lookup(key: string) returns (data: Option<int>)
      requires Valid()
      ensures data == if key in contents then Some(contents[key]) else None
    {
      var chain := table[Index(key, |table|)];
      while chain != []
        invariant Find(chain, key) == Bound(table, key)
        decreases |chain|
      {
        if chain[0].name == key {
          return Some(chain[0].data);
        }
        chain := chain[1..];
      }
      return None;
    }

    /** Inserts at the head of the chain: a later binding hides an earlier one. */
    method Add(key: string, data: int)
      requires Valid()
      modifies this
      ensures Valid() && contents == old(contents)[key := data]
      ensures multiset(Walk(table)) == multiset(old(Walk(table))) + multiset{data}
    {
      hide Walk;
      var i := Index(key, |table|);
      WalkPush(table, i, Entry(key, data));
      forall name: string
        ensures Bound(table[i := [Entry(key, data)] + table[i]], name) ==
          if name == key then Some(data) else Bound(table, name)
      {
        PushBinds(table, Entry(key, data), name);
      }
      table := table[i := [Entry(key, data)] + table[i]];
      contents := contents[key := data];
    }

    /** Changes the data of the entry that a lookup of the key finds. */
    method Replace(key: string, data: int)
      requires Valid() && key in contents
      modifies this
      ensures Valid() && contents == old(contents)[key := data]
    {
      var i := Index(key, |table|);
      assert Bound(table, key).Some?;
      var before, rest := [], table[i];
      while rest[0].name != key
        invariant Find(rest, key).Some?
        invariant Rebind(table[i], key, data) == before + Rebind(rest, key, data)
        decreases |rest|
      {
        before, rest := before + [rest[0]], rest[1..];
      }
      forall name: string {
        RebindBinds(table, key, data, name);
      }
      assert Rebind(table[i], key, data) == before + [Entry(key, data)] + rest[1..];
      table := table[i := before + [Entry(key, data)] + rest[1..]];
      contents := contents[key := data];
    }
  }

  lemma {:induction false} WalkEmpty(table: seq<seq<Entry>>)
    requires forall i | 0 <= i < |table| :: table[i] == []
    ensures Walk(table) == []
  {
    if table != [] {
      WalkEmpty(table[1..]);
    }
  }
}
