/** Step 5 of the REFERENCES algorithm: root threads with the same subject are
    merged. */
module Merging {
  import opened Sequences
  import opened Messages
  import opened Threads

  ghost function Subject(t: Thread): string
    requires Rooted(t)
  {
    Lead(t).subject
  }

  /** How good a thread is at standing for its subject: best a dummy, then a
      message that is not a reply. */
  ghost function Class(t: Thread): nat
    requires Rooted(t)
  {
    if t.msg == None then 0 else if t.msg.value.refwd then 2 else 1
  }

  /** Root `k` stands for the subject: no root is better, none as good comes first. */
  ghost predicate Stands(ts: seq<Thread>, s: string, k: nat)
    requires Shaped(ts)
  {
    && k < |ts| && Subject(ts[k]) == s
    && forall x | 0 <= x < |ts| && Subject(ts[x]) == s ::
         Class(ts[k]) < Class(ts[x]) || (Class(ts[k]) == Class(ts[x]) && k <= x)
  }

  /** Step 5B: the root that the subject table ends up with, after `n` roots. */
  ghost function Pick(ts: seq<Thread>, s: string, n: nat): (k: Option<nat>)
    requires Shaped(ts) && n <= |ts|
    ensures k.Some? ==> k.value < n && Subject(ts[k.value]) == s
  {
    if n == 0 then None
    else
      var best := Pick(ts, s, n - 1);
      if Subject(ts[n - 1]) != s then best
      else if best == None || Class(ts[n - 1]) < Class(ts[best.value]) then Some(n - 1)
      else best
  }

  lemma {:induction false} PickPrefix(ts: seq<Thread>, s: string, n: nat)
    requires Shaped(ts) && n <= |ts|
    ensures Pick(ts, s, n).None? ==> forall x | 0 <= x < n :: Subject(ts[x]) != s
    ensures Pick(ts, s, n).Some? ==> forall x | 0 <= x < n && Subject(ts[x]) == s ::
      var k := Pick(ts, s, n).value; Class(ts[k]) < Class(ts[x]) || (Class(ts[k]) == Class(ts[x]) && k <= x)
  {
    if n > 0 {
      PickPrefix(ts, s, n - 1);
    }
  }

  /** The table holds the best root of every subject. */
  lemma PickStands(ts: seq<Thread>, i: nat)
    requires Shaped(ts) && i < |ts|
    ensures var s := Subject(ts[i]);
      Pick(ts, s, |ts|).Some? && Stands(ts, s, Pick(ts, s, |ts|).value)
  {
    PickPrefix(ts, Subject(ts[i]), |ts|);
  }

  ghost function StandingFor(ts: seq<Thread>, i: nat): (j: nat)
    requires Shaped(ts) && i < |ts|
    ensures j < |ts| && Subject(ts[j]) == Subject(ts[i]) && Stands(ts, Subject(ts[i]), j)
  {
    PickStands(ts, i);
    Pick(ts, Subject(ts[i]), |ts|).value
  }

  ghost function Adopt(t: Thread, more: seq<Thread>): Thread {
    Thread(t.msg, t.kids + more)
  }

  /** What the current root `i` does to the roots when `j` stands for its subject. */
  ghost function Absorb(ts: seq<Thread>, i: nat, j: nat): (r: seq<Thread>)
    requires Shaped(ts) && i < |ts| && j < |ts| && i != j
    requires Stands(ts, Subject(ts[i]), j)
  {
    var cur, lst := ts[i], ts[j];
    if lst.msg == None then
      Remove(ts[j := Adopt(lst, if cur.msg == None then cur.kids else [cur])], i)
    else if cur.msg.Some? && cur.msg.value.refwd && !lst.msg.value.refwd then
      Remove(ts[j := Adopt(lst, [cur])], i)
    else
      Remove(ts[i := Thread(None, [lst, cur])], j)
  }

  /** A new dummy is made only for an entry that comes before the current root,
      and only out of two messages. */
  lemma NewDummy(ts: seq<Thread>, i: nat, j: nat)
    requires Shaped(ts) && i < |ts| && j < |ts| && i != j && Stands(ts, Subject(ts[i]), j)
    requires ts[j].msg.Some? && !(ts[i].msg.Some? && ts[i].msg.value.refwd && !ts[j].msg.value.refwd)
    ensures j < i && ts[i].msg.Some?
  {
  }

  lemma AdoptRooted(t: Thread, more: seq<Thread>)
    requires Rooted(t) && Plain(more)
    ensures Rooted(Adopt(t, more)) && Lead(Adopt(t, more)) == Lead(t) && Class(Adopt(t, more)) == Class(t)
  {
    PlainAppend(t.kids, more);
  }

  lemma {:induction false} PairRooted(a: Thread, b: Thread)
    requires Rooted(a) && Rooted(b) && a.msg.Some? && b.msg.Some?
    ensures Rooted(Thread(None, [a, b])) && Lead(Thread(None, [a, b])) == Lead(a)
  {
    assert [a, b][1..] == [b];
  }

  lemma OnePlain(t: Thread)
    requires Rooted(t) && t.msg.Some?
    ensures Plain([t])
  {
  }

  lemma AbsorbShaped(ts: seq<Thread>, i: nat, j: nat)
    requires Shaped(ts) && i < |ts| && j < |ts| && i != j && Stands(ts, Subject(ts[i]), j)
    ensures Shaped(Absorb(ts, i, j)) && |Absorb(ts, i, j)| == |ts| - 1
  {
    var cur, lst := ts[i], ts[j];
    if lst.msg == None {
      if cur.msg.Some? {
        OnePlain(cur);
      }
      AdoptRooted(lst, if cur.msg == None then cur.kids else [cur]);
    } else if cur.msg.Some? && cur.msg.value.refwd && !lst.msg.value.refwd {
      OnePlain(cur);
      AdoptRooted(lst, [cur]);
    } else {
      NewDummy(ts, i, j);
      PairRooted(lst, cur);
    }
  }

  /** The roots and the position after the current root was dealt with. */
  ghost function Step(ts: seq<Thread>, i: nat): (r: (seq<Thread>, nat))
    requires Shaped(ts) && i < |ts|
    ensures Shaped(r.0) && r.1 <= |r.0| && |r.0| - r.1 < |ts| - i
  {
    var s, j := Subject(ts[i]), StandingFor(ts, i);
    if s == "" || j == i then (ts, i + 1)
    else AbsorbShaped(ts, i, j); (Absorb(ts, i, j), i)
  }

  /** Step 5C: the roots after all from `i` on were dealt with. */
  ghost function Merge(ts: seq<Thread>, i: nat): (r: seq<Thread>)
    requires Shaped(ts) && i <= |ts|
    ensures Shaped(r)
    decreases |ts| - i
  {
    if i == |ts| then ts else Merge(Step(ts, i).0, Step(ts, i).1)
  }

  // ---- At most one root per subject ----

  lemma {:induction false} StandsRemove(ts: seq<Thread>, s: string, k: nat, i: nat)
    requires Shaped(ts) && i < |ts| && k != i && Stands(ts, s, k)
    ensures Shaped(Remove(ts, i)) && Stands(Remove(ts, i), s, if i < k then k - 1 else k)
  {
    var r, k' := Remove(ts, i), if i < k then k - 1 else k;
    assert r[k'] == ts[k];
    forall x | 0 <= x < |r| && Subject(r[x]) == s
      ensures Class(r[k']) < Class(r[x]) || (Class(r[k']) == Class(r[x]) && k' <= x)
    {
      assert r[x] == ts[if x < i then x else x + 1];
    }
  }

  lemma StandsReplace(ts: seq<Thread>, s: string, k: nat, j: nat, t: Thread)
    requires Shaped(ts) && j < |ts| && Rooted(t) && Stands(ts, s, k)
    requires Lead(t) == Lead(ts[j]) && Class(t) == Class(ts[j])
    ensures Shaped(ts[j := t]) && Stands(ts[j := t], s, k)
  {
  }

  /** Every root before `i` with a subject stands for it. */
  ghost predicate Settled(ts: seq<Thread>, i: nat)
    requires Shaped(ts)
  {
    i <= |ts| && forall x | 0 <= x < i :: Subject(ts[x]) == "" || Stands(ts, Subject(ts[x]), x)
  }

  lemma StandsUnique(ts: seq<Thread>, s: string, j: nat, k: nat)
    requires Shaped(ts) && Stands(ts, s, j) && Stands(ts, s, k)
    ensures j == k
  {
  }

  lemma {:induction false} AdoptedSettled(ts: seq<Thread>, i: nat, j: nat, t: Thread)
    requires Shaped(ts) && i < |ts| && Settled(ts, i) && j < |ts| && j != i
    requires Stands(ts, Subject(ts[i]), j) && Rooted(t) && Lead(t) == Lead(ts[j]) && Class(t) == Class(ts[j])
    ensures Shaped(Remove(ts[j := t], i)) && Settled(Remove(ts[j := t], i), i)
  {
    var us := ts[j := t];
    var r := Remove(us, i);
    StandsRemove(us, Subject(ts[i]), j, i);
    forall x | 0 <= x < i
      ensures Subject(r[x]) == "" || Stands(r, Subject(r[x]), x)
    {
      if Subject(r[x]) != "" {
        StandsReplace(ts, Subject(ts[x]), x, j, t);
        StandsRemove(us, Subject(ts[x]), x, i);
      }
    }
  }

  lemma {:induction false} DummySettled(ts: seq<Thread>, i: nat, j: nat, d: Thread)
    requires Shaped(ts) && i < |ts| && Settled(ts, i) && j < i && Stands(ts, Subject(ts[i]), j)
    requires Class(ts[j]) > 0 && Rooted(d) && d.msg == None && Subject(d) == Subject(ts[i])
    ensures Shaped(Remove(ts[i := d], j)) && Settled(Remove(ts[i := d], j), i)
  {
    var us := ts[i := d];
    var r := Remove(us, j);
    assert Stands(us, Subject(d), i);
    StandsRemove(us, Subject(d), i, j);
    forall x | 0 <= x < i
      ensures Subject(r[x]) == "" || Stands(r, Subject(r[x]), x)
    {
      if x < i - 1 && Subject(r[x]) != "" {
        var y := if x < j then x else x + 1;
        assert r[x] == us[y] == ts[y];
        if Subject(ts[y]) == Subject(d) {
          StandsUnique(ts, Subject(d), y, j);
        }
        assert Stands(us, Subject(ts[y]), y);
        StandsRemove(us, Subject(ts[y]), y, j);
      }
    }
  }

  lemma StepSettled(ts: seq<Thread>, i: nat)
    requires Shaped(ts) && i < |ts| && Settled(ts, i)
    ensures Settled(Step(ts, i).0, Step(ts, i).1)
  {
    var s, j := Subject(ts[i]), StandingFor(ts, i);
    if s != "" && j != i {
      var cur, lst := ts[i], ts[j];
      if lst.msg == None {
        if cur.msg.Some? {
          OnePlain(cur);
        }
        var more := if cur.msg == None then cur.kids else [cur];
        AdoptRooted(lst, more);
        AdoptedSettled(ts, i, j, Adopt(lst, more));
      } else if cur.msg.Some? && cur.msg.value.refwd && !lst.msg.value.refwd {
        OnePlain(cur);
        AdoptRooted(lst, [cur]);
        AdoptedSettled(ts, i, j, Adopt(lst, [cur]));
      } else {
        NewDummy(ts, i, j);
        PairRooted(lst, cur);
        DummySettled(ts, i, j, Thread(None, [lst, cur]));
      }
    }
  }

  lemma {:induction false} MergeSettles(ts: seq<Thread>, i: nat)
    requires Shaped(ts) && Settled(ts, i)
    ensures Settled(Merge(ts, i), |Merge(ts, i)|)
    decreases |ts| - i
  {
    if i < |ts| {
      StepSettled(ts, i);
      MergeSettles(Step(ts, i).0, Step(ts, i).1);
    }
  }

  /** After merging no two roots share a subject, unless it is empty. */
  lemma OneRootPerSubject(ts: seq<Thread>, x: nat, y: nat)
    requires Shaped(ts) && x < |Merge(ts, 0)| && y < |Merge(ts, 0)|
    requires Subject(Merge(ts, 0)[x]) == Subject(Merge(ts, 0)[y]) != ""
    ensures x == y
  {
    MergeSettles(ts, 0);
    StandsUnique(Merge(ts, 0), Subject(Merge(ts, 0)[x]), x, y);
  }

  // ---- No message is lost, doubled or moved to another subject ----

  /** The messages of all roots, or of those with one subject. */
  ghost function Under(ts: seq<Thread>, s: Option<string>): multiset<Message>
    requires Shaped(ts)
  {
    if ts == [] then multiset{} else Own(ts[0], s) + Under(ts[1..], s)
  }

  ghost function Own(t: Thread, s: Option<string>): multiset<Message>
    requires Rooted(t)
  {
    if s == None || Subject(t) == s.value then multiset(MessagesOf([t])) else multiset{}
  }

  lemma {:induction false} UnderRemove(ts: seq<Thread>, i: nat, s: Option<string>)
    requires Shaped(ts) && i < |ts|
    ensures Shaped(Remove(ts, i)) && Under(ts, s) == Under(Remove(ts, i), s) + Own(ts[i], s)
  {
    hide Own, Rooted;
    if i == 0 {
      assert Remove(ts, i) == ts[1..];
    } else {
      UnderRemove(ts[1..], i - 1, s);
      assert Remove(ts, i)[1..] == Remove(ts[1..], i - 1);
    }
  }

  lemma {:induction false} UnderReplace(ts: seq<Thread>, j: nat, t: Thread, s: Option<string>)
    requires Shaped(ts) && j < |ts| && Rooted(t)
    ensures Shaped(ts[j := t]) && Under(ts[j := t], s) + Own(ts[j], s) == Under(ts, s) + Own(t, s)
  {
    hide Own, Rooted;
    if j == 0 {
      assert ts[j := t][1..] == ts[1..];
    } else {
      UnderReplace(ts[1..], j - 1, t, s);
      assert ts[j := t][1..] == ts[1..][j - 1 := t];
      var a, b := Under(ts[1..][j - 1 := t], s), Under(ts[1..], s);
      var o, p, q := Own(ts[0], s), Own(ts[j], s), Own(t, s);
      assert Under(ts[j := t], s) == o + a && Under(ts, s) == o + b;
      assert a + p == b + q;
      assert (o + a) + p == o + (a + p) && (o + b) + q == o + (b + q);
    }
  }

  lemma Cancel(a: multiset<Message>, b: multiset<Message>, c: multiset<Message>)
    requires a + c == b + c
    ensures a == b
  {
    assert a == (a + c) - c;
  }

  lemma {:induction false} OwnAdopt(t: Thread, more: seq<Thread>, s: Option<string>)
    requires Rooted(t) && Plain(more)
    ensures Rooted(Adopt(t, more)) && Subject(Adopt(t, more)) == Subject(t)
    ensures Own(Adopt(t, more), s) ==
      Own(t, s) + if s == None || Subject(t) == s.value then multiset(MessagesOf(more)) else multiset{}
  {
    hide MessagesOf, Rooted;
    AdoptRooted(t, more);
    MessagesAppend(t.kids, more);
    MessagesOfOne(t);
    MessagesOfOne(Adopt(t, more));
    var top := if t.msg.Some? then [t.msg.value] else [];
    assert top + (MessagesOf(t.kids) + MessagesOf(more)) == (top + MessagesOf(t.kids)) + MessagesOf(more);
  }

  lemma OwnPair(a: Thread, b: Thread, s: Option<string>)
    requires Rooted(a) && Rooted(b) && a.msg.Some? && b.msg.Some? && Subject(a) == Subject(b)
    ensures Rooted(Thread(None, [a, b]))
    ensures Own(Thread(None, [a, b]), s) == Own(a, s) + Own(b, s)
  {
    PairRooted(a, b);
    MessagesAppend([a], [b]);
    assert [a] + [b] == [a, b];
    assert [Thread(None, [a, b])][1..] == [];
  }

  lemma StepConserves(ts: seq<Thread>, i: nat, s: Option<string>)
    requires Shaped(ts) && i < |ts|
    ensures Under(Step(ts, i).0, s) == Under(ts, s)
  {
    hide Under, Own, Plain, MessagesOf;
    var j := StandingFor(ts, i);
    if Subject(ts[i]) != "" && j != i {
      var cur, lst := ts[i], ts[j];
      if lst.msg == None {
        if cur.msg.Some? {
          OnePlain(cur);
        }
        AdoptConserves(ts, i, j, if cur.msg == None then cur.kids else [cur], s);
      } else if cur.msg.Some? && cur.msg.value.refwd && !lst.msg.value.refwd {
        OnePlain(cur);
        AdoptConserves(ts, i, j, [cur], s);
      } else {
        NewDummy(ts, i, j);
        PairConserves(ts, i, j, s);
      }
    }
  }

  lemma PairConserves(ts: seq<Thread>, i: nat, j: nat, s: Option<string>)
    requires Shaped(ts) && i < |ts| && j < i && Subject(ts[i]) == Subject(ts[j])
    requires ts[i].msg.Some? && ts[j].msg.Some?
    ensures Shaped(Remove(ts[i := Thread(None, [ts[j], ts[i]])], j))
    ensures Under(Remove(ts[i := Thread(None, [ts[j], ts[i]])], j), s) == Under(ts, s)
  {
    hide Under, Own, Rooted, MessagesOf;
    var d := Thread(None, [ts[j], ts[i]]);
    OwnPair(ts[j], ts[i], s);
    UnderReplace(ts, i, d, s);
    UnderRemove(ts[i := d], j, s);
    var u, r, a, b := Under(ts, s), Under(Remove(ts[i := d], j), s), Own(ts[i], s), Own(ts[j], s);
    assert (r + b) + a == u + (b + a);
    Cancel(r, u, b + a);
  }

  lemma AdoptConserves(ts: seq<Thread>, i: nat, j: nat, more: seq<Thread>, s: Option<string>)
    requires Shaped(ts) && i < |ts| && j < |ts| && i != j && Subject(ts[i]) == Subject(ts[j]) && Plain(more)
    requires more == if ts[i].msg == None then ts[i].kids else [ts[i]]
    ensures Shaped(Remove(ts[j := Adopt(ts[j], more)], i))
    ensures Under(Remove(ts[j := Adopt(ts[j], more)], i), s) == Under(ts, s)
  {
    hide Under, Own, Plain, Rooted, MessagesOf;
    var t := Adopt(ts[j], more);
    OwnAdopt(ts[j], more, s);
    UnderReplace(ts, j, t, s);
    UnderRemove(ts[j := t], i, s);
    OwnMore(ts[i], more, s);
    var u, r, a, b := Under(ts, s), Under(Remove(ts[j := t], i), s), Own(ts[i], s), Own(ts[j], s);
    assert (r + a) + b == u + (b + a);
    Cancel(r, u, b + a);
  }

  lemma OwnMore(t: Thread, more: seq<Thread>, s: Option<string>)
    requires Rooted(t) && more == if t.msg == None then t.kids else [t]
    ensures Own(t, s) == if s == None || Subject(t) == s.value then multiset(MessagesOf(more)) else multiset{}
  {
    MessagesOfOne(t);
  }

  /** The messages of all roots stay the same through merging, and so do those of
      the roots of every one subject. */
  lemma {:induction false} MergeConserves(ts: seq<Thread>, i: nat, s: Option<string>)
    requires Shaped(ts) && i <= |ts|
    ensures Under(Merge(ts, i), s) == Under(ts, s)
    decreases |ts| - i
  {
    if i < |ts| {
      StepConserves(ts, i, s);
      MergeConserves(Step(ts, i).0, Step(ts, i).1, s);
    }
  }

  lemma {:induction false} UnderAll(ts: seq<Thread>)
    requires Shaped(ts)
    ensures Under(ts, None) == multiset(MessagesOf(ts))
  {
    if ts != [] {
      UnderAll(ts[1..]);
      MessagesAppend([ts[0]], ts[1..]);
      assert [ts[0]] + ts[1..] == ts;
    }
  }
}
