/** Which message stands above which, from the linked containers to the threads
    that are returned. */
module Ancestors {
  import opened Sequences
  import opened Messages
  import opened Roses
  import opened Threads
  import opened Merging
  import opened Containers
  import opened Pruning
  import opened ThreadNodes
  import opened Linkages
  import opened Linking
  import opened Citing
  import opened Growing
  import opened Threading

  /** The pairs of a message and one somewhere below it. */
  ghost function Above(ts: seq<Thread>): set<(Message, Message)> {
    if ts == [] then {} else AboveIn(ts[0]) + Above(ts[1..])
  }

  ghost function AboveIn(t: Thread): set<(Message, Message)> {
    (if t.msg.Some? then set m | m in MessagesOf(t.kids) :: (t.msg.value, m) else {}) + Above(t.kids)
  }

  lemma {:induction false} AboveAppend(ts: seq<Thread>, us: seq<Thread>)
    ensures Above(ts + us) == Above(ts) + Above(us)
  {
    if ts == [] {
      assert ts + us == us;
    } else {
      assert (ts + us)[1..] == ts[1..] + us;
      AboveAppend(ts[1..], us);
    }
  }

  lemma {:induction false} AboveOne(t: Thread)
    ensures Above([t]) == AboveIn(t)
  {
    assert [t][1..] == [];
  }

  /** The pairs of all threads are those of each. */
  lemma {:induction false} AboveMember(ts: seq<Thread>, p: (Message, Message))
    ensures p in Above(ts) <==> exists t <- ts :: p in AboveIn(t)
  {
    if ts != [] {
      hide AboveIn;
      AboveMember(ts[1..], p);
      if p in AboveIn(ts[0]) {
        assert ts[0] in ts;
      } else if p in Above(ts[1..]) {
        var t :| t in ts[1..] && p in AboveIn(t);
        assert t in ts;
      }
    }
  }

  // ---- Sorting ----

  lemma AbovePermuted(ts: seq<Thread>, us: seq<Thread>)
    requires multiset(ts) == multiset(us)
    ensures Above(ts) == Above(us)
  {
    forall t
      ensures t in ts <==> t in us
    {
      assert t in ts <==> t in multiset(ts);
      assert t in us <==> t in multiset(us);
    }
    forall p
      ensures p in Above(ts) <==> p in Above(us)
    {
      AboveMember(ts, p);
      AboveMember(us, p);
    }
  }

  /** Sorting the roots keeps everything below them. */
  lemma SortKeepsAbove(ts: seq<Thread>)
    requires Shaped(ts)
    ensures Above(Sort(ts)) == Above(ts)
  {
    SortFacts(ts);
    AbovePermuted(Sort(ts), ts);
  }

  /** Sorting every level moves no message below or out from below another. */
  lemma {:induction false} SortAllKeepsAbove(ts: seq<Thread>)
    requires Shaped(ts)
    ensures Above(SortAll(ts)) == Above(ts)
    decreases ts, 1
  {
    SortEachKeepsAbove(ts);
    SortKeepsAbove(SortEach(ts));
  }

  lemma {:induction false} SortEachKeepsAbove(ts: seq<Thread>)
    requires Shaped(ts)
    ensures Above(SortEach(ts)) == Above(ts)
    decreases ts, 0
  {
    if ts != [] {
      PlainIsShaped(ts[0].kids);
      SortAllKeepsAbove(ts[0].kids);
      SortEachKeepsAbove(ts[1..]);
      SortAllMessages(ts[0].kids);
      EachKeepsAbove(ts);
    }
  }

  lemma EachKeepsAbove(ts: seq<Thread>)
    requires Shaped(ts) && ts != [] && Shaped(ts[0].kids)
    requires Above(SortAll(ts[0].kids)) == Above(ts[0].kids) && Above(SortEach(ts[1..])) == Above(ts[1..])
    requires multiset(MessagesOf(SortAll(ts[0].kids))) == multiset(MessagesOf(ts[0].kids))
    ensures Above(SortEach(ts)) == Above(ts)
  {
    hide SortAll, MessagesOf;
    var each, k, k' := SortEach(ts), ts[0].kids, SortAll(ts[0].kids);
    assert each[0] == Thread(ts[0].msg, k') && each[1..] == SortEach(ts[1..]);
    forall m
      ensures m in MessagesOf(k') <==> m in MessagesOf(k)
    {
      assert m in MessagesOf(k') <==> m in multiset(MessagesOf(k'));
      assert m in MessagesOf(k) <==> m in multiset(MessagesOf(k));
    }
  }

  // ---- Merging ----

  /** The original root `k` takes in the reply root `x` of its subject when the roots
      from `i` on are dealt with: no dummy has the subject, `k` is the first original
      that has it, and no other original of it comes before `x`. */
  ghost predicate TakesIn(ts: seq<Thread>, i: nat, k: nat, x: nat)
    requires Shaped(ts)
  {
    && i <= x < |ts| && Subject(ts[x]) != "" && Class(ts[x]) == 2
    && k < |ts| && Class(ts[k]) == 1 && Stands(ts, Subject(ts[x]), k)
    && FirstOnly(ts, i, k, x)
  }

  /** The pairs that merging adds: the original and any message of the thread of a
      reply root that it takes in. */
  ghost predicate Gains(ts: seq<Thread>, i: nat, p: (Message, Message))
    requires Shaped(ts)
  {
    exists k: nat, x: nat :: TakesIn(ts, i, k, x) && ts[k].msg == Some(p.0) && p.1 in MessagesOf([ts[x]])
  }

  lemma {:induction false} AboveRemove(ts: seq<Thread>, i: nat)
    requires i < |ts|
    ensures Above(ts) == Above(Remove(ts, i)) + AboveIn(ts[i])
  {
    assert ts == ts[..i] + ([ts[i]] + ts[i + 1..]);
    AboveAppend(ts[..i], [ts[i]] + ts[i + 1..]);
    AboveAppend([ts[i]], ts[i + 1..]);
    AboveAppend(ts[..i], ts[i + 1..]);
    AboveOne(ts[i]);
  }

  /** The pairs of a root that adopts `more`. */
  lemma AboveAdopt(t: Thread, more: seq<Thread>)
    ensures AboveIn(Adopt(t, more)) == AboveIn(t) + Above(more)
      + if t.msg.Some? then set m | m in MessagesOf(more) :: (t.msg.value, m) else {}
  {
    AboveAppend(t.kids, more);
    MessagesAppend(t.kids, more);
  }

  lemma AboveReplace(ts: seq<Thread>, j: nat, t: Thread)
    requires j < |ts| && AboveIn(ts[j]) <= AboveIn(t)
    ensures Above(ts[j := t]) == Above(ts) + AboveIn(t)
  {
    hide Above, AboveIn;
    AboveRemove(ts[j := t], j);
    AboveRemove(ts, j);
    assert Remove(ts[j := t], j) == Remove(ts, j);
  }

  /** A root that another root holds more than can go. */
  lemma AboveSpared(ts: seq<Thread>, i: nat, j: nat)
    requires i < |ts| && j < |ts| && i != j && AboveIn(ts[i]) <= AboveIn(ts[j])
    ensures Above(Remove(ts, i)) == Above(ts)
  {
    hide Above, AboveIn;
    AboveRemove(ts, i);
    var us, k := Remove(ts, i), if j < i then j else j - 1;
    assert us[k] == ts[j];
    AboveRemove(us, k);
  }

  /** What a root adopts, it stands above if it is a message. */
  lemma AdoptKeepsAbove(ts: seq<Thread>, i: nat, j: nat, more: seq<Thread>)
    requires i < |ts| && j < |ts| && i != j
    requires more == if ts[i].msg == None then ts[i].kids else [ts[i]]
    ensures Above(Remove(ts[j := Adopt(ts[j], more)], i)) == Above(ts)
      + if ts[j].msg.Some? then set m | m in MessagesOf(more) :: (ts[j].msg.value, m) else {}
  {
    AboveOne(ts[i]);
    hide Above;
    var t := Adopt(ts[j], more);
    AboveAdopt(ts[j], more);
    assert AboveIn(ts[i]) == Above(more);
    hide AboveIn;
    AboveReplace(ts, j, t);
    AboveSpared(ts[j := t], i, j);
    AboveRemove(ts, i);
    AboveRemove(ts, j);
  }

  lemma PairKeepsAbove(ts: seq<Thread>, i: nat, j: nat)
    requires i < |ts| && j < |ts| && i != j
    ensures Above(Remove(ts[i := Thread(None, [ts[j], ts[i]])], j)) == Above(ts)
  {
    var d := Thread(None, [ts[j], ts[i]]);
    AboveAppend([ts[j]], [ts[i]]);
    assert [ts[j]] + [ts[i]] == [ts[j], ts[i]];
    AboveOne(ts[i]);
    AboveOne(ts[j]);
    hide Above;
    AboveReplace(ts, i, d);
    AboveSpared(ts[i := d], j, i);
    AboveRemove(ts, i);
    AboveRemove(ts, j);
  }

  /** Of two roots with the subject of `t` one gives way to `t` and the other goes. */
  ghost predicate Joins(ts: seq<Thread>, a: nat, t: Thread, b: nat)
    requires Shaped(ts)
  {
    && a < |ts| && b < |ts| && a != b && Rooted(t)
    && Subject(ts[a]) == Subject(ts[b]) == Subject(t)
  }

  lemma JoinedAt(ts: seq<Thread>, a: nat, t: Thread, b: nat, n: nat)
    requires Shaped(ts) && Joins(ts, a, t, b) && n < |ts| - 1
    ensures var us, m := Remove(ts[a := t], b), Origin(b, n);
      Shaped(us) && m < |ts| && m != b && Goal(b, m) == n && us[n] == if m == a then t else ts[m]
  {
  }

  lemma JoinedFrom(ts: seq<Thread>, a: nat, t: Thread, b: nat, n: nat)
    requires Shaped(ts) && Joins(ts, a, t, b) && n < |ts| && n != b
    ensures var us, m := Remove(ts[a := t], b), Goal(b, n);
      Shaped(us) && m < |us| && Origin(b, m) == n && us[m] == if n == a then t else ts[n]
  {
  }

  /** Who stands for another subject does not change. */
  lemma OtherStands(ts: seq<Thread>, a: nat, t: Thread, b: nat, s: string, k: nat)
    requires Shaped(ts) && Joins(ts, a, t, b) && s != Subject(t) && k < |ts| - 1
    ensures var us := Remove(ts[a := t], b);
      Shaped(us) && (Stands(us, s, k) <==> Stands(ts, s, Origin(b, k)))
  {
    hide Subject, Class, Rooted;
    var us := Remove(ts[a := t], b);
    JoinedAt(ts, a, t, b, k);
    if Stands(us, s, k) {
      forall x | 0 <= x < |ts| && Subject(ts[x]) == s
        ensures Class(ts[Origin(b, k)]) < Class(ts[x]) || (Class(ts[Origin(b, k)]) == Class(ts[x]) && Origin(b, k) <= x)
      {
        JoinedFrom(ts, a, t, b, x);
        assert Subject(us[Goal(b, x)]) == s;
      }
    }
    if Stands(ts, s, Origin(b, k)) {
      forall x | 0 <= x < |us| && Subject(us[x]) == s
        ensures Class(us[k]) < Class(us[x]) || (Class(us[k]) == Class(us[x]) && k <= x)
      {
        JoinedAt(ts, a, t, b, x);
        assert Subject(ts[Origin(b, x)]) == s;
      }
    }
  }

  /** No other original of the subject comes before `x`. */
  ghost predicate FirstOnly(ts: seq<Thread>, i: nat, k: nat, x: nat)
    requires Shaped(ts) && x < |ts|
  {
    forall y | i <= y < x && Subject(ts[y]) == Subject(ts[x]) && Class(ts[y]) == 1 :: y == k
  }

  lemma OtherFirst(ts: seq<Thread>, a: nat, t: Thread, b: nat, i: nat, k: nat, x: nat)
    requires Shaped(ts) && Joins(ts, a, t, b) && b <= i && k < |ts| - 1 && x < |ts| - 1
    requires Subject(ts[Origin(b, x)]) == Subject(t) ==>
      Origin(b, x) != a && Origin(b, k) == a && b == i && Class(ts[b]) != 1
    requires Subject(ts[Origin(b, x)]) != Subject(t) ==> a == i || b == i
    ensures var us := Remove(ts[a := t], b);
      Shaped(us) && (FirstOnly(us, i, k, x) <==> FirstOnly(ts, i, Origin(b, k), Origin(b, x)))
  {
    hide Subject, Class, Rooted;
    var us, x' := Remove(ts[a := t], b), Origin(b, x);
    JoinedAt(ts, a, t, b, x);
    if FirstOnly(us, i, k, x) {
      forall y | i <= y < x' && Subject(ts[y]) == Subject(ts[x']) && Class(ts[y]) == 1
        ensures y == Origin(b, k)
      {
        if y != a {
          JoinedFrom(ts, a, t, b, y);
          assert i <= Goal(b, y) < x;
        }
      }
    }
    if FirstOnly(ts, i, Origin(b, k), x') {
      forall y | i <= y < x && Subject(us[y]) == Subject(us[x]) && Class(us[y]) == 1
        ensures y == k
      {
        JoinedAt(ts, a, t, b, y);
        if Origin(b, y) == a {
          JoinedAt(ts, a, t, b, k);
        } else {
          assert i <= Origin(b, y) < x';
        }
      }
    }
  }

  /** Who takes in whom of another subject does not change. */
  lemma OtherTakes(ts: seq<Thread>, a: nat, t: Thread, b: nat, i: nat, k: nat, x: nat)
    requires Shaped(ts) && Joins(ts, a, t, b) && b <= i && (a == i || b == i) && k < |ts| - 1 && x < |ts| - 1
    requires Subject(ts[Origin(b, x)]) != Subject(t)
    ensures var us := Remove(ts[a := t], b);
      Shaped(us) && (TakesIn(us, i, k, x) <==> TakesIn(ts, i, Origin(b, k), Origin(b, x)))
  {
    hide Subject, Class, Rooted, Stands, FirstOnly;
    var s := Subject(ts[Origin(b, x)]);
    JoinedAt(ts, a, t, b, k);
    JoinedAt(ts, a, t, b, x);
    OtherStands(ts, a, t, b, s, k);
    OtherFirst(ts, a, t, b, i, k, x);
    StandsSubject(ts, s, Origin(b, k));
  }

  lemma StandsSubject(ts: seq<Thread>, s: string, k: nat)
    requires Shaped(ts)
    ensures Stands(ts, s, k) ==> k < |ts| && Subject(ts[k]) == s
  {
  }

  /** An original that has adopted the current reply takes in the later ones as
      before. */
  lemma OwnTakes(ts: seq<Thread>, j: nat, t: Thread, i: nat, k: nat, x: nat)
    requires Shaped(ts) && Joins(ts, j, t, i) && Stands(ts, Subject(t), j) && k < |ts| - 1 && x < |ts| - 1
    requires Lead(t) == Lead(ts[j]) && Class(t) == Class(ts[j]) == 1 && Class(ts[i]) == 2
    requires Subject(ts[Origin(i, x)]) == Subject(t)
    ensures var us := Remove(ts[j := t], i);
      && Shaped(us)
      && (TakesIn(us, i, k, x) <==> Origin(i, k) == j && TakesIn(ts, i, Origin(i, k), Origin(i, x)))
  {
    hide Class, Rooted, FirstOnly, Lead;
    var us := Remove(ts[j := t], i);
    JoinedAt(ts, j, t, i, k);
    JoinedAt(ts, j, t, i, x);
    JoinedFrom(ts, j, t, i, j);
    StandsReplace(ts, Subject(t), j, j, t);
    StandsRemove(ts[j := t], Subject(t), j, i);
    if TakesIn(us, i, k, x) {
      StandsUnique(us, Subject(t), k, Goal(i, j));
    }
    if Origin(i, k) == j && Origin(i, x) != j {
      OtherFirst(ts, j, t, i, i, k, x);
    }
  }

  /** A root takes in others only if it stands for the subject. */
  lemma TakesInStands(ts: seq<Thread>, i: nat, k: nat, x: nat, j: nat)
    requires Shaped(ts) && j < |ts| && Stands(ts, Subject(ts[j]), j) && TakesIn(ts, i, k, x)
    requires Subject(ts[x]) == Subject(ts[j])
    ensures k == j && Class(ts[j]) == 1
  {
    StandsUnique(ts, Subject(ts[j]), k, j);
  }

  /** When the current root goes to a dummy, or an original, nothing is gained but
      what that adopts. */
  lemma AdoptGains(ts: seq<Thread>, i: nat, j: nat, more: seq<Thread>, p: (Message, Message))
    requires Shaped(ts) && i < |ts| && j < |ts| && i != j && Plain(more) && Stands(ts, Subject(ts[i]), j)
    requires Subject(ts[i]) != "" && more == if ts[i].msg == None then ts[i].kids else [ts[i]]
    requires Class(ts[j]) == 0 || (Class(ts[j]) == 1 && Class(ts[i]) == 2)
    ensures var us := Remove(ts[j := Adopt(ts[j], more)], i);
      && Shaped(us)
      && (Gains(ts, i, p) <==> Gains(us, i, p) || (ts[j].msg == Some(p.0) && p.1 in MessagesOf(more)))
  {
    var t := Adopt(ts[j], more);
    AdoptRooted(ts[j], more);
    var us := Remove(ts[j := t], i);
    JoinedFrom(ts, j, t, i, j);
    hide Subject, Class, Rooted, Stands, FirstOnly, MessagesOf, TakesIn, Plain;
    if Gains(us, i, p) {
      var k: nat, x: nat :| TakesIn(us, i, k, x) && us[k].msg == Some(p.0) && p.1 in MessagesOf([us[x]]);
      AdoptTakes(ts, i, j, t, k, x);
    }
    if Gains(ts, i, p) {
      var k: nat, x: nat :| TakesIn(ts, i, k, x) && ts[k].msg == Some(p.0) && p.1 in MessagesOf([ts[x]]);
      AdoptTaken(ts, i, j, t, k, x);
    }
    if ts[j].msg == Some(p.0) && p.1 in MessagesOf(more) {
      CurrentTaken(ts, i, j);
    }
  }

  /** What the roots take in afterwards they took in before, ... */
  lemma AdoptTakes(ts: seq<Thread>, i: nat, j: nat, t: Thread, k: nat, x: nat)
    requires Shaped(ts) && Joins(ts, j, t, i) && Subject(t) != "" && Stands(ts, Subject(t), j)
    requires Lead(t) == Lead(ts[j]) && Class(t) == Class(ts[j]) && t.msg == ts[j].msg
    requires Class(t) == 0 || (Class(t) == 1 && Class(ts[i]) == 2)
    requires Shaped(Remove(ts[j := t], i)) && TakesIn(Remove(ts[j := t], i), i, k, x)
    ensures var us := Remove(ts[j := t], i);
      && TakesIn(ts, i, Origin(i, k), Origin(i, x))
      && us[k].msg == ts[Origin(i, k)].msg && us[x] == ts[Origin(i, x)]
  {
    hide Class, Rooted, Stands, FirstOnly, Lead;
    var us := Remove(ts[j := t], i);
    JoinedAt(ts, j, t, i, k);
    JoinedAt(ts, j, t, i, x);
    if Subject(us[x]) == Subject(t) {
      StandsAfter(ts, j, t, i);
      TakesInStands(us, i, k, x, Goal(i, j));
      OwnTakes(ts, j, t, i, k, x);
    } else {
      OtherTakes(ts, j, t, i, i, k, x);
    }
  }

  lemma StandsAfter(ts: seq<Thread>, j: nat, t: Thread, i: nat)
    requires Shaped(ts) && Joins(ts, j, t, i) && Stands(ts, Subject(t), j)
    requires Lead(t) == Lead(ts[j]) && Class(t) == Class(ts[j])
    ensures var us := Remove(ts[j := t], i);
      Shaped(us) && Goal(i, j) < |us| && us[Goal(i, j)] == t && Stands(us, Subject(t), Goal(i, j))
  {
    hide Class, Rooted, Stands, Lead;
    StandsReplace(ts, Subject(t), j, j, t);
    StandsRemove(ts[j := t], Subject(t), j, i);
  }

  /** ... and the other way, but for the current root itself. */
  lemma AdoptTaken(ts: seq<Thread>, i: nat, j: nat, t: Thread, k: nat, x: nat)
    requires Shaped(ts) && Joins(ts, j, t, i) && Subject(t) != "" && Stands(ts, Subject(t), j)
    requires Lead(t) == Lead(ts[j]) && Class(t) == Class(ts[j]) && t.msg == ts[j].msg
    requires Class(t) == 0 || (Class(t) == 1 && Class(ts[i]) == 2)
    requires TakesIn(ts, i, k, x)
    ensures k != i && (x == i ==> k == j)
    ensures x != i ==>
      var us, k', x' := Remove(ts[j := t], i), Goal(i, k), Goal(i, x);
      && k' < |us| && x' < |us| && Shaped(us) && TakesIn(us, i, k', x')
      && us[k'].msg == ts[k].msg && us[x'] == ts[x]
  {
    hide Class, Rooted, Stands, FirstOnly, Lead;
    if Subject(ts[x]) == Subject(t) {
      TakesInStands(ts, i, k, x, j);
    }
    StandsSubject(ts, Subject(ts[x]), k);
    JoinedFrom(ts, j, t, i, k);
    if x != i {
      JoinedFrom(ts, j, t, i, x);
      if Subject(ts[x]) == Subject(t) {
        OwnTakes(ts, j, t, i, Goal(i, k), Goal(i, x));
      } else {
        OtherTakes(ts, j, t, i, i, Goal(i, k), Goal(i, x));
      }
    }
  }

  lemma CurrentTaken(ts: seq<Thread>, i: nat, j: nat)
    requires Shaped(ts) && i < |ts| && j < |ts| && Subject(ts[i]) != "" && Stands(ts, Subject(ts[i]), j)
    requires Class(ts[j]) == 1 && Class(ts[i]) == 2
    ensures TakesIn(ts, i, j, i)
  {
  }

  /** A new dummy takes in nobody, nor did its two messages. */
  lemma PairGains(ts: seq<Thread>, i: nat, j: nat, p: (Message, Message))
    requires Shaped(ts) && i < |ts| && j < |ts| && i != j && Stands(ts, Subject(ts[i]), j) && Subject(ts[i]) != ""
    requires ts[j].msg.Some? && !(ts[i].msg.Some? && ts[i].msg.value.refwd && !ts[j].msg.value.refwd)
    ensures var us := Remove(ts[i := Thread(None, [ts[j], ts[i]])], j);
      Shaped(us) && (Gains(ts, i, p) <==> Gains(us, i, p))
  {
    NewDummy(ts, i, j);
    PairRooted(ts[j], ts[i]);
    var d := Thread(None, [ts[j], ts[i]]);
    var us := Remove(ts[i := d], j);
    DummyStands(ts, i, j, d);
    OriginalsPair(ts, i, j);
    hide Subject, Class, Rooted, Stands, FirstOnly, MessagesOf, TakesIn;
    if Gains(us, i, p) {
      var k: nat, x: nat :| TakesIn(us, i, k, x) && us[k].msg == Some(p.0) && p.1 in MessagesOf([us[x]]);
      PairTakes(ts, i, j, d, k, x);
    }
    if Gains(ts, i, p) {
      var k: nat, x: nat :| TakesIn(ts, i, k, x) && ts[k].msg == Some(p.0) && p.1 in MessagesOf([ts[x]]);
      PairTaken(ts, i, j, d, k, x);
    }
  }

  lemma DummyStands(ts: seq<Thread>, i: nat, j: nat, d: Thread)
    requires Shaped(ts) && Joins(ts, i, d, j) && Stands(ts, Subject(d), j) && Class(ts[j]) > 0 && d.msg == None
    ensures var us := Remove(ts[i := d], j);
      Shaped(us) && Goal(j, i) < |us| && us[Goal(j, i)] == d && Stands(us, Subject(d), Goal(j, i))
  {
    assert Stands(ts[i := d], Subject(d), i);
    StandsRemove(ts[i := d], Subject(d), i, j);
  }

  lemma OriginalsPair(ts: seq<Thread>, i: nat, j: nat)
    requires Shaped(ts) && i < |ts| && j < |ts| && i != j && Stands(ts, Subject(ts[i]), j)
    requires ts[j].msg.Some? && !(ts[i].msg.Some? && ts[i].msg.value.refwd && !ts[j].msg.value.refwd)
    ensures Class(ts[j]) == 1 ==> Class(ts[i]) == 1
  {
  }

  lemma PairTakes(ts: seq<Thread>, i: nat, j: nat, d: Thread, k: nat, x: nat)
    requires Shaped(ts) && Joins(ts, i, d, j) && j < i && Shaped(Remove(ts[i := d], j))
    requires Stands(Remove(ts[i := d], j), Subject(d), i - 1) && d.msg == None
    requires TakesIn(Remove(ts[i := d], j), i, k, x)
    ensures var us := Remove(ts[i := d], j);
      && TakesIn(ts, i, Origin(j, k), Origin(j, x))
      && us[k].msg == ts[Origin(j, k)].msg && us[x] == ts[Origin(j, x)]
  {
    hide Rooted, Stands, FirstOnly, Lead;
    var us := Remove(ts[i := d], j);
    JoinedAt(ts, i, d, j, k);
    JoinedAt(ts, i, d, j, x);
    JoinedFrom(ts, i, d, j, i);
    if Subject(us[x]) == Subject(d) {
      TakesInStands(us, i, k, x, i - 1);
    } else {
      OtherTakes(ts, i, d, j, i, k, x);
      StandsSubject(us, Subject(us[x]), k);
    }
  }

  lemma PairTaken(ts: seq<Thread>, i: nat, j: nat, d: Thread, k: nat, x: nat)
    requires Shaped(ts) && Joins(ts, i, d, j) && j < i && Stands(ts, Subject(d), j)
    requires (Class(ts[j]) == 1 ==> Class(ts[i]) == 1) && TakesIn(ts, i, k, x)
    ensures k != j && x != j
    ensures var us, k', x' := Remove(ts[i := d], j), Goal(j, k), Goal(j, x);
      && k' < |us| && x' < |us| && Shaped(us) && TakesIn(us, i, k', x')
      && us[k'].msg == ts[k].msg && us[x'] == ts[x]
  {
    hide Rooted, Stands, Lead, Class;
    StandsSubject(ts, Subject(ts[x]), k);
    if Subject(ts[x]) == Subject(d) {
      TakesInStands(ts, i, k, x, j);
      assert false;
    }
    JoinedFrom(ts, i, d, j, k);
    JoinedFrom(ts, i, d, j, x);
    OtherTakes(ts, i, d, j, i, Goal(j, k), Goal(j, x));
  }

  lemma StayTakes(ts: seq<Thread>, i: nat, k: nat, x: nat)
    requires Shaped(ts) && i < |ts| && (Subject(ts[i]) == "" || Stands(ts, Subject(ts[i]), i))
    ensures TakesIn(ts, i, k, x) <==> TakesIn(ts, i + 1, k, x)
  {
    hide Rooted, Stands, Subject, Class;
    if TakesIn(ts, i, k, x) && x == i {
      TakesInStands(ts, i, k, x, i);
    }
    if TakesIn(ts, i + 1, k, x) && Subject(ts[i]) == Subject(ts[x]) {
      TakesInStands(ts, i + 1, k, x, i);
    }
  }

  lemma StayGains(ts: seq<Thread>, i: nat, p: (Message, Message))
    requires Shaped(ts) && i < |ts| && (Subject(ts[i]) == "" || Stands(ts, Subject(ts[i]), i))
    ensures Gains(ts, i, p) <==> Gains(ts, i + 1, p)
  {
    forall k: nat, x: nat
      ensures TakesIn(ts, i, k, x) <==> TakesIn(ts, i + 1, k, x)
    {
      StayTakes(ts, i, k, x);
    }
    hide TakesIn, MessagesOf, Rooted, Stands, Subject;
  }

  /** One merging step makes of the pairs to gain pairs that are there. */
  lemma StepAbove(ts: seq<Thread>, i: nat, p: (Message, Message))
    requires Shaped(ts) && i < |ts|
    ensures var (us, n) := Step(ts, i);
      (p in Above(us) || Gains(us, n, p)) <==> (p in Above(ts) || Gains(ts, i, p))
  {
    hide Above, Gains, MessagesOf, Stands, Lead, Rooted;
    var s, j := Subject(ts[i]), StandingFor(ts, i);
    if s == "" || j == i {
      StayGains(ts, i, p);
    } else if ts[j].msg == None || (ts[i].msg.Some? && ts[i].msg.value.refwd && !ts[j].msg.value.refwd) {
      var more := if ts[i].msg == None then ts[i].kids else [ts[i]];
      MorePlain(ts[i]);
      AdoptKeepsAbove(ts, i, j, more);
      AdoptGains(ts, i, j, more, p);
    } else {
      NewDummy(ts, i, j);
      PairKeepsAbove(ts, i, j);
      PairGains(ts, i, j, p);
    }
  }

  lemma MorePlain(t: Thread)
    requires Rooted(t)
    ensures Plain(if t.msg == None then t.kids else [t])
  {
  }

  /** Merging keeps every pair and adds exactly an original root above the threads
      of the replies to it that it takes in. */
  lemma {:induction false} MergeAbove(ts: seq<Thread>, i: nat, p: (Message, Message))
    requires Shaped(ts) && i <= |ts|
    ensures p in Above(Merge(ts, i)) <==> p in Above(ts) || Gains(ts, i, p)
    decreases |ts| - i
  {
    hide Above, Step, TakesIn;
    if i == |ts| {
      NoneLeft(ts);
    } else {
      StepAbove(ts, i, p);
      MergeAbove(Step(ts, i).0, Step(ts, i).1, p);
    }
  }

  lemma NoneLeft(ts: seq<Thread>)
    requires Shaped(ts)
    ensures forall k: nat, x: nat :: !TakesIn(ts, |ts|, k, x)
  {
  }

  /** Steps 4 to 6 keep every pair and add those of step 5. */
  lemma FinishedAbove(ts: seq<Thread>, p: (Message, Message))
    requires Shaped(ts)
    ensures p in Above(Finished(ts)) <==> p in Above(ts) || Gains(Sort(ts), 0, p)
  {
    hide Above, Gains, Sort, SortAll, Merge;
    SortKeepsAbove(ts);
    MergeAbove(Sort(ts), 0, p);
    SortAllKeepsAbove(Merge(Sort(ts), 0));
  }

  // ---- From containers to threads ----

  lemma {:induction false} ValueMember(tag: map<Cell, Option<Message>>, s: seq<Cell>, m: Message)
    ensures m in Values(tag, s) <==> exists c <- s :: Label(tag, c) == Some(m)
  {
    if s != [] {
      ValueMember(tag, s[1..], m);
      assert forall c :: c in s <==> c == s[0] || c in s[1..];
    }
  }

  ghost predicate OverPair(cache: seq<Option<Message>>, f: seq<Rose>, p: (Message, Message)) {
    exists a, b :: (a, b) in Over(MessagesIn(cache), f)
      && Label(Labels(cache), a) == Some(p.0) && Label(Labels(cache), b) == Some(p.1)
  }

  lemma OverPairSplit(cache: seq<Option<Message>>, f: seq<Rose>, p: (Message, Message))
    requires f != []
    ensures OverPair(cache, f, p) <==>
      || (Label(Labels(cache), f[0].v) == Some(p.0) && p.1 in Values(Labels(cache), Pre(f[0].kids)))
      || OverPair(cache, f[0].kids, p) || OverPair(cache, f[1..], p)
  {
    hide Labels, Over, Kept, Pre, Values, MessagesIn;
    var tag, msgs, top, k := Labels(cache), MessagesIn(cache), f[0].v, f[0].kids;
    LabelsAt(cache, top);
    ValueMember(tag, Pre(k), p.1);
    if OverPair(cache, f, p) {
      var a, b :| (a, b) in Over(msgs, f) && Label(tag, a) == Some(p.0) && Label(tag, b) == Some(p.1);
      OverFirst(msgs, f, a, b);
      KeptMember(msgs, Pre(k), b);
    }
    if Label(tag, top) == Some(p.0) && p.1 in Values(tag, Pre(k)) {
      var b :| b in Pre(k) && Label(tag, b) == Some(p.1);
      KeptMember(msgs, Pre(k), b);
      LabelsAt(cache, b);
      OverFirst(msgs, f, top, b);
    }
    if OverPair(cache, k, p) {
      var a, b :| (a, b) in Over(msgs, k) && Label(tag, a) == Some(p.0) && Label(tag, b) == Some(p.1);
      OverFirst(msgs, f, a, b);
    }
    if OverPair(cache, f[1..], p) {
      var a, b :| (a, b) in Over(msgs, f[1..]) && Label(tag, a) == Some(p.0) && Label(tag, b) == Some(p.1);
      OverFirst(msgs, f, a, b);
    }
  }

  /** In the threads that a forest shows, a message stands above another exactly if
      its container does in the forest. */
  lemma {:induction false} AboveShown(cache: seq<Option<Message>>, f: seq<Rose>, p: (Message, Message))
    ensures p in Above(Show(Labels(cache), f)) <==> OverPair(cache, f, p)
  {
    if f != [] {
      hide OverPair;
      AboveShown(cache, f[0].kids, p);
      AboveShown(cache, f[1..], p);
      OverPairSplit(cache, f, p);
      assert Show(Labels(cache), f)[1..] == Show(Labels(cache), f[1..]);
      ShowMessages(Labels(cache), f[0].kids);
    }
  }

  /** The containers of the two messages were linked, that of the first above that
      of the second. */
  ghost predicate LinkedAbove(fam: Family, sc: seq<Message>, p: (Message, Message))
    requires fam.Ok()
  {
    exists a: Cell, b: Cell :: InFamily(fam, sc, a, b) && fam.Below(a, b) && p == (sc[a - 1], sc[b - 1])
  }

  ghost predicate InFamily(fam: Family, sc: seq<Message>, a: Cell, b: Cell) {
    a <= |sc| && b <= |sc| && a != b && a in fam.kids && b in fam.kids
  }

  lemma OverIsLinked(sc: seq<Message>, cache: seq<Option<Message>>, fam: Family, forest: seq<Rose>,
                     p: (Message, Message))
    requires fam.Ok() && Dummies(Cached(sc), cache) && Grown(fam, MessagesIn(cache), forest)
    requires forall c: Cell :: c in fam.kids <==> c <= |cache|
    ensures OverPair(cache, forest, p) <==> LinkedAbove(fam, sc, p)
  {
    hide Over, Labels, MessagesIn, Cached, Dummies, Family.Matched, Family.Ranked, Family.Below;
    var msgs := MessagesIn(cache);
    if LinkedAbove(fam, sc, p) {
      var a: Cell, b: Cell :| InFamily(fam, sc, a, b) && fam.Below(a, b) && p == (sc[a - 1], sc[b - 1]);
      LabelIs(sc, cache, a);
      LabelIs(sc, cache, b);
      assert (a, b) in Over(msgs, forest);
    }
    if OverPair(cache, forest, p) {
      var a, b :|
        (a, b) in Over(msgs, forest) && Label(Labels(cache), a) == Some(p.0) && Label(Labels(cache), b) == Some(p.1);
      LabelIs(sc, cache, a);
      LabelIs(sc, cache, b);
      OverCells(msgs, forest, a, b);
      assert InFamily(fam, sc, a, b);
    }
  }

  /** The containers of the messages come first. */
  lemma {:induction false} LabelIs(sc: seq<Message>, cache: seq<Option<Message>>, c: Cell)
    requires Dummies(Cached(sc), cache)
    ensures Label(Labels(cache), c) == if c <= |sc| then Some(sc[c - 1]) else None
    ensures c in MessagesIn(cache) <==> c <= |sc|
  {
    hide Labels, MessagesIn, Cached;
    LabelsAt(cache, c);
  }

  lemma {:induction false} OverCells(msgs: set<Cell>, f: seq<Rose>, a: Cell, b: Cell)
    requires (a, b) in Over(msgs, f)
    ensures a in Pre(f) && b in Pre(f)
  {
    KeptMember(msgs, Pre(f[0].kids), b);
    if (a, b) in Over(msgs, f[0].kids) {
      OverCells(msgs, f[0].kids, a, b);
    } else if (a, b) in Over(msgs, f[1..]) {
      OverCells(msgs, f[1..], a, b);
    }
  }

  lemma PrunedAbove(sc: seq<Message>, cache: seq<Option<Message>>, fam: Family, forest: seq<Rose>,
                    p: (Message, Message))
    requires fam.Ok() && Dummies(Cached(sc), cache) && Grown(fam, MessagesIn(cache), forest)
    requires forall c: Cell :: c in fam.kids <==> c <= |cache|
    ensures p in Above(Show(Labels(cache), Prune(MessagesIn(cache), forest, true))) <==> LinkedAbove(fam, sc, p)
  {
    hide Show, Prune, Above, Family.Matched, Family.Ranked, LinkedAbove, Grown, Dummies, OverPair;
    AboveShown(cache, Prune(MessagesIn(cache), forest, true), p);
    SameOver(cache, forest, p);
    OverIsLinked(sc, cache, fam, forest, p);
  }

  /** The trees below all roots are the whole family. */
  lemma TreesGrown(fam: Family, msgs: set<Cell>, roots: seq<Cell>)
    requires fam.Ok() && Roots(fam, roots)
    ensures forall k <- roots :: k in fam.kids && fam.rank[k] >= 0
    ensures Grown(fam, msgs, Trees(fam, roots, 0))
  {
    hide Family.Matched, Family.Ranked, Trees;
    TreesOfAll(fam, roots);
    forall a, b | a in fam.kids && b in fam.kids
      ensures (a, b) in Over(msgs, Trees(fam, roots, 0)) <==> a in msgs && b in msgs && a != b && fam.Below(a, b)
    {
      TreesOver(fam, msgs, roots, 0, a, b);
      var r := RootAbove(fam, a, roots);
    }
  }

  /** From the references to the threads: a message ends up above another exactly if
      step 1 linked its container above that of the other, or it is an original root
      that takes in the other's thread by its subject. */
  lemma ThreadAncestors(sc: seq<Message>, p: (Message, Message))
    ensures p in Above(Threaded(sc)) <==>
      LinkedAbove(StepOne(sc).fam, sc, p) || Gains(Sort(PrunedThreads(sc)), 0, p)
  {
    hide Show, Prune, Above, Finished, Family.Matched, Family.Ranked, LinkedAbove, Grown, Dummies, Gains, StepOne;
    hide Roots, Trees;
    var cache, fam, roots := Contents(sc), StepOne(sc).fam, TopLevel(sc);
    TreesGrown(fam, MessagesIn(cache), roots);
    FinishedAbove(PrunedThreads(sc), p);
    PrunedAbove(sc, cache, fam, Trees(fam, roots, 0), p);
  }

  /** When the references agree with some order, a message ends up below the one that
      its last reference names. */
  lemma {:induction false} ReplyBelow(sc: seq<Message>, time: string -> int, a: nat, i: nat)
    requires InTime(sc, time) && LastNamed(sc, a) && LastNamed(sc, i)
    requires sc[i].references != [] && sc[i].references[|sc[i].references| - 1] == Names(sc)[a]
    ensures (sc[a], sc[i]) in Above(Threaded(sc))
  {
    hide InTime, Names, Above, Threaded, StepOne, LinkedAbove, Family.Matched, Family.Ranked;
    InTimeParent(sc, time, a, i);
    ThreadAncestors(sc, (sc[a], sc[i]));
    ParentLinked(StepOne(sc).fam, sc, a, i);
  }

  lemma ParentLinked(fam: Family, sc: seq<Message>, a: nat, i: nat)
    requires fam.Ok() && a < |sc| && i < |sc| && i + 1 in fam.kids && fam.parent[i + 1] == a + 1
    ensures LinkedAbove(fam, sc, (sc[a], sc[i]))
  {
    hide Family.Matched;
    fam.ParentIsNotBelow(i + 1);
    assert InFamily(fam, sc, a + 1, i + 1) && fam.Below(a + 1, a + 1) && fam.Below(a + 1, i + 1);
  }

  lemma SameOver(cache: seq<Option<Message>>, forest: seq<Rose>, p: (Message, Message))
    ensures OverPair(cache, Prune(MessagesIn(cache), forest, true), p) <==> OverPair(cache, forest, p)
  {
    hide Prune, Over;
    PruneKeepsAncestors(MessagesIn(cache), forest, true);
  }
}
