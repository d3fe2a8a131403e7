/** The threads a caller gets, and what it means to sort them. */
module Threads {
  import opened Messages

  /** A message, or a dummy, with its answers. */
  datatype Thread = Thread(msg: Option<Message>, kids: seq<Thread>)

  /** The messages in preorder. */
  ghost function MessagesOf(ts: seq<Thread>): seq<Message> {
    if ts == [] then []
    else (if ts[0].msg.Some? then [ts[0].msg.value] else []) + MessagesOf(ts[0].kids) + MessagesOf(ts[1..])
  }

  lemma {:induction false} MessagesAppend(ts: seq<Thread>, us: seq<Thread>)
    ensures MessagesOf(ts + us) == MessagesOf(ts) + MessagesOf(us)
  {
    if ts == [] {
      assert ts + us == us;
    } else {
      assert (ts + us)[1..] == ts[1..] + us;
      MessagesAppend(ts[1..], us);
    }
  }

  /** No dummies. */
  ghost predicate Plain(ts: seq<Thread>) {
    ts == [] || (ts[0].msg.Some? && Plain(ts[0].kids) && Plain(ts[1..]))
  }

  lemma {:induction false} PlainAppend(ts: seq<Thread>, us: seq<Thread>)
    ensures Plain(ts + us) <==> Plain(ts) && Plain(us)
  {
    if ts == [] {
      assert ts + us == us;
    } else {
      assert (ts + us)[1..] == ts[1..] + us;
      PlainAppend(ts[1..], us);
    }
  }

  lemma {:induction false} PlainMember(ts: seq<Thread>, i: nat)
    requires Plain(ts) && i < |ts|
    ensures ts[i].msg.Some? && Plain(ts[i].kids)
  {
    if i > 0 {
      PlainMember(ts[1..], i - 1);
    }
  }

  /** Dummies stand only at the root, with messages below them. */
  ghost predicate Rooted(t: Thread) {
    Plain(t.kids) && (t.msg.Some? || t.kids != [])
  }

  ghost predicate Shaped(ts: seq<Thread>) {
    forall i | 0 <= i < |ts| :: Rooted(ts[i])
  }

  lemma {:induction false} PlainIsShaped(ts: seq<Thread>)
    requires Plain(ts)
    ensures Shaped(ts)
  {
    forall i | 0 <= i < |ts|
      ensures Rooted(ts[i])
    {
      PlainMember(ts, i);
    }
  }

  /** The message a thread is sorted and grouped by: its own, or for a dummy
      that of its first child. */
  ghost function Lead(t: Thread): Message
    requires Rooted(t)
  {
    if t.msg.Some? then t.msg.value else t.kids[0].msg.value
  }

  /** The order of the source's comparison: by date, then by number. */
  predicate Before(a: Message, b: Message) {
    a.date < b.date || (a.date == b.date && a.num <= b.num)
  }

  ghost predicate Sorted(ts: seq<Thread>)
    requires Shaped(ts)
  {
    forall i, j | 0 <= i < j < |ts| :: Before(Lead(ts[i]), Lead(ts[j]))
  }

  ghost function Insert(t: Thread, ts: seq<Thread>): (r: seq<Thread>)
    requires Rooted(t) && Shaped(ts)
    ensures Shaped(r)
  {
    if ts == [] || Before(Lead(t), Lead(ts[0])) then [t] + ts else [ts[0]] + Insert(t, ts[1..])
  }

  /** The threads in order. */
  ghost function Sort(ts: seq<Thread>): (r: seq<Thread>)
    requires Shaped(ts)
    ensures Shaped(r)
  {
    if ts == [] then [] else Insert(ts[0], Sort(ts[1..]))
  }

  lemma {:induction false} InsertFacts(t: Thread, ts: seq<Thread>)
    requires Rooted(t) && Shaped(ts) && Sorted(ts)
    ensures Sorted(Insert(t, ts)) && multiset(Insert(t, ts)) == multiset{t} + multiset(ts)
  {
    hide Rooted;
    if ts == [] || Before(Lead(t), Lead(ts[0])) {
      FirstSorted(t, ts);
    } else {
      InsertFacts(t, ts[1..]);
      var rest := Insert(t, ts[1..]);
      assert ts == [ts[0]] + ts[1..];
      forall u <- rest
        ensures Before(Lead(ts[0]), Lead(u))
      {
        assert u in multiset(rest);
        if u != t {
          FirstIsLeast(ts, u);
        }
      }
      FirstSorted(ts[0], rest);
    }
  }

  lemma FirstSorted(t: Thread, ts: seq<Thread>)
    requires Rooted(t) && Shaped(ts) && Sorted(ts) && (ts != [] ==> Before(Lead(t), Lead(ts[0])))
    ensures Shaped([t] + ts) && Sorted([t] + ts)
  {
    hide Rooted, Lead;
    var r := [t] + ts;
    forall i, j | 0 <= i < j < |r|
      ensures Before(Lead(r[i]), Lead(r[j]))
    {
      if i == 0 && j > 1 {
        assert Before(Lead(ts[0]), Lead(ts[j - 1]));
      }
    }
  }

  /** `Sort` orders and loses nothing. */
  lemma {:induction false} SortFacts(ts: seq<Thread>)
    requires Shaped(ts)
    ensures Sorted(Sort(ts)) && multiset(Sort(ts)) == multiset(ts)
  {
    if ts != [] {
      SortFacts(ts[1..]);
      InsertFacts(ts[0], Sort(ts[1..]));
      assert ts == [ts[0]] + ts[1..];
    }
  }

  /** No two threads are led by messages of the same number. */
  ghost predicate Numbered(ts: seq<Thread>)
    requires Shaped(ts)
  {
    forall t <- ts, u <- ts | Lead(t).num == Lead(u).num :: t == u
  }

  /** There is only one way to order threads led by different messages, so it
      does not matter how it is done. */
  lemma {:induction false} SortedIsUnique(ts: seq<Thread>, us: seq<Thread>)
    requires Shaped(ts) && Shaped(us) && Sorted(ts) && Sorted(us) && Numbered(ts)
    requires multiset(ts) == multiset(us)
    ensures ts == us
  {
    assert |ts| == |multiset(ts)| == |us|;
    if ts != [] {
      SameFirst(ts, us);
      SameRest(ts, us);
      assert Numbered(ts[1..]);
      SortedIsUnique(ts[1..], us[1..]);
      assert ts == [ts[0]] + ts[1..] && us == [us[0]] + us[1..];
    }
  }

  lemma SameFirst(ts: seq<Thread>, us: seq<Thread>)
    requires Shaped(ts) && Shaped(us) && Sorted(ts) && Sorted(us) && Numbered(ts)
    requires multiset(ts) == multiset(us) && ts != [] && us != []
    ensures ts[0] == us[0]
  {
    assert us[0] in multiset(ts) && ts[0] in multiset(us);
    assert us[0] in ts && ts[0] in us;
    FirstIsLeast(ts, us[0]);
    FirstIsLeast(us, ts[0]);
  }

  lemma SameRest(ts: seq<Thread>, us: seq<Thread>)
    requires ts != [] && us != [] && ts[0] == us[0] && multiset(ts) == multiset(us)
    ensures multiset(ts[1..]) == multiset(us[1..])
  {
    assert ts == [ts[0]] + ts[1..] && us == [us[0]] + us[1..];
    assert multiset(ts[1..]) == multiset(ts) - multiset{ts[0]};
  }

  lemma FirstIsLeast(ts: seq<Thread>, t: Thread)
    requires Shaped(ts) && Sorted(ts) && t in ts
    ensures Before(Lead(ts[0]), Lead(t))
  {
  }

  // ---- Sorting whole trees ----

  /** Step 6: the threads at every level in order. */
  ghost function SortAll(ts: seq<Thread>): (r: seq<Thread>)
    requires Shaped(ts)
    ensures Shaped(r) && |r| == |ts|
    ensures Plain(ts) ==> Plain(r)
    decreases ts, 1
  {
    SortFacts(SortEach(ts));
    SortLength(SortEach(ts));
    SortPlain(SortEach(ts));
    Sort(SortEach(ts))
  }

  ghost function SortEach(ts: seq<Thread>): (r: seq<Thread>)
    requires Shaped(ts)
    ensures Shaped(r) && |r| == |ts|
    ensures Plain(ts) ==> Plain(r)
    decreases ts, 0
  {
    if ts == [] then []
    else
      PlainIsShaped(ts[0].kids);
      [Thread(ts[0].msg, SortAll(ts[0].kids))] + SortEach(ts[1..])
  }

  lemma {:induction false} SortLength(ts: seq<Thread>)
    requires Shaped(ts)
    ensures |Sort(ts)| == |ts|
  {
    if ts != [] {
      SortLength(ts[1..]);
      InsertLength(ts[0], Sort(ts[1..]));
    }
  }

  lemma {:induction false} InsertLength(t: Thread, ts: seq<Thread>)
    requires Rooted(t) && Shaped(ts)
    ensures |Insert(t, ts)| == |ts| + 1
  {
    if ts != [] && !Before(Lead(t), Lead(ts[0])) {
      InsertLength(t, ts[1..]);
    }
  }

  lemma {:induction false} SortPlain(ts: seq<Thread>)
    requires Shaped(ts)
    ensures Plain(ts) ==> Plain(Sort(ts))
  {
    if ts != [] {
      SortPlain(ts[1..]);
      InsertPlain(ts[0], Sort(ts[1..]));
    }
  }

  lemma {:induction false} InsertPlain(t: Thread, ts: seq<Thread>)
    requires Rooted(t) && Shaped(ts)
    ensures t.msg.Some? && Plain(ts) ==> Plain(Insert(t, ts))
  {
    if ts == [] || Before(Lead(t), Lead(ts[0])) {
      assert ([t] + ts)[1..] == ts;
    } else {
      InsertPlain(t, ts[1..]);
    }
  }

  /** The messages of one thread. */
  lemma {:induction false} MessagesOfOne(t: Thread)
    ensures MessagesOf([t]) == (if t.msg.Some? then [t.msg.value] else []) + MessagesOf(t.kids)
  {
    assert [t][1..] == [];
  }

  lemma {:induction false} MessagesCons(ts: seq<Thread>)
    requires ts != []
    ensures MessagesOf(ts) == MessagesOf([ts[0]]) + MessagesOf(ts[1..])
  {
    MessagesOfOne(ts[0]);
  }

  lemma {:induction false} InsertMessages(t: Thread, ts: seq<Thread>)
    requires Rooted(t) && Shaped(ts)
    ensures multiset(MessagesOf(Insert(t, ts))) == multiset(MessagesOf([t])) + multiset(MessagesOf(ts))
  {
    hide MessagesOf, Rooted;
    if ts == [] || Before(Lead(t), Lead(ts[0])) {
      MessagesAppend([t], ts);
    } else {
      InsertMessages(t, ts[1..]);
      MessagesCons(ts);
      MessagesCons(Insert(t, ts));
    }
  }

  lemma {:induction false} SortMessages(ts: seq<Thread>)
    requires Shaped(ts)
    ensures multiset(MessagesOf(Sort(ts))) == multiset(MessagesOf(ts))
  {
    if ts != [] {
      hide MessagesOf, Rooted;
      SortMessages(ts[1..]);
      InsertMessages(ts[0], Sort(ts[1..]));
      MessagesCons(ts);
    }
  }

  /** Sorting loses and doubles no message. */
  lemma {:induction false} SortAllMessages(ts: seq<Thread>)
    requires Shaped(ts)
    ensures multiset(MessagesOf(SortAll(ts))) == multiset(MessagesOf(ts))
    decreases ts, 1
  {
    SortMessages(SortEach(ts));
    SortEachMessages(ts);
  }

  lemma {:induction false} SortEachMessages(ts: seq<Thread>)
    requires Shaped(ts)
    ensures multiset(MessagesOf(SortEach(ts))) == multiset(MessagesOf(ts))
    decreases ts, 0
  {
    if ts != [] {
      PlainIsShaped(ts[0].kids);
      SortAllMessages(ts[0].kids);
      SortEachMessages(ts[1..]);
      EachMessages(ts);
    }
  }

  lemma EachMessages(ts: seq<Thread>)
    requires Shaped(ts) && ts != [] && Shaped(ts[0].kids)
    requires multiset(MessagesOf(SortAll(ts[0].kids))) == multiset(MessagesOf(ts[0].kids))
    requires multiset(MessagesOf(SortEach(ts[1..]))) == multiset(MessagesOf(ts[1..]))
    ensures multiset(MessagesOf(SortEach(ts))) == multiset(MessagesOf(ts))
  {
    hide MessagesOf, SortAll;
    var r := SortEach(ts);
    assert r[1..] == SortEach(ts[1..]);
    MessagesCons(ts);
    MessagesCons(r);
    MessagesOfOne(ts[0]);
    MessagesOfOne(r[0]);
  }

  /** Every level is in order. */
  ghost predicate InOrder(ts: seq<Thread>) {
    Shaped(ts) && Sorted(ts) && forall i | 0 <= i < |ts| :: InOrder(ts[i].kids)
  }

  lemma {:induction false} SortAllInOrder(ts: seq<Thread>)
    requires Shaped(ts)
    ensures InOrder(SortAll(ts))
    decreases ts, 1
  {
    var each := SortEach(ts);
    SortFacts(each);
    SortEachInOrder(ts);
    forall i | 0 <= i < |SortAll(ts)|
      ensures InOrder(SortAll(ts)[i].kids)
    {
      assert SortAll(ts)[i] in multiset(each);
      assert SortAll(ts)[i] in each;
    }
  }

  lemma {:induction false} SortEachInOrder(ts: seq<Thread>)
    requires Shaped(ts)
    ensures forall t <- SortEach(ts) :: InOrder(t.kids)
    decreases ts, 0
  {
    if ts != [] {
      PlainIsShaped(ts[0].kids);
      SortAllInOrder(ts[0].kids);
      SortEachInOrder(ts[1..]);
    }
  }

  /** No two messages have the same number. */
  ghost predicate DistinctNums(ts: seq<Thread>) {
    var ms := MessagesOf(ts);
    forall i, j | 0 <= i < j < |ms| :: ms[i].num != ms[j].num
  }

  lemma {:induction false} LeadIsMessage(ts: seq<Thread>, i: nat)
    requires Shaped(ts) && i < |ts|
    ensures Lead(ts[i]) in MessagesOf(ts)
  {
    MessagesCons(ts);
    if i == 0 {
      MessagesOfOne(ts[0]);
    } else {
      LeadIsMessage(ts[1..], i - 1);
    }
  }

  lemma {:induction false} DistinctSplit(ts: seq<Thread>, us: seq<Thread>)
    requires DistinctNums(ts + us)
    ensures DistinctNums(ts) && DistinctNums(us)
    ensures forall a <- MessagesOf(ts), b <- MessagesOf(us) :: a.num != b.num
  {
    MessagesAppend(ts, us);
    var a, b := MessagesOf(ts), MessagesOf(us);
    forall i, j | 0 <= i < j < |b|
      ensures b[i].num != b[j].num
    {
      assert (a + b)[|a| + i].num != (a + b)[|a| + j].num;
    }
    forall i, j | 0 <= i < j < |a|
      ensures a[i].num != a[j].num
    {
      assert (a + b)[i].num != (a + b)[j].num;
    }
    forall i, j | 0 <= i < |a| && 0 <= j < |b|
      ensures a[i].num != b[j].num
    {
      assert (a + b)[i].num != (a + b)[|a| + j].num;
    }
  }

  lemma DistinctKids(ts: seq<Thread>)
    requires ts != [] && DistinctNums(ts)
    ensures DistinctNums(ts[0].kids) && DistinctNums(ts[1..])
  {
    assert ts == [ts[0]] + ts[1..];
    DistinctSplit([ts[0]], ts[1..]);
    MessagesOfOne(ts[0]);
    var top, k := if ts[0].msg.Some? then [ts[0].msg.value] else [], MessagesOf(ts[0].kids);
    forall i, j | 0 <= i < j < |k|
      ensures k[i].num != k[j].num
    {
      assert (top + k)[|top| + i].num != (top + k)[|top| + j].num;
    }
  }

  /** Distinct messages lead the threads. */
  lemma DistinctIsNumbered(ts: seq<Thread>)
    requires Shaped(ts) && DistinctNums(ts)
    ensures Numbered(ts)
  {
    forall t <- ts, u <- ts | Lead(t).num == Lead(u).num
      ensures t == u
    {
      var x :| 0 <= x < |ts| && ts[x] == t;
      var y :| 0 <= y < |ts| && ts[y] == u;
      if x < y {
        LeadsDiffer(ts, x, y);
      } else if y < x {
        LeadsDiffer(ts, y, x);
      }
    }
  }

  lemma LeadsDiffer(ts: seq<Thread>, x: nat, y: nat)
    requires Shaped(ts) && DistinctNums(ts) && x < y < |ts|
    ensures Lead(ts[x]).num != Lead(ts[y]).num
  {
    assert ts == ts[..y] + ts[y..];
    DistinctSplit(ts[..y], ts[y..]);
    LeadIsMessage(ts[..y], x);
    LeadIsMessage(ts[y..], 0);
  }

  /** No list of siblings is longer than the number of messages below it. */
  lemma {:induction false} AtLeastOneMessageEach(ts: seq<Thread>)
    requires Shaped(ts)
    ensures |ts| <= |MessagesOf(ts)|
  {
    if ts != [] {
      AtLeastOneMessageEach(ts[1..]);
      MessagesCons(ts);
      LeadIsMessage([ts[0]], 0);
    }
  }
}
