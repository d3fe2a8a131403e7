/** The order in which the threads are returned, told from the messages alone. */
module ThreadOrder {
  import opened Messages
  import opened Threads
  import opened Threading

  /** `us` are the roots, or all children of one thread. */
  ghost predicate Siblings(us: seq<Thread>, ts: seq<Thread>) {
    us == ts || exists i :: 0 <= i < |ts| && Siblings(us, ts[i].kids)
  }

  /** The message that a thread is placed by: its own, or that of a dummy's first child. */
  ghost predicate PlacedBy(t: Thread, m: Message) {
    t.msg == Some(m) || (t.msg == None && t.kids != [] && t.kids[0].msg == Some(m))
  }

  lemma PlacedByLead(t: Thread, m: Message)
    requires Rooted(t)
    ensures PlacedBy(t, m) <==> m == Lead(t)
  {
  }

  lemma {:induction false} DistinctBelow(ts: seq<Thread>, i: nat)
    requires DistinctNums(ts) && i < |ts|
    ensures DistinctNums(ts[i].kids)
  {
    hide DistinctNums;
    DistinctKids(ts);
    if i > 0 {
      DistinctBelow(ts[1..], i - 1);
    }
  }

  lemma {:induction false} SiblingsFacts(us: seq<Thread>, ts: seq<Thread>)
    requires InOrder(ts) && DistinctNums(ts) && Siblings(us, ts)
    ensures Shaped(us) && Sorted(us) && DistinctNums(us)
    decreases ts
  {
    hide DistinctNums, Shaped, Sorted;
    if us != ts {
      var i :| 0 <= i < |ts| && Siblings(us, ts[i].kids);
      DistinctBelow(ts, i);
      SiblingsFacts(us, ts[i].kids);
    }
  }

  /** The earlier of two siblings has the smaller date, or of two equal dates the
      smaller number. */
  ghost predicate ByDate(us: seq<Thread>) {
    forall i, j, a, b | 0 <= i < j < |us| && PlacedBy(us[i], a) && PlacedBy(us[j], b) ::
      a.date < b.date || (a.date == b.date && a.num < b.num)
  }

  lemma PairByDate(us: seq<Thread>, i: nat, j: nat)
    requires Shaped(us) && Sorted(us) && DistinctNums(us) && i < j < |us|
    ensures var a, b := Lead(us[i]), Lead(us[j]); a.date < b.date || (a.date == b.date && a.num < b.num)
  {
    LeadsDiffer(us, i, j);
    hide Lead, DistinctNums;
  }

  lemma SiblingsByDate(us: seq<Thread>, ts: seq<Thread>)
    requires InOrder(ts) && DistinctNums(ts) && Siblings(us, ts)
    ensures ByDate(us)
  {
    hide InOrder, DistinctNums, Siblings, PlacedBy, Sorted, Shaped;
    SiblingsFacts(us, ts);
    SiblingPairs(us);
  }

  lemma SiblingPairs(us: seq<Thread>)
    requires Shaped(us) && Sorted(us) && DistinctNums(us)
    ensures ByDate(us)
  {
    hide DistinctNums, PlacedBy, Lead, Rooted, Sorted;
    forall i, j, a, b | 0 <= i < j < |us| && PlacedBy(us[i], a) && PlacedBy(us[j], b)
      ensures a.date < b.date || (a.date == b.date && a.num < b.num)
    {
      PlacedByLead(us[i], a);
      PlacedByLead(us[j], b);
      PairByDate(us, i, j);
    }
  }

  /** At every level of the threads that are returned, siblings stand by date, and by
      number where dates are equal. */
  lemma ThreadedByDate(sc: seq<Message>, us: seq<Thread>, i: nat, j: nat, a: Message, b: Message)
    requires Distinguished(sc) && Siblings(us, Threaded(sc))
    requires i < j < |us| && PlacedBy(us[i], a) && PlacedBy(us[j], b)
    ensures a.date < b.date || (a.date == b.date && a.num < b.num)
  {
    AllByDate(sc);
  }

  lemma AllByDate(sc: seq<Message>)
    requires Distinguished(sc)
    ensures forall us | Siblings(us, Threaded(sc)) :: ByDate(us)
  {
    hide Threaded, Siblings, ByDate;
    ThreadedComplete(sc);
    CompleteFacts(Threaded(sc), sc);
    forall us | Siblings(us, Threaded(sc))
      ensures ByDate(us)
    {
      SiblingsByDate(us, Threaded(sc));
    }
  }
}
