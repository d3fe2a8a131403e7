/** Messages without references: the threads that their subjects make, told from the
    messages alone. */
module SubjectThreads {
  import opened Messages
  import opened Roses
  import opened Threads
  import opened Merging
  import opened Containers
  import opened Linkages
  import opened Linking
  import opened Citing
  import opened Pruning
  import opened Growing
  import opened ThreadNodes
  import opened Threading
  import opened ThreadOrder
  import opened Ancestors

  ghost predicate Alone(sc: seq<Message>) {
    forall m <- sc :: m.references == []
  }

  // ---- Step 1 ----

  /** Without references every container is that of a message and has no parent. */
  lemma {:induction false} EnrolledAlone(sc: seq<Message>)
    ensures forall c <- Enrolled(sc).fam.parent :: Enrolled(sc).fam.parent[c] == NIL
  {
    hide Family.Ok, Linkage.Ok;
    if sc != [] {
      EnrolledAlone(sc[..|sc| - 1]);
    }
  }

  lemma {:induction false} SteppedAlone(sc: seq<Message>, n: nat)
    requires Alone(sc) && n <= |sc|
    ensures Stepped(sc, n) == Enrolled(sc)
  {
    hide Family.Matched, Family.Ranked, Enrolled, Names, Stepped, Linkage.Linking;
    if n == 0 {
      SteppedNone(sc);
    } else {
      SteppedAlone(sc, n - 1);
      SteppedMore(sc, n - 1);
      EnrolledAlone(sc);
      assert sc[n - 1] in sc;
      LinkAlone(Enrolled(sc), Names(sc)[n - 1]);
    }
  }

  lemma NoneAbove(sc: seq<Message>, p: (Message, Message))
    requires Alone(sc)
    ensures StepOne(sc).count == |sc| && !LinkedAbove(StepOne(sc).fam, sc, p)
  {
    SteppedAlone(sc, |sc|);
    EnrolledAlone(sc);
    hide Enrolled, Family.Matched, Family.Ranked;
  }

  // ---- Steps 2 and 3 ----

  /** Then every thread is one message. */
  lemma PrunedAlone(sc: seq<Message>, t: Thread)
    requires Alone(sc) && t in PrunedThreads(sc)
    ensures t.msg.Some? && t.kids == []
  {
    hide StepOne, Trees, Prune, Show, Above, LinkedAbove, PrunedThreads, Plain;
    PrunedPlain(sc);
    var ts := PrunedThreads(sc);
    var i :| 0 <= i < |ts| && ts[i] == t;
    PlainMember(ts, i);
    if t.kids != [] {
      PlainMember(t.kids, 0);
      var p := (t.msg.value, t.kids[0].msg.value);
      FirstBelow(t);
      AboveMember(ts, p);
      NoneAbove(sc, p);
      AboveLinked(sc, p);
    }
  }

  lemma FirstBelow(t: Thread)
    requires t.msg.Some? && t.kids != [] && t.kids[0].msg.Some?
    ensures (t.msg.value, t.kids[0].msg.value) in AboveIn(t)
  {
    assert t.kids[0].msg.value in MessagesOf(t.kids);
  }

  lemma AboveLinked(sc: seq<Message>, p: (Message, Message))
    ensures p in Above(PrunedThreads(sc)) <==> LinkedAbove(StepOne(sc).fam, sc, p)
  {
    hide Show, Prune, Above, Family.Matched, Family.Ranked, LinkedAbove, Grown, Dummies, StepOne, Roots, Trees;
    var cache, fam, roots := Contents(sc), StepOne(sc).fam, TopLevel(sc);
    TreesGrown(fam, MessagesIn(cache), roots);
    PrunedAbove(sc, cache, fam, Trees(fam, roots, 0), p);
  }

  lemma PrunedPlain(sc: seq<Message>)
    requires Alone(sc)
    ensures Plain(PrunedThreads(sc))
  {
    hide Show, Prune, Family.Matched, Family.Ranked, StepOne, Roots, Trees, Plain;
    var cache, fam, roots := Contents(sc), StepOne(sc).fam, TopLevel(sc);
    TreesGrown(fam, MessagesIn(cache), roots);
    var f := Trees(fam, roots, 0);
    AllClean(sc, f);
    PruneOfClean(MessagesIn(cache), f, true);
    CleanIsPlain(cache, f);
  }

  lemma AllClean(sc: seq<Message>, f: seq<Rose>)
    requires Alone(sc) && Grown(StepOne(sc).fam, MessagesIn(Contents(sc)), f)
    ensures Clean(MessagesIn(Contents(sc)), f)
  {
    hide Family.Matched, Family.Ranked, StepOne, LinkedAbove, Pre;
    forall c <- Pre(f)
      ensures c in MessagesIn(Contents(sc))
    {
      SteppedCount(sc);
      assert c in StepOne(sc).fam.kids;
    }
  }

  lemma SteppedCount(sc: seq<Message>)
    requires Alone(sc)
    ensures StepOne(sc).count == |sc|
  {
    SteppedAlone(sc, |sc|);
    hide Enrolled;
  }

  // ---- Steps 4 to 6 ----

  ghost predicate Singles(ts: seq<Thread>) {
    forall t <- ts :: t.msg.Some? && t.kids == []
  }

  lemma {:induction false} SinglesAre(ts: seq<Thread>, m: Message)
    requires Singles(ts)
    ensures m in MessagesOf(ts) <==> exists i :: 0 <= i < |ts| && ts[i].msg == Some(m)
  {
    if ts != [] {
      SinglesAre(ts[1..], m);
      assert ts[0] in ts && MessagesOf(ts[0].kids) == [];
      if m in MessagesOf(ts[1..]) {
        var i :| 0 <= i < |ts[1..]| && ts[1..][i].msg == Some(m);
        assert ts[i + 1].msg == Some(m);
      }
      if i :| 0 <= i < |ts| && ts[i].msg == Some(m) {
        if i > 0 {
          assert ts[1..][i - 1].msg == Some(m);
        }
      }
    }
  }

  /** The threads of messages alone, in order. */
  lemma SortedAlone(sc: seq<Message>, us: seq<Thread>)
    requires Alone(sc) && Distinguished(sc) && us == Sort(PrunedThreads(sc))
    ensures Shaped(us) && Sorted(us) && DistinctNums(us) && Singles(us)
    ensures forall m :: m in sc <==> exists i :: 0 <= i < |us| && us[i].msg == Some(m)
  {
    hide PrunedThreads, Sorted, DistinctNums, Complete, MessagesOf;
    var ts := PrunedThreads(sc);
    PrunedThreadsComplete(sc);
    SortComplete(ts, sc);
    SortFacts(ts);
    CompleteFacts(us, sc);
    forall t <- us
      ensures t.msg.Some? && t.kids == []
    {
      assert t in multiset(us) && t in multiset(ts);
      PrunedAlone(sc, t);
    }
    SameMessages(us, sc);
    forall m
      ensures m in sc <==> exists i :: 0 <= i < |us| && us[i].msg == Some(m)
    {
      SinglesAre(us, m);
    }
  }

  lemma SameMessages(us: seq<Thread>, sc: seq<Message>)
    requires Complete(us, sc)
    ensures forall m :: m in sc <==> m in MessagesOf(us)
  {
    forall m
      ensures m in sc <==> m in MessagesOf(us)
    {
      assert m in sc <==> m in multiset(sc);
      assert m in MessagesOf(us) <==> m in multiset(MessagesOf(us));
    }
  }

  /** The order of two messages: by date, and by number of equal dates. */
  predicate Earlier(a: Message, b: Message) {
    a.date < b.date || (a.date == b.date && a.num < b.num)
  }

  lemma Places(us: seq<Thread>, i: nat, j: nat)
    requires Shaped(us) && Sorted(us) && DistinctNums(us) && Singles(us) && i < |us| && j < |us|
    ensures us[i].msg.Some? && us[j].msg.Some? && (Earlier(us[i].msg.value, us[j].msg.value) <==> i < j)
  {
    assert us[i] in us && us[j] in us;
    hide Sorted, DistinctNums;
    if i < j {
      PairByDate(us, i, j);
    } else if j < i {
      PairByDate(us, j, i);
    }
  }

  /** `a` takes in `b`: an original and a reply of one subject, of all originals that
      have it `a` is the first, and no other comes before `b`. */
  ghost predicate Answers(sc: seq<Message>, a: Message, b: Message) {
    && a in sc && b in sc && a.subject == b.subject && a.subject != "" && !a.refwd && b.refwd
    && forall c <- sc | c.subject == a.subject && !c.refwd && c != a :: Earlier(a, c) && Earlier(b, c)
  }

  lemma TakesAnswers(sc: seq<Message>, us: seq<Thread>, k: nat, x: nat)
    requires Shaped(us) && Sorted(us) && DistinctNums(us) && Singles(us) && k < |us| && x < |us|
    requires forall m :: m in sc <==> exists i :: 0 <= i < |us| && us[i].msg == Some(m)
    ensures us[k] in us && us[x] in us
    ensures TakesIn(us, 0, k, x) <==> Answers(sc, us[k].msg.value, us[x].msg.value)
  {
    hide Sorted, DistinctNums, Earlier;
    assert us[k] in us && us[x] in us;
    var a, b := us[k].msg.value, us[x].msg.value;
    if TakesIn(us, 0, k, x) {
      forall c <- sc | c.subject == a.subject && !c.refwd && c != a
        ensures Earlier(a, c) && Earlier(b, c)
      {
        var y :| 0 <= y < |us| && us[y].msg == Some(c);
        Places(us, k, y);
        Places(us, x, y);
      }
    }
    if Answers(sc, a, b) {
      forall y | 0 <= y < |us| && Subject(us[y]) == a.subject && us[y].msg.value != a && !us[y].msg.value.refwd
        ensures k < y && x < y
      {
        assert us[y] in us;
        Places(us, k, y);
        Places(us, x, y);
      }
      AnswersTake(us, k, x);
    }
  }

  lemma AnswersTake(us: seq<Thread>, k: nat, x: nat)
    requires Shaped(us) && Sorted(us) && DistinctNums(us) && Singles(us) && k < |us| && x < |us|
    requires us[k] in us && us[x] in us
    requires var a, b := us[k].msg.value, us[x].msg.value;
      a.subject == b.subject && a.subject != "" && !a.refwd && b.refwd
    requires forall y | 0 <= y < |us| && Subject(us[y]) == us[k].msg.value.subject && us[y].msg.Some? &&
        us[y].msg.value != us[k].msg.value && !us[y].msg.value.refwd :: k < y && x < y
    ensures TakesIn(us, 0, k, x)
  {
    hide Sorted, DistinctNums;
    forall y | 0 <= y < |us| && Subject(us[y]) == us[k].msg.value.subject
      ensures us[y].msg.Some? && (Class(us[y]) == 1 || Class(us[y]) == 2)
      ensures Class(us[y]) == 1 ==> y == k || (k < y && x < y)
    {
      assert us[y] in us;
      if y != k {
        Distinct2(us, k, y);
      }
    }
  }

  lemma Distinct2(us: seq<Thread>, k: nat, y: nat)
    requires Shaped(us) && DistinctNums(us) && k < |us| && y < |us| && k != y
    ensures Lead(us[k]).num != Lead(us[y]).num
  {
    if k < y {
      LeadsDiffer(us, k, y);
    } else {
      LeadsDiffer(us, y, k);
    }
  }

  /** Without references a message ends above another exactly if it is an original, the
      first of its subject, the other is a reply of that subject, and no other original
      of it is earlier than the reply. */
  lemma SubjectAncestors(sc: seq<Message>, a: Message, b: Message)
    requires Distinguished(sc) && forall m <- sc :: m.references == []
    ensures (a, b) in Above(Threaded(sc)) <==>
      && a in sc && b in sc && a.subject == b.subject && a.subject != "" && !a.refwd && b.refwd
      && forall c <- sc | c.subject == a.subject && !c.refwd && c != a ::
           && (a.date < c.date || (a.date == c.date && a.num < c.num))
           && (b.date < c.date || (b.date == c.date && b.num < c.num))
  {
    hide Threaded, Above, LinkedAbove, StepOne, Sort, PrunedThreads;
    ThreadAncestors(sc, (a, b));
    NoneAbove(sc, (a, b));
    var us := Sort(PrunedThreads(sc));
    SortedAlone(sc, us);
    GainsAnswers(sc, us, a, b);
  }

  lemma GainsAnswers(sc: seq<Message>, us: seq<Thread>, a: Message, b: Message)
    requires Shaped(us) && Sorted(us) && DistinctNums(us) && Singles(us)
    requires forall m :: m in sc <==> exists i :: 0 <= i < |us| && us[i].msg == Some(m)
    ensures Gains(us, 0, (a, b)) <==> Answers(sc, a, b)
  {
    hide Sorted, DistinctNums, TakesIn, Answers;
    if Gains(us, 0, (a, b)) {
      var k, x := Gaining(us, a, b);
      OneMessage(us, x);
      TakesAnswers(sc, us, k, x);
    }
    if Answers(sc, a, b) {
      AnswersHold(sc, a, b);
      var k :| 0 <= k < |us| && us[k].msg == Some(a);
      var x :| 0 <= x < |us| && us[x].msg == Some(b);
      OneMessage(us, x);
      TakesAnswers(sc, us, k, x);
    }
  }

  lemma Gaining(us: seq<Thread>, a: Message, b: Message) returns (k: nat, x: nat)
    requires Shaped(us) && Gains(us, 0, (a, b))
    ensures k < |us| && x < |us| && TakesIn(us, 0, k, x) && us[k].msg == Some(a) && b in MessagesOf([us[x]])
  {
    k, x :| TakesIn(us, 0, k, x) && us[k].msg == Some(a) && b in MessagesOf([us[x]]);
  }

  lemma AnswersHold(sc: seq<Message>, a: Message, b: Message)
    requires Answers(sc, a, b)
    ensures a in sc && b in sc
  {
  }

  lemma OneMessage(us: seq<Thread>, x: nat)
    requires Singles(us) && x < |us|
    ensures us[x].msg.Some? && MessagesOf([us[x]]) == [us[x].msg.value]
  {
    assert us[x] in us;
    MessagesOfOne(us[x]);
  }
}
