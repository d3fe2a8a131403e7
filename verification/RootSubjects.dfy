/** The subjects of the threads that are returned.  Sorting the children of a dummy
    can give it another subject, so one subject may lead two roots in the end. */
module RootSubjects {
  import opened Sequences
  import opened Messages
  import opened Threads
  import opened Merging
  import opened Threading

  /** The message that comes first in the order of the threads. */
  ghost function Earliest(ts: seq<Thread>): Message
    requires ts != [] && Plain(ts)
  {
    var own := ts[0].msg.value;
    if |ts| == 1 || Before(own, Earliest(ts[1..])) then own else Earliest(ts[1..])
  }

  /** The subject of a message, or that of a dummy's earliest child. */
  ghost function EarliestSubject(t: Thread): string
    requires Rooted(t)
  {
    if t.msg.Some? then t.msg.value.subject else Earliest(t.kids).subject
  }

  /** No two roots share a subject, unless it is empty. */
  ghost predicate SubjectsDiffer(ts: seq<Thread>)
    requires Shaped(ts)
  {
    forall i, j | 0 <= i < j < |ts| && Subject(ts[i]) == Subject(ts[j]) :: Subject(ts[i]) == ""
  }

  /** No two roots would if the children of dummies were sorted. */
  ghost predicate EarliestDiffer(ts: seq<Thread>)
    requires Shaped(ts)
  {
    forall i, j | 0 <= i < j < |ts| && EarliestSubject(ts[i]) == EarliestSubject(ts[j]) :: EarliestSubject(ts[i]) == ""
  }

  // ---- Who leads after sorting ----

  lemma InsertLead(t: Thread, ts: seq<Thread>)
    requires Rooted(t) && Shaped(ts)
    ensures var r := Insert(t, ts);
      r != [] && Lead(r[0]) == if ts == [] || Before(Lead(t), Lead(ts[0])) then Lead(t) else Lead(ts[0])
  {
  }

  /** The earliest thread comes first. */
  lemma {:induction false} SortedLead(ts: seq<Thread>)
    requires Shaped(ts) && Plain(ts) && ts != []
    ensures SortAll(ts) != [] && Lead(SortAll(ts)[0]) == Earliest(ts)
  {
    var each := SortEach(ts);
    assert each[0].msg == ts[0].msg && each[1..] == SortEach(ts[1..]);
    if |ts| > 1 {
      SortedLead(ts[1..]);
      assert SortAll(ts[1..]) == Sort(each[1..]);
    } else {
      assert Sort(each[1..]) == [];
    }
    InsertLead(each[0], Sort(each[1..]));
  }

  /** The subject of a root once its children are in order. */
  lemma SortedSubject(t: Thread)
    requires Rooted(t)
    ensures Shaped(t.kids) && Rooted(Thread(t.msg, SortAll(t.kids)))
    ensures Subject(Thread(t.msg, SortAll(t.kids))) == EarliestSubject(t)
  {
    PlainIsShaped(t.kids);
    if t.msg == None {
      SortedLead(t.kids);
    }
  }

  /** How often each subject leads a root. */
  ghost function Subjects(ts: seq<Thread>): multiset<string>
    requires Shaped(ts)
  {
    if ts == [] then multiset{} else multiset{Subject(ts[0])} + Subjects(ts[1..])
  }

  lemma {:induction false} InsertSubjects(t: Thread, ts: seq<Thread>)
    requires Rooted(t) && Shaped(ts)
    ensures Subjects(Insert(t, ts)) == multiset{Subject(t)} + Subjects(ts)
  {
    hide Rooted;
    if ts == [] || Before(Lead(t), Lead(ts[0])) {
      assert ([t] + ts)[1..] == ts;
    } else {
      InsertSubjects(t, ts[1..]);
      assert ([ts[0]] + Insert(t, ts[1..]))[1..] == Insert(t, ts[1..]);
    }
  }

  lemma {:induction false} SortSubjects(ts: seq<Thread>)
    requires Shaped(ts)
    ensures Subjects(Sort(ts)) == Subjects(ts)
  {
    if ts != [] {
      SortSubjects(ts[1..]);
      InsertSubjects(ts[0], Sort(ts[1..]));
    }
  }

  lemma {:induction false} SubjectCount(ts: seq<Thread>, s: string)
    requires Shaped(ts)
    ensures Subjects(ts)[s] > 0 <==> exists i :: 0 <= i < |ts| && Subject(ts[i]) == s
  {
    if ts != [] {
      SubjectCount(ts[1..], s);
      if Subjects(ts[1..])[s] > 0 {
        var i :| 0 <= i < |ts| - 1 && Subject(ts[1..][i]) == s;
        assert Subject(ts[i + 1]) == s;
      }
      forall i | 0 <= i < |ts| && Subject(ts[i]) == s
        ensures Subjects(ts)[s] > 0
      {
        assert i > 0 ==> ts[1..][i - 1] == ts[i];
      }
    }
  }

  lemma {:induction false} DifferCount(ts: seq<Thread>)
    requires Shaped(ts)
    ensures SubjectsDiffer(ts) <==> forall s | s != "" :: Subjects(ts)[s] <= 1
  {
    if ts != [] {
      var rest := ts[1..];
      DifferCount(rest);
      DifferFirst(ts);
      SubjectCount(rest, Subject(ts[0]));
      assert forall s :: Subjects(ts)[s] == Subjects(rest)[s] + if s == Subject(ts[0]) then 1 else 0;
    }
  }

  lemma DifferFirst(ts: seq<Thread>)
    requires Shaped(ts) && ts != []
    ensures var rest := ts[1..];
      SubjectsDiffer(ts) <==> (
        && SubjectsDiffer(rest)
        && (Subject(ts[0]) == "" || forall i | 0 <= i < |rest| :: Subject(rest[i]) != Subject(ts[0])))
  {
    var rest := ts[1..];
    if SubjectsDiffer(ts) {
      forall i | 0 <= i < |rest|
        ensures Subject(rest[i]) == Subject(ts[0]) ==> Subject(ts[0]) == ""
      {
        assert rest[i] == ts[i + 1];
      }
      forall i, j | 0 <= i < j < |rest| && Subject(rest[i]) == Subject(rest[j])
        ensures Subject(rest[i]) == ""
      {
        assert rest[i] == ts[i + 1] && rest[j] == ts[j + 1];
      }
    }
    var s := Subject(ts[0]);
    if SubjectsDiffer(rest) && (s == "" || forall i | 0 <= i < |rest| :: Subject(rest[i]) != s) {
      forall i, j | 0 <= i < j < |ts| && Subject(ts[i]) == Subject(ts[j])
        ensures Subject(ts[i]) == ""
      {
        assert rest[j - 1] == ts[j] && (i > 0 ==> rest[i - 1] == ts[i]);
      }
    }
  }

  lemma {:induction false} EachSubject(ts: seq<Thread>, i: nat)
    requires Shaped(ts) && i < |ts|
    ensures Subject(SortEach(ts)[i]) == EarliestSubject(ts[i])
  {
    if i == 0 {
      SortedSubject(ts[0]);
    } else {
      EachSubject(ts[1..], i - 1);
    }
  }

  /** Sorting every level leaves one root per subject exactly if the earliest
      children of the roots differ in subject. */
  lemma SortAllDiffer(ts: seq<Thread>)
    requires Shaped(ts)
    ensures SubjectsDiffer(SortAll(ts)) <==> EarliestDiffer(ts)
  {
    var each := SortEach(ts);
    SortSubjects(each);
    DifferCount(each);
    DifferCount(Sort(each));
    forall i | 0 <= i < |ts|
      ensures Subject(each[i]) == EarliestSubject(ts[i])
    {
      EachSubject(ts, i);
    }
    hide Subject, EarliestSubject, Sort, SortEach, Subjects;
  }

  /** The threads that are returned have one root per subject exactly if the subjects
      of the earliest children of the merged roots differ. */
  lemma FinishedOneRoot(ts: seq<Thread>)
    requires Shaped(ts)
    ensures SubjectsDiffer(Finished(ts)) <==> EarliestDiffer(Merge(Sort(ts), 0))
  {
    SortAllDiffer(Merge(Sort(ts), 0));
  }

  // ---- When the first child of every dummy has the subject of its earliest ----

  ghost predicate FirstIsEarliest(ts: seq<Thread>)
    requires Shaped(ts)
  {
    forall i | 0 <= i < |ts| :: EarliestSubject(ts[i]) == Subject(ts[i])
  }

  lemma {:induction false} EarliestAppend(ts: seq<Thread>, us: seq<Thread>)
    requires ts != [] && us != [] && Plain(ts) && Plain(us)
    ensures Plain(ts + us)
    ensures Earliest(ts + us) == if Before(Earliest(ts), Earliest(us)) then Earliest(ts) else Earliest(us)
  {
    PlainAppend(ts, us);
    if |ts| == 1 {
      assert (ts + us)[1..] == us;
    } else {
      assert (ts + us)[1..] == ts[1..] + us;
      EarliestAppend(ts[1..], us);
    }
  }

  lemma AdoptEarliest(t: Thread, more: seq<Thread>)
    requires Rooted(t) && Plain(more) && EarliestSubject(t) == Subject(t)
    requires more != [] && Earliest(more).subject == Subject(t)
    ensures Rooted(Adopt(t, more)) && EarliestSubject(Adopt(t, more)) == Subject(Adopt(t, more)) == Subject(t)
  {
    AdoptRooted(t, more);
    if t.msg == None {
      EarliestAppend(t.kids, more);
    }
  }

  lemma StepEarliest(ts: seq<Thread>, i: nat)
    requires Shaped(ts) && i < |ts| && FirstIsEarliest(ts)
    ensures FirstIsEarliest(Step(ts, i).0)
  {
    var s, j := Subject(ts[i]), StandingFor(ts, i);
    if s != "" && j != i {
      hide Subject, EarliestSubject, Plain;
      AbsorbShaped(ts, i, j);
      AbsorbEarliest(ts, i, j);
    }
  }

  lemma AbsorbEarliest(ts: seq<Thread>, i: nat, j: nat)
    requires Shaped(ts) && i < |ts| && j < |ts| && i != j && Stands(ts, Subject(ts[i]), j) && FirstIsEarliest(ts)
    ensures Shaped(Absorb(ts, i, j)) && FirstIsEarliest(Absorb(ts, i, j))
  {
    AbsorbShaped(ts, i, j);
    var cur, lst := ts[i], ts[j];
    if lst.msg == None || (cur.msg.Some? && cur.msg.value.refwd && !lst.msg.value.refwd) {
      var more := if cur.msg == None then cur.kids else [cur];
      if cur.msg.Some? {
        OnePlain(cur);
      }
      AdoptEarliest(lst, more);
      ReplaceEarliest(ts, j, Adopt(lst, more), i);
    } else {
      NewDummy(ts, i, j);
      PairRooted(lst, cur);
      assert [lst, cur][1..] == [cur] && Earliest([cur]) == cur.msg.value;
      assert Earliest([lst, cur]) == lst.msg.value || Earliest([lst, cur]) == cur.msg.value;
      ReplaceEarliest(ts, i, Thread(None, [lst, cur]), j);
    }
  }

  lemma ReplaceEarliest(ts: seq<Thread>, j: nat, t: Thread, i: nat)
    requires Shaped(ts) && i < |ts| && j < |ts| && FirstIsEarliest(ts)
    requires Rooted(t) && EarliestSubject(t) == Subject(t)
    ensures Shaped(Remove(ts[j := t], i)) && FirstIsEarliest(Remove(ts[j := t], i))
  {
    hide Subject, EarliestSubject, Rooted;
  }

  lemma {:induction false} MergeEarliest(ts: seq<Thread>, i: nat)
    requires Shaped(ts) && i <= |ts| && FirstIsEarliest(ts)
    ensures FirstIsEarliest(Merge(ts, i))
    decreases |ts| - i
  {
    if i < |ts| {
      hide Step, FirstIsEarliest;
      StepEarliest(ts, i);
      MergeEarliest(Step(ts, i).0, Step(ts, i).1);
    }
  }

  lemma SortEarliest(ts: seq<Thread>)
    requires Shaped(ts) && FirstIsEarliest(ts)
    ensures FirstIsEarliest(Sort(ts))
  {
    hide EarliestSubject, Subject, Rooted, Sort;
    SortFacts(ts);
    forall i | 0 <= i < |Sort(ts)|
      ensures EarliestSubject(Sort(ts)[i]) == Subject(Sort(ts)[i])
    {
      assert Sort(ts)[i] in multiset(Sort(ts));
      assert Sort(ts)[i] in ts;
    }
  }

  /** If every dummy that pruning leaves starts with a child of the subject of its
      earliest, as it does if its children are in order, then no two roots of the
      threads that are returned share a subject, unless it is empty. */
  lemma InOrderOneRoot(ts: seq<Thread>)
    requires Shaped(ts) && FirstIsEarliest(ts)
    ensures SubjectsDiffer(Finished(ts))
  {
    hide EarliestSubject, Subject, Rooted, Sort, Merge;
    SortEarliest(ts);
    MergeEarliest(Sort(ts), 0);
    var us := Merge(Sort(ts), 0);
    forall i, j | 0 <= i < j < |us| && EarliestSubject(us[i]) == EarliestSubject(us[j])
      ensures EarliestSubject(us[i]) == ""
    {
      if Subject(us[i]) != "" {
        OneRootPerSubject(Sort(ts), i, j);
      }
    }
    FinishedOneRoot(ts);
  }

  // ---- Exactly when, told from the roots before steps 4 to 6 ----

  ghost function EarliestOf(t: Thread): Message
    requires Rooted(t)
  {
    if t.msg.Some? then t.msg.value else Earliest(t.kids)
  }

  /** The earliest messages of the roots have different numbers. */
  ghost predicate Apart(ts: seq<Thread>)
    requires Shaped(ts)
  {
    forall i, j | 0 <= i < j < |ts| :: EarliestOf(ts[i]).num != EarliestOf(ts[j]).num
  }

  /** Among the roots of its subject this one has the earliest message, or it has no
      subject. */
  ghost predicate Leader(ts: seq<Thread>, d: Thread)
    requires Shaped(ts)
  {
    && d in ts
    && (Subject(d) == "" || forall u <- ts | Subject(u) == Subject(d) :: Before(EarliestOf(d), EarliestOf(u)))
  }

  ghost predicate LeadersDiffer(ts: seq<Thread>)
    requires Shaped(ts)
  {
    forall d, e | Leader(ts, d) && Leader(ts, e) && EarliestSubject(d) == EarliestSubject(e) != "" :: d == e
  }

  lemma ApartMembers(ts: seq<Thread>)
    requires Shaped(ts) && Apart(ts)
    ensures forall t <- ts, u <- ts | EarliestOf(t).num == EarliestOf(u).num :: t == u
  {
    forall t <- ts, u <- ts | EarliestOf(t).num == EarliestOf(u).num
      ensures t == u
    {
      var i, j :| 0 <= i < |ts| && 0 <= j < |ts| && t == ts[i] && u == ts[j];
      assert i == j;
    }
  }

  /** Every subject has a leader. */
  lemma LeaderExists(ts: seq<Thread>, t: Thread) returns (d: Thread)
    requires Shaped(ts) && t in ts
    ensures Leader(ts, d) && Subject(d) == Subject(t)
  {
    d := t;
    if Subject(t) != "" && !Leader(ts, t) {
      d := LeaderOf(ts, |ts|, t);
    }
  }

  lemma {:induction false} LeaderOf(ts: seq<Thread>, n: nat, t: Thread) returns (d: Thread)
    requires Shaped(ts) && n <= |ts| && t in ts
    ensures d in ts && Subject(d) == Subject(t) && Before(EarliestOf(d), EarliestOf(t))
    ensures forall i | 0 <= i < n && Subject(ts[i]) == Subject(t) :: Before(EarliestOf(d), EarliestOf(ts[i]))
  {
    if n == 0 {
      d := t;
    } else {
      d := LeaderOf(ts, n - 1, t);
      if Subject(ts[n - 1]) == Subject(t) && !Before(EarliestOf(d), EarliestOf(ts[n - 1])) {
        d := ts[n - 1];
      }
    }
  }

  lemma LeaderIsOne(ts: seq<Thread>, d: Thread, e: Thread)
    requires Shaped(ts) && Apart(ts) && Leader(ts, d) && Leader(ts, e) && Subject(d) == Subject(e) != ""
    ensures d == e
  {
    ApartMembers(ts);
  }

  /** `us` has the leaders of `ts`, or others with the same two subjects. */
  ghost predicate Follow(ts: seq<Thread>, us: seq<Thread>)
    requires Shaped(ts) && Shaped(us)
  {
    forall d | Leader(us, d) :: exists e :: Leader(ts, e) && Same(d, e)
  }

  ghost predicate Same(d: Thread, e: Thread)
    requires Rooted(d) && Rooted(e)
  {
    Subject(d) == Subject(e) && EarliestSubject(d) == EarliestSubject(e) && (Subject(d) == "" ==> d == e)
  }

  lemma FollowDiffer(ts: seq<Thread>, us: seq<Thread>)
    requires Shaped(ts) && Shaped(us) && Apart(us) && Follow(ts, us) && LeadersDiffer(ts)
    ensures LeadersDiffer(us)
  {
    hide Subject, EarliestSubject, Apart;
    forall d, e | Leader(us, d) && Leader(us, e) && EarliestSubject(d) == EarliestSubject(e) != ""
      ensures d == e
    {
      var x :| Leader(ts, x) && Same(d, x);
      var y :| Leader(ts, y) && Same(e, y);
      assert x == y;
      if Subject(x) != "" {
        LeaderIsOne(us, d, e);
      }
    }
  }

  /** The roots `a` and `b` of one subject give way to `t`. */
  ghost predicate Joined(ts: seq<Thread>, us: seq<Thread>, a: Thread, b: Thread, t: Thread)
    requires Shaped(ts) && Shaped(us)
  {
    && a in ts && b in ts && Rooted(t) && Subject(a) == Subject(b) == Subject(t) != ""
    && (forall x :: x in us <==> x == t || (x in ts && x != a && x != b))
    && (EarliestOf(t) == EarliestOf(a) || EarliestOf(t) == EarliestOf(b))
  }

  /** The joined root has the earlier of the two messages, or all roots of the subject
      are messages. */
  ghost predicate Fair(ts: seq<Thread>, a: Thread, b: Thread, t: Thread)
    requires Shaped(ts) && Rooted(a) && Rooted(b) && Rooted(t)
  {
    || (Before(EarliestOf(t), EarliestOf(a)) && Before(EarliestOf(t), EarliestOf(b)))
    || (forall u <- ts | Subject(u) == Subject(a) :: u.msg.Some?)
  }

  lemma OwnEarliest(t: Thread)
    requires Rooted(t)
    ensures EarliestSubject(t) == EarliestOf(t).subject
    ensures t.msg.Some? ==> EarliestSubject(t) == Subject(t)
  {
  }

  lemma JoinedFollows(ts: seq<Thread>, us: seq<Thread>, a: Thread, b: Thread, t: Thread)
    requires Shaped(ts) && Shaped(us) && Apart(ts) && Joined(ts, us, a, b, t) && Fair(ts, a, b, t)
    ensures Follow(ts, us) && Follow(us, ts)
  {
    ApartMembers(ts);
    hide Apart, Rooted, Subject, EarliestOf, EarliestSubject;
    OwnEarliest(a);
    OwnEarliest(b);
    OwnEarliest(t);
    forall d | Leader(us, d)
      ensures exists e :: Leader(ts, e) && Same(d, e)
    {
      if Subject(d) != Subject(t) {
        assert Leader(ts, d) && Same(d, d);
      } else {
        var e := LeaderExists(ts, a);
        LeadersAgree(ts, us, a, b, t, e, d);
        assert Same(d, e);
      }
    }
    forall d | Leader(ts, d)
      ensures exists e :: Leader(us, e) && Same(d, e)
    {
      if Subject(d) != Subject(t) {
        assert Leader(us, d) && Same(d, d);
      } else {
        var e := LeaderExists(us, t);
        LeadersAgree(ts, us, a, b, t, d, e);
        assert Same(d, e);
      }
    }
  }

  lemma LeadersAgree(ts: seq<Thread>, us: seq<Thread>, a: Thread, b: Thread, t: Thread, d: Thread, e: Thread)
    requires Shaped(ts) && Shaped(us) && Apart(ts) && Joined(ts, us, a, b, t) && Fair(ts, a, b, t)
    requires Leader(ts, d) && Leader(us, e) && Subject(d) == Subject(e) == Subject(t)
    ensures EarliestSubject(d) == EarliestSubject(e)
  {
    ApartMembers(ts);
    hide Apart, Rooted, Subject, EarliestOf, EarliestSubject;
    OwnEarliest(a);
    OwnEarliest(b);
    OwnEarliest(t);
    OwnEarliest(d);
    OwnEarliest(e);
  }

  lemma FollowTrans(ts: seq<Thread>, us: seq<Thread>, vs: seq<Thread>)
    requires Shaped(ts) && Shaped(us) && Shaped(vs) && Follow(ts, us) && Follow(us, vs)
    ensures Follow(ts, vs)
  {
    hide Subject, EarliestSubject, EarliestOf, Rooted;
    forall d | Leader(vs, d)
      ensures exists e :: Leader(ts, e) && Same(d, e)
    {
      var x :| Leader(us, x) && Same(d, x);
      var y :| Leader(ts, y) && Same(x, y);
      assert Same(d, y);
    }
  }

  lemma FollowSelf(ts: seq<Thread>, us: seq<Thread>)
    requires Shaped(ts) && Shaped(us) && forall t :: t in ts <==> t in us
    ensures Follow(ts, us) && Follow(us, ts)
  {
    hide Subject, EarliestSubject, EarliestOf, Rooted;
    forall d | Leader(us, d)
      ensures exists e :: Leader(ts, e) && Same(d, e)
    {
      assert Leader(ts, d) && Same(d, d);
    }
    forall d | Leader(ts, d)
      ensures exists e :: Leader(us, e) && Same(d, e)
    {
      assert Leader(us, d) && Same(d, d);
    }
  }

  /** Root `k` gives way to `t`, and root `h` goes. */
  lemma JoinRoots(ts: seq<Thread>, k: nat, h: nat, t: Thread)
    requires Shaped(ts) && Apart(ts) && k < |ts| && h < |ts| && k != h
    requires Rooted(t) && Subject(ts[k]) == Subject(ts[h]) == Subject(t) != ""
    requires EarliestOf(t) == EarliestOf(ts[k]) || EarliestOf(t) == EarliestOf(ts[h])
    requires Fair(ts, ts[k], ts[h], t)
    ensures var us := Remove(ts[k := t], h);
      Shaped(us) && Apart(us) && Follow(ts, us) && Follow(us, ts)
  {
    hide Subject, EarliestSubject, EarliestOf, Rooted, Fair;
    var us := Remove(ts[k := t], h);
    JoinedApart(ts, k, h, t);
    forall x
      ensures x in us <==> x == t || (x in ts && x != ts[k] && x != ts[h])
    {
      JoinedMember(ts, k, h, t, x);
    }
    JoinedFollows(ts, us, ts[k], ts[h], t);
  }

  lemma JoinedApart(ts: seq<Thread>, k: nat, h: nat, t: Thread)
    requires Shaped(ts) && Apart(ts) && k < |ts| && h < |ts| && k != h && Rooted(t)
    requires EarliestOf(t) == EarliestOf(ts[k]) || EarliestOf(t) == EarliestOf(ts[h])
    ensures Shaped(Remove(ts[k := t], h)) && Apart(Remove(ts[k := t], h))
  {
    hide EarliestOf, Rooted;
  }

  lemma JoinedMember(ts: seq<Thread>, k: nat, h: nat, t: Thread, x: Thread)
    requires Shaped(ts) && Apart(ts) && k < |ts| && h < |ts| && k != h
    ensures x in Remove(ts[k := t], h) <==> x == t || (x in ts && x != ts[k] && x != ts[h])
  {
    hide EarliestOf, Rooted, Apart, Remove;
    var us := Remove(ts[k := t], h);
    if x in us {
      var i :| 0 <= i < |us| && us[i] == x;
      var n := Origin(h, i);
      RemovedAt(ts[k := t], h, i);
      if n != k {
        OtherRoot(ts, n, k);
        OtherRoot(ts, n, h);
      }
    }
    if x == t {
      RemovedTo(ts[k := t], h, k);
    }
    if x in ts && x != ts[k] && x != ts[h] {
      var n :| 0 <= n < |ts| && ts[n] == x;
      RemovedTo(ts[k := t], h, n);
    }
  }

  lemma OtherRoot(ts: seq<Thread>, n: nat, k: nat)
    requires Shaped(ts) && Apart(ts) && n < |ts| && k < |ts| && n != k
    ensures ts[n] != ts[k]
  {
    hide EarliestOf, Rooted;
    if n < k {
      assert EarliestOf(ts[n]).num != EarliestOf(ts[k]).num;
    } else {
      assert EarliestOf(ts[k]).num != EarliestOf(ts[n]).num;
    }
  }

  lemma StepFollows(ts: seq<Thread>, i: nat)
    requires Shaped(ts) && i < |ts| && Apart(ts)
    ensures var us := Step(ts, i).0; Apart(us) && Follow(ts, us) && Follow(us, ts)
  {
    var s, j := Subject(ts[i]), StandingFor(ts, i);
    if s == "" || j == i {
      FollowSelf(ts, ts);
    } else {
      hide Apart, Follow, Subject;
      AbsorbFollows(ts, i, j);
    }
  }

  lemma AbsorbFollows(ts: seq<Thread>, i: nat, j: nat)
    requires Shaped(ts) && i < |ts| && j < |ts| && i != j && Stands(ts, Subject(ts[i]), j) && Apart(ts)
    requires Subject(ts[i]) != ""
    ensures var us := Absorb(ts, i, j);
      Shaped(us) && Apart(us) && Follow(ts, us) && Follow(us, ts)
  {
    hide Apart, Follow, Plain;
    var cur, lst := ts[i], ts[j];
    if lst.msg == None || (cur.msg.Some? && cur.msg.value.refwd && !lst.msg.value.refwd) {
      var more := if cur.msg == None then cur.kids else [cur];
      AdoptFair(ts, i, j, more);
      JoinRoots(ts, j, i, Adopt(lst, more));
    } else {
      PairFair(ts, i, j);
      JoinRoots(ts, i, j, Thread(None, [lst, cur]));
    }
  }

  /** If the root that stands for a subject is no dummy, no root of the subject is. */
  lemma NoDummies(ts: seq<Thread>, s: string, j: nat)
    requires Shaped(ts) && Stands(ts, s, j) && ts[j].msg.Some?
    ensures forall u <- ts | Subject(u) == s :: u.msg.Some?
  {
  }

  lemma AdoptFair(ts: seq<Thread>, i: nat, j: nat, more: seq<Thread>)
    requires Shaped(ts) && i < |ts| && j < |ts| && i != j && Stands(ts, Subject(ts[i]), j)
    requires more == if ts[i].msg == None then ts[i].kids else [ts[i]]
    requires ts[j].msg == None || ts[i].msg.Some?
    ensures var t := Adopt(ts[j], more);
      && Rooted(t) && Subject(t) == Subject(ts[j])
      && (EarliestOf(t) == EarliestOf(ts[i]) || EarliestOf(t) == EarliestOf(ts[j]))
      && Fair(ts, ts[j], ts[i], t)
  {
    var t := Adopt(ts[j], more);
    if ts[i].msg.Some? {
      OnePlain(ts[i]);
    }
    AdoptRooted(ts[j], more);
    assert EarliestOf(ts[i]) == Earliest(more);
    if ts[j].msg == None {
      EarliestAppend(ts[j].kids, more);
    } else {
      NoDummies(ts, Subject(ts[i]), j);
    }
  }

  lemma PairFair(ts: seq<Thread>, i: nat, j: nat)
    requires Shaped(ts) && i < |ts| && j < |ts| && i != j && Stands(ts, Subject(ts[i]), j)
    requires ts[j].msg.Some? && !(ts[i].msg.Some? && ts[i].msg.value.refwd && !ts[j].msg.value.refwd)
    ensures var t := Thread(None, [ts[j], ts[i]]);
      && Rooted(t) && Subject(t) == Subject(ts[i])
      && (EarliestOf(t) == EarliestOf(ts[i]) || EarliestOf(t) == EarliestOf(ts[j]))
      && Fair(ts, ts[i], ts[j], t)
  {
    NewDummy(ts, i, j);
    PairRooted(ts[j], ts[i]);
    NoDummies(ts, Subject(ts[i]), j);
    OnePlain(ts[i]);
    assert [ts[j], ts[i]][1..] == [ts[i]] && Earliest([ts[i]]) == ts[i].msg.value;
    assert Earliest([ts[j], ts[i]]) == ts[j].msg.value || Earliest([ts[j], ts[i]]) == ts[i].msg.value;
  }

  lemma {:induction false} MergeFollows(ts: seq<Thread>, i: nat)
    requires Shaped(ts) && i <= |ts| && Apart(ts)
    ensures var us := Merge(ts, i); Apart(us) && Follow(ts, us) && Follow(us, ts)
    decreases |ts| - i
  {
    hide Apart, Follow, Step;
    if i == |ts| {
      FollowSelf(ts, ts);
    } else {
      var us := Step(ts, i).0;
      StepFollows(ts, i);
      MergeFollows(us, Step(ts, i).1);
      FollowTrans(ts, us, Merge(ts, i));
      FollowTrans(Merge(ts, i), us, ts);
    }
  }

  /** When every subject has one root, each root leads. */
  lemma SettledLeaders(ts: seq<Thread>)
    requires Shaped(ts) && Settled(ts, |ts|) && Apart(ts)
    ensures LeadersDiffer(ts) <==> EarliestDiffer(ts)
  {
    hide EarliestOf, EarliestSubject, Subject, Rooted;
    ApartMembers(ts);
    forall d | d in ts
      ensures Leader(ts, d)
    {
      SettledLeads(ts, d);
    }
    if LeadersDiffer(ts) {
      forall i, j | 0 <= i < j < |ts| && EarliestSubject(ts[i]) == EarliestSubject(ts[j])
        ensures EarliestSubject(ts[i]) == ""
      {
        OtherRoot(ts, i, j);
        assert Leader(ts, ts[i]) && Leader(ts, ts[j]);
      }
    }
    if EarliestDiffer(ts) {
      forall d, e | Leader(ts, d) && Leader(ts, e) && EarliestSubject(d) == EarliestSubject(e) != ""
        ensures d == e
      {
        var i, j :| 0 <= i < |ts| && 0 <= j < |ts| && d == ts[i] && e == ts[j];
        assert i == j;
      }
    }
  }

  lemma SettledLeads(ts: seq<Thread>, d: Thread)
    requires Shaped(ts) && Settled(ts, |ts|) && d in ts
    ensures Leader(ts, d)
  {
    hide EarliestOf, Subject, Rooted;
    var i :| 0 <= i < |ts| && ts[i] == d;
    forall u <- ts | Subject(u) == Subject(d) != ""
      ensures Before(EarliestOf(d), EarliestOf(u))
    {
      var j :| 0 <= j < |ts| && ts[j] == u;
      StandsUnique(ts, Subject(d), i, j);
    }
  }

  lemma SortApart(ts: seq<Thread>)
    requires Shaped(ts) && Apart(ts)
    ensures Apart(Sort(ts)) && Follow(ts, Sort(ts)) && Follow(Sort(ts), ts)
  {
    hide EarliestOf, Subject, Rooted, Sort, Follow;
    SortFacts(ts);
    ApartPermuted(ts, Sort(ts));
    forall t
      ensures t in ts <==> t in Sort(ts)
    {
      assert t in ts <==> t in multiset(ts);
      assert t in Sort(ts) <==> t in multiset(Sort(ts));
    }
    FollowSelf(ts, Sort(ts));
  }

  lemma ApartPermuted(ts: seq<Thread>, us: seq<Thread>)
    requires Shaped(ts) && Shaped(us) && Apart(ts) && multiset(ts) == multiset(us)
    ensures Apart(us)
  {
    hide EarliestOf, Rooted;
    ApartMembers(ts);
    forall i, j | 0 <= i < j < |us|
      ensures EarliestOf(us[i]).num != EarliestOf(us[j]).num
    {
      assert us[i] in multiset(us) && us[j] in multiset(us);
      if us[i] == us[j] {
        TwiceApart(ts, us, i, j);
      }
    }
  }

  lemma TwiceApart(ts: seq<Thread>, us: seq<Thread>, i: nat, j: nat)
    requires Shaped(ts) && Apart(ts) && multiset(ts) == multiset(us) && i < j < |us|
    ensures us[i] != us[j]
  {
    hide EarliestOf, Rooted;
    if us[i] == us[j] {
      assert us == us[..j] + us[j..];
      assert us[i] in us[..j] && us[j] in us[j..];
      assert multiset(us)[us[i]] == multiset(us[..j])[us[i]] + multiset(us[j..])[us[i]] >= 2;
      OnceApart(ts, us[i]);
    }
  }

  lemma {:induction false} OnceApart(ts: seq<Thread>, t: Thread)
    requires Shaped(ts) && Apart(ts)
    ensures multiset(ts)[t] <= 1
  {
    hide EarliestOf, Rooted;
    if ts != [] {
      assert ts == [ts[0]] + ts[1..];
      forall i, j | 0 <= i < j < |ts[1..]|
        ensures EarliestOf(ts[1..][i]).num != EarliestOf(ts[1..][j]).num
      {
        assert ts[1..][i] == ts[i + 1] && ts[1..][j] == ts[j + 1];
      }
      OnceApart(ts[1..], t);
      forall i | 0 <= i < |ts[1..]|
        ensures ts[1..][i] != ts[0]
      {
        OtherRoot(ts, 0, i + 1);
      }
    }
  }

  /** The threads that are returned have one root per subject exactly if the leaders
      of the subjects of the pruned roots, told by their earliest messages, would have
      different subjects themselves. */
  lemma FinishedLeaders(ts: seq<Thread>)
    requires Shaped(ts) && Apart(ts)
    ensures SubjectsDiffer(Finished(ts)) <==> LeadersDiffer(ts)
  {
    hide Apart, Follow, Sort, Merge, Leader;
    var s := Sort(ts);
    var m := Merge(s, 0);
    SortApart(ts);
    MergeFollows(s, 0);
    MergeSettles(s, 0);
    SettledLeaders(m);
    FinishedOneRoot(ts);
    FollowTrans(ts, s, m);
    FollowTrans(m, s, ts);
    if LeadersDiffer(ts) {
      FollowDiffer(ts, m);
    }
    if LeadersDiffer(m) {
      FollowDiffer(m, ts);
    }
  }

  lemma EarliestMember(t: Thread)
    requires Rooted(t)
    ensures EarliestOf(t) in MessagesOf([t])
  {
    MessagesOfOne(t);
    if t.msg == None {
      EarliestInside(t.kids);
    }
  }

  lemma {:induction false} EarliestInside(ts: seq<Thread>)
    requires ts != [] && Plain(ts)
    ensures Earliest(ts) in MessagesOf(ts)
  {
    if |ts| > 1 {
      EarliestInside(ts[1..]);
    }
  }

  lemma DistinctApart(ts: seq<Thread>)
    requires Shaped(ts) && DistinctNums(ts)
    ensures Apart(ts)
  {
    forall i, j | 0 <= i < j < |ts|
      ensures EarliestOf(ts[i]).num != EarliestOf(ts[j]).num
    {
      var a, b := ts[..j], ts[j..];
      assert ts == a + b;
      DistinctSplit(a, b);
      EarliestMember(ts[i]);
      EarliestMember(ts[j]);
      RootMessages(a, i);
      RootMessages(b, 0);
    }
  }

  lemma RootMessages(ts: seq<Thread>, i: nat)
    requires i < |ts|
    ensures forall m <- MessagesOf([ts[i]]) :: m in MessagesOf(ts)
  {
    hide MessagesOf;
    assert ts == ts[..i] + ([ts[i]] + ts[i + 1..]);
    MessagesAppend(ts[..i], [ts[i]] + ts[i + 1..]);
    MessagesAppend([ts[i]], ts[i + 1..]);
  }

  /** Of the threads of distinct messages no two roots share a subject exactly if that
      holds of the leaders of the pruned threads. */
  lemma ThreadedOneRoot(sc: seq<Message>)
    requires Distinguished(sc)
    ensures SubjectsDiffer(Threaded(sc)) <==> LeadersDiffer(PrunedThreads(sc))
  {
    hide PrunedThreads, Finished, Complete, Apart, LeadersDiffer, SubjectsDiffer;
    var ts := PrunedThreads(sc);
    PrunedThreadsComplete(sc);
    CompleteFacts(ts, sc);
    DistinctApart(ts);
    FinishedLeaders(ts);
  }
}
