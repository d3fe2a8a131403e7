/** The state of a newsgroup in a newsrc file: ranges of the articles that have
    been read, which a stream shows as deleted messages. */
module Newsrc {
  import opened Sequences
  import opened Bits
  import opened Machine
  import opened Texts
  import opened MessageCache
  import opened UidSets

  datatype Span = Span(lo: nat, hi: nat)

  ghost predicate Ordered(rs: seq<Span>) {
    && (forall i | 0 <= i < |rs| :: 0 < rs[i].lo <= rs[i].hi < ULONG)
    && (forall i, j | 0 <= i < j < |rs| :: rs[i].hi < rs[j].lo)
  }

  /** There is an article between neighbouring ranges. */
  ghost predicate Separate(rs: seq<Span>) {
    forall i | 0 < i < |rs| :: rs[i - 1].hi + 1 < rs[i].lo
  }

  ghost predicate In(rs: seq<Span>, u: nat) {
    exists i :: 0 <= i < |rs| && rs[i].lo <= u <= rs[i].hi
  }

  /** The end of the last range. */
  function TopOf(rs: seq<Span>): nat {
    if rs == [] then 0 else rs[|rs| - 1].hi
  }

  /** The article is read, or gone with only read ones before it back to the last
      that is there. */
  ghost predicate Gone(uids: seq<nat>, del: seq<bool>, u: nat)
    requires |del| == |uids|
  {
    u > 0 && exists m :: 0 <= m < |uids| && GoneAt(uids, del, u, m)
  }

  /** `m` is the first message not before the article. */
  ghost predicate GoneAt(uids: seq<nat>, del: seq<bool>, u: nat, m: nat)
    requires |del| == |uids| && m < |uids|
  {
    && u <= uids[m] && (m > 0 ==> uids[m - 1] < u)
    && if u == uids[m] then del[m] else m == 0 || del[m - 1]
  }

  lemma GoneMessage(uids: seq<nat>, del: seq<bool>, m: nat)
    requires |del| == |uids| && m < |uids| && Mapped(uids)
    ensures Gone(uids, del, uids[m]) <==> del[m]
  {
    if del[m] {
      assert GoneAt(uids, del, uids[m], m);
    }
  }

  // ---- Writing ----

  function PrintSpan(r: Span): string {
    if r.lo == r.hi then Decimal(r.lo) else Decimal(r.lo) + "-" + Decimal(r.hi)
  }

  function Join(rs: seq<Span>): string {
    if rs == [] then "" else if |rs| == 1 then PrintSpan(rs[0]) else PrintSpan(rs[0]) + "," + Join(rs[1..])
  }

  function Line(rs: seq<Span>): string {
    if rs == [] then "" else " " + Join(rs)
  }

  lemma {:induction false} JoinMore(rs: seq<Span>, r: Span)
    requires rs != []
    ensures Join(rs + [r]) == Join(rs) + "," + PrintSpan(r)
  {
    hide PrintSpan;
    if |rs| > 1 {
      JoinMore(rs[1..], r);
      assert (rs + [r])[1..] == rs[1..] + [r];
    } else {
      assert (rs + [r])[1..] == [r];
    }
  }

  lemma LineMore(rs: seq<Span>, r: Span)
    ensures Line(rs + [r]) == Line(rs) + [if rs == [] then ' ' else ','] + PrintSpan(r)
  {
    if rs != [] {
      JoinMore(rs, r);
    }
  }

  /** Ranges as text. */
  lemma LineSpelled(a: nat, b: nat, c: nat)
    requires a < b
    ensures Line([Span(a, b), Span(c, c)]) == " " + (Decimal(a) + "-" + Decimal(b) + "," + Decimal(c))
    ensures Line([]) == ""
  {
    assert [Span(a, b), Span(c, c)][1..] == [Span(c, c)];
    assert Join([Span(c, c)]) == Decimal(c) && Join([]) == "";
    assert PrintSpan(Span(a, b)) == Decimal(a) + "-" + Decimal(b);
    hide Decimal, PrintSpan;
  }

  /** The first `i` messages are written up to a range that starts at `j`, if any. */
  ghost predicate Written(uids: seq<nat>, del: seq<bool>, rs: seq<Span>, j: nat, i: nat)
    requires |del| == |uids|
  {
    var top := if i == 0 || i > |uids| then 0 else uids[i - 1];
    && i <= |uids| && Ordered(rs) && Separate(rs) && TopOf(rs) <= top && (j > 0 ==> TopOf(rs) < j)
    && (rs != [] ==> TopOf(rs) < top && (j > 0 ==> TopOf(rs) + 1 < j))
    && (i == 0 ==> j == if uids != [] && uids[0] > 1 then 1 else 0)
    && (i > 0 ==> j <= top && (j > 0 <==> del[i - 1]))
    && forall u | 0 < u <= top :: In(rs, u) || 0 < j <= u <==> Gone(uids, del, u)
  }

  lemma InMore(rs: seq<Span>, r: Span, u: nat)
    ensures In(rs + [r], u) <==> In(rs, u) || r.lo <= u <= r.hi
  {
    if In(rs, u) {
      var i :| 0 <= i < |rs| && rs[i].lo <= u <= rs[i].hi;
      assert (rs + [r])[i] == rs[i];
    }
    if r.lo <= u <= r.hi {
      assert (rs + [r])[|rs|] == r;
    }
  }

  lemma BelowTop(rs: seq<Span>)
    requires Ordered(rs)
    ensures forall u: nat :: In(rs, u) ==> 0 < u <= TopOf(rs)
    ensures forall i | 0 <= i < |rs| :: rs[i].hi <= TopOf(rs)
  {
  }

  lemma OrderedMore(rs: seq<Span>, r: Span)
    requires Ordered(rs) && TopOf(rs) < r.lo <= r.hi < ULONG
    ensures Ordered(rs + [r]) && TopOf(rs + [r]) == r.hi
    ensures Separate(rs) && (rs != [] ==> TopOf(rs) + 1 < r.lo) ==> Separate(rs + [r])
  {
    BelowTop(rs);
  }

  /** Between two messages everything is as the first is. */
  lemma GoneBetween(uids: seq<nat>, del: seq<bool>, i: nat, u: nat)
    requires Mapped(uids) && |del| == |uids| && i < |uids| && u <= uids[i] && (if i == 0 then 0 else uids[i - 1]) < u
    ensures Gone(uids, del, u) <==> if u == uids[i] then del[i] else i == 0 || del[i - 1]
  {
    if Gone(uids, del, u) {
      var m :| 0 <= m < |uids| && GoneAt(uids, del, u, m);
      assert m == i;
    }
    if if u == uids[i] then del[i] else i == 0 || del[i - 1] {
      assert GoneAt(uids, del, u, i);
    }
  }

  /** The next message is deleted. */
  lemma WriteDeleted(uids: seq<nat>, del: seq<bool>, rs: seq<Span>, j: nat, i: nat)
    requires Mapped(uids) && |del| == |uids| && i < |uids| && Written(uids, del, rs, j, i) && del[i]
    ensures Written(uids, del, rs, if j == 0 then uids[i] else j, i + 1)
  {
    var j' := if j == 0 then uids[i] else j;
    var top := if i == 0 then 0 else uids[i - 1];
    BelowTop(rs);
    forall u | 0 < u <= uids[i]
      ensures In(rs, u) || 0 < j' <= u <==> Gone(uids, del, u)
    {
      if u > top {
        GoneBetween(uids, del, i, u);
      }
    }
  }

  /** The next message is not deleted, and a range ends before it. */
  lemma WriteRange(uids: seq<nat>, del: seq<bool>, rs: seq<Span>, j: nat, i: nat)
    requires Mapped(uids) && |del| == |uids| && i < |uids| && Written(uids, del, rs, j, i) && !del[i]
    requires j > 0 && uids[i] <= ULONG
    ensures uids[i] - 1 > 0 && Written(uids, del, rs + [Span(j, uids[i] - 1)], 0, i + 1)
  {
    var r := Span(j, uids[i] - 1);
    var top := if i == 0 then 0 else uids[i - 1];
    BelowTop(rs);
    OrderedMore(rs, r);
    forall u | 0 < u <= uids[i]
      ensures In(rs + [r], u) <==> Gone(uids, del, u)
    {
      InMore(rs, r, u);
      if u > top {
        GoneBetween(uids, del, i, u);
      }
    }
  }

  lemma WriteNothing(uids: seq<nat>, del: seq<bool>, rs: seq<Span>, i: nat)
    requires Mapped(uids) && |del| == |uids| && i < |uids| && Written(uids, del, rs, 0, i) && !del[i]
    ensures Written(uids, del, rs, 0, i + 1)
  {
    var top := if i == 0 then 0 else uids[i - 1];
    BelowTop(rs);
    forall u | 0 < u <= uids[i]
      ensures In(rs, u) <==> Gone(uids, del, u)
    {
      if u > top {
        GoneBetween(uids, del, i, u);
      }
    }
  }

  /** The ranges cover exactly what is gone, in as few ranges as can be. */
  ghost predicate Exactly(uids: seq<nat>, del: seq<bool>, rs: seq<Span>)
    requires |del| == |uids|
  {
    Ordered(rs) && Separate(rs) && forall u: nat :: In(rs, u) <==> Gone(uids, del, u)
  }

  lemma WriteEnd(uids: seq<nat>, del: seq<bool>, rs: seq<Span>, j: nat)
    requires Mapped(uids) && |del| == |uids| && uids != [] && Written(uids, del, rs, j, |uids|)
    requires uids[|uids| - 1] < ULONG
    ensures Exactly(uids, del, if j > 0 then rs + [Span(j, uids[|uids| - 1])] else rs)
  {
    var top := uids[|uids| - 1];
    var r := Span(j, top);
    var rs' := if j > 0 then rs + [r] else rs;
    BelowTop(rs);
    if j > 0 {
      OrderedMore(rs, r);
    }
    BelowTop(rs');
    forall u: nat
      ensures In(rs', u) <==> Gone(uids, del, u)
    {
      if j > 0 {
        InMore(rs, r, u);
      }
    }
  }

  /** UIDs in the range of the source's printing. */
  ghost predicate Words(uids: seq<nat>) {
    forall k | 0 <= k < |uids| :: uids[k] < ULONG / 2
  }

  /** There is only one way to do that. */
  lemma ExactlyOne(uids: seq<nat>, del: seq<bool>, rs: seq<Span>, rs': seq<Span>)
    requires |del| == |uids| && Exactly(uids, del, rs) && Exactly(uids, del, rs')
    ensures rs == rs'
  {
    SameRanges(rs, rs');
  }

  lemma {:induction false} SameRanges(rs: seq<Span>, rs': seq<Span>)
    requires Ordered(rs) && Separate(rs) && Ordered(rs') && Separate(rs')
    requires forall u: nat :: In(rs, u) <==> In(rs', u)
    ensures rs == rs'
  {
    if rs == [] || rs' == [] {
      NoneIn(rs);
      NoneIn(rs');
    } else {
      SameFirst(rs, rs');
      SameFirst(rs', rs);
      assert rs[0] == rs'[0];
      forall u: nat
        ensures In(rs[1..], u) <==> In(rs'[1..], u)
      {
        InRest(rs, u);
        InRest(rs', u);
      }
      RestOrdered(rs);
      RestOrdered(rs');
      SameRanges(rs[1..], rs'[1..]);
      assert rs == [rs[0]] + rs[1..] && rs' == [rs'[0]] + rs'[1..];
    }
  }

  lemma NoneIn(rs: seq<Span>)
    requires Ordered(rs)
    ensures rs != [] ==> In(rs, rs[0].lo)
  {
  }

  lemma RestOrdered(rs: seq<Span>)
    requires Ordered(rs) && Separate(rs) && rs != []
    ensures Ordered(rs[1..]) && Separate(rs[1..])
  {
  }

  lemma InRest(rs: seq<Span>, u: nat)
    requires Ordered(rs) && rs != []
    ensures In(rs[1..], u) <==> In(rs, u) && u > rs[0].hi
  {
    if In(rs, u) && u > rs[0].hi {
      var i :| 0 <= i < |rs| && rs[i].lo <= u <= rs[i].hi;
      assert rs[1..][i - 1] == rs[i];
    }
    if In(rs[1..], u) {
      var i :| 0 <= i < |rs[1..]| && rs[1..][i].lo <= u <= rs[1..][i].hi;
      assert rs[i + 1] == rs[1..][i];
    }
  }

  /** The first range does not start later nor end later than the other list's. */
  lemma SameFirst(rs: seq<Span>, rs': seq<Span>)
    requires Ordered(rs) && Ordered(rs') && Separate(rs') && rs != [] && rs' != []
    requires forall u: nat :: In(rs, u) <==> In(rs', u)
    ensures rs[0].lo >= rs'[0].lo && (rs[0].lo == rs'[0].lo ==> rs[0].hi <= rs'[0].hi)
  {
    assert In(rs, rs[0].lo);
    var i :| 0 <= i < |rs'| && rs'[i].lo <= rs[0].lo <= rs'[i].hi;
    if rs[0].lo == rs'[0].lo && rs[0].hi > rs'[0].hi {
      var u := rs'[0].hi + 1;
      assert In(rs, u);
      GapAfterFirst(rs');
    }
  }

  lemma GapAfterFirst(rs: seq<Span>)
    requires Ordered(rs) && Separate(rs) && rs != []
    ensures !In(rs, rs[0].hi + 1)
  {
    forall i | 0 < i < |rs|
      ensures rs[i].lo > rs[0].hi + 1
    {
      if i > 1 {
        assert rs[0].hi < rs[1].lo <= rs[1].hi < rs[i].lo;
      }
    }
  }

  // ---- Flags ----

  ghost predicate Deleted(s: Stream, k: nat)
    reads s, s.cache, s.elts
  {
    k < s.cache.Length && s.cache[k] != null && s.cache[k] in s.elts && s.cache[k].deleted
  }

  ghost function Deletions(s: Stream): (del: seq<bool>)
    reads s, s.cache, s.elts
    ensures |del| == s.nmsgs && forall k | 0 <= k < s.nmsgs :: del[k] == Deleted(s, k)
  {
    seq(s.nmsgs, k reads s, s.cache, s.elts => k >= 0 && Deleted(s, k))
  }

  /** newsrc_newmessages: the ranges that cover exactly what is gone. */
  method NewMessages(s: Stream, nl: string) returns (text: string, ghost rs: seq<Span>)
    requires MapKnown(s) && Words(s.State().known)
    ensures text == Line(rs) + nl && Exactly(s.State().known, Deletions(s), rs)
  {
    hide Stream.State, Stream.Valid, Exactly, Written, Mapped, Line, PrintSpan, Deleted;
    hide Ordered, Separate, TopOf, In, Gone;
    ghost var uids, del := s.State().known, Deletions(s);
    text, rs := "", [];
    var c := ' ';
    if s.nmsgs > 0 {
      var first := Uid(s, 1);
      var j := if first > 1 then 1 else 0;
      var k := j;
      WriteStart(uids, del);
      assert Words(uids);
      for i := 1 to s.nmsgs + 1
        invariant Written(uids, del, rs, j, i - 1) && text == Line(rs) && c == (if rs == [] then ' ' else ',')
        invariant j > 0 && i > 1 ==> k == uids[i - 2]
      {
        var deleted := IsDeleted(s, i);
        var uid := Uid(s, i);
        if deleted {
          WriteDeleted(uids, del, rs, j, i - 1);
          k := uid;
          if j == 0 {
            j := k;
          }
        } else if j > 0 {
          WriteRange(uids, del, rs, j, i - 1);
          k := uid - 1;
          if k > 0 {
            LineMore(rs, Span(j, k));
            text := text + [c] + PrintSpan(Span(j, k));
            rs := rs + [Span(j, k)];
            c := ',';
          }
          j := 0;
        } else {
          WriteNothing(uids, del, rs, i - 1);
        }
      }
      WriteEnd(uids, del, rs, j);
      if j > 0 {
        LineMore(rs, Span(j, k));
        text := text + [c] + PrintSpan(Span(j, k));
        rs := rs + [Span(j, k)];
      }
    } else {
      NothingGone(uids, del);
    }
    text := text + nl;
  }

  method IsDeleted(s: Stream, msgno: nat) returns (deleted: bool)
    requires MapKnown(s) && 1 <= msgno <= s.nmsgs
    ensures deleted == Deleted(s, msgno - 1)
  {
    assert s.State().known[msgno - 1] > 0;
    deleted := s.cache[msgno - 1].deleted;
  }

  lemma WriteStart(uids: seq<nat>, del: seq<bool>)
    requires |del| == |uids| && uids != []
    ensures Written(uids, del, [], if uids[0] > 1 then 1 else 0, 0)
    ensures Line([]) == ""
  {
  }

  lemma NothingGone(uids: seq<nat>, del: seq<bool>)
    requires |del| == |uids| == 0
    ensures Exactly(uids, del, []) && Line([]) == ""
  {
  }

  // ---- Reading ----

  /** A number, in the source's unsigned long, and what follows it. */
  function NumberAt(t: string): (nat, string) {
    var n := Run(t, IsDigit);
    (Value(t[..n]) % ULONG, t[n..])
  }

  /** The numbers of a range, or the number of one message and 0. */
  function ReadSpan(t: string): (r: (nat, nat, string)) {
    var (i, rest) := NumberAt(t);
    if rest != "" && rest[0] == '-' then
      var (j, rest') := NumberAt(rest[1..]);
      (i, j, rest')
    else (i, 0, rest)
  }

  lemma NumberIs(n: nat, tail: string)
    requires n < ULONG && (tail == "" || !IsDigit(tail[0]))
    ensures NumberAt(Decimal(n) + tail) == (n, tail)
  {
    DecimalValue(n);
    RunExact(Decimal(n), tail, IsDigit);
  }

  lemma SpanIs(r: Span, tail: string)
    requires r.lo <= r.hi < ULONG && (tail == "" || (!IsDigit(tail[0]) && tail[0] != '-'))
    ensures ReadSpan(PrintSpan(r) + tail) == (r.lo, if r.lo == r.hi then 0 else r.hi, tail)
  {
    hide NumberAt, Decimal;
    if r.lo == r.hi {
      NumberIs(r.lo, tail);
    } else {
      var rest := "-" + (Decimal(r.hi) + tail);
      assert PrintSpan(r) + tail == Decimal(r.lo) + rest;
      NumberIs(r.lo, rest);
      NumberIs(r.hi, tail);
      assert rest[1..] == Decimal(r.hi) + tail;
    }
  }

  lemma {:induction false} RunFacts(t: string, k: nat)
    requires k <= Run(t, IsDigit)
    ensures k < Run(t, IsDigit) ==> IsDigit(t[k])
    ensures k == Run(t, IsDigit) && k < |t| ==> !IsDigit(t[k])
  {
    if k > 0 {
      RunFacts(t[1..], k - 1);
    }
  }

  lemma ValueMore(t: string, k: nat)
    requires k < |t| && IsDigit(t[k])
    ensures Value(t[..k + 1]) % ULONG == (Value(t[..k]) % ULONG * 10 + (t[k] - '0') as nat) % ULONG
  {
    var v, d := Value(t[..k]), (t[k] - '0') as nat;
    assert t[..k + 1][..k] == t[..k];
    assert v * 10 + d == ULONG * (v / ULONG * 10) + (v % ULONG * 10 + d);
    ModPlus(v % ULONG * 10 + d, ULONG, v / ULONG * 10);
  }

  /** Collects a number. */
  method TakeNumber(t: string) returns (n: nat, rest: string)
    ensures (n, rest) == NumberAt(t)
  {
    hide Value;
    ghost var k := 0;
    n, rest := 0, t;
    assert Value(t[..0]) == 0 by { EmptyValue(); }
    RunFacts(t, 0);
    while rest != "" && IsDigit(rest[0])
      invariant k <= Run(t, IsDigit) && rest == t[k..] && n == Value(t[..k]) % ULONG
      decreases |rest|
    {
      RunFacts(t, k);
      ValueMore(t, k);
      n, rest, k := (n * 10 + (rest[0] - '0') as nat) % ULONG, rest[1..], k + 1;
    }
    RunFacts(t, k);
  }

  lemma EmptyValue()
    ensures Value("") == 0
  {
  }

  method TakeSpan(t: string) returns (i: nat, j: nat, rest: string)
    ensures (i, j, rest) == ReadSpan(t)
  {
    j := 0;
    i, rest := TakeNumber(t);
    if rest != "" && rest[0] == '-' {
      j, rest := TakeNumber(rest[1..]);
    }
  }

  ghost predicate IsValid(s: Stream, k: nat)
    reads s, s.cache, s.elts
  {
    k < s.cache.Length && s.cache[k] != null && s.cache[k] in s.elts && s.cache[k].valid
  }

  ghost predicate IsRecent(s: Stream, k: nat)
    reads s, s.cache, s.elts
  {
    k < s.cache.Length && s.cache[k] != null && s.cache[k] in s.elts && s.cache[k].recent
  }

  /** One message becomes valid, and gets the flags. */
  method Settle(s: Stream, msgno: nat, deleted: bool, recent: bool)
    requires MapKnown(s) && 1 <= msgno <= s.nmsgs
    modifies s.elts`valid, s.elts`deleted, s.elts`recent
    ensures MapKnown(s) && s.State() == old(s.State())
    ensures forall k | 0 <= k < s.nmsgs ::
        && (IsValid(s, k) <==> old(IsValid(s, k)) || k == msgno - 1)
        && (Deleted(s, k) <==> old(Deleted(s, k)) || (deleted && k == msgno - 1))
        && (IsRecent(s, k) <==> old(IsRecent(s, k)) || (recent && k == msgno - 1))
  {
    hide Stream.State;
    assert s.State().known[msgno - 1] > 0;
    var elt := s.cache[msgno - 1];
    elt.valid := true;
    if deleted {
      elt.deleted := true;
    }
    if recent {
      elt.recent := true;
    }
    assert s.State().known == old(s.State().known);
  }

  /** Passes the messages before a range and marks those in it. */
  method MarkSpan(s: Stream, m0: nat, i: nat, j: nat) returns (m: nat, ghost m': nat)
    requires MapKnown(s) && 1 <= m0 <= s.nmsgs
    modifies s.elts`valid, s.elts`deleted, s.elts`recent
    ensures MapKnown(s) && s.State() == old(s.State()) && m0 <= m' <= m <= s.nmsgs + 1
    ensures forall k | 0 <= k < s.nmsgs ::
        && (IsValid(s, k) <==> old(IsValid(s, k)) || m0 - 1 <= k < m - 1)
        && (Deleted(s, k) <==> old(Deleted(s, k)) || m' - 1 <= k < m - 1)
        && (IsRecent(s, k) <==> old(IsRecent(s, k)))
    ensures var uids, hi := s.State().known, if j == 0 then i else j;
      && (forall k | m0 - 1 <= k < m' - 1 :: uids[k] < i)
      && (m' <= |uids| ==> uids[m' - 1] >= i)
      && (forall k | m' - 1 <= k < m - 1 :: i <= uids[k] <= hi)
      && (m <= |uids| ==> !(i <= uids[m - 1] <= hi))
  {
    hide Stream.State, Stream.Valid, Mapped, IsValid, Deleted, IsRecent;
    ghost var uids := s.State().known;
    m := m0;
    while m <= s.nmsgs
      invariant m0 <= m <= s.nmsgs + 1 && MapKnown(s) && s.State() == old(s.State())
      invariant forall k | m0 - 1 <= k < m - 1 :: uids[k] < i
      invariant forall k | 0 <= k < s.nmsgs ::
        && (IsValid(s, k) <==> old(IsValid(s, k)) || m0 - 1 <= k < m - 1)
        && (Deleted(s, k) <==> old(Deleted(s, k))) && (IsRecent(s, k) <==> old(IsRecent(s, k)))
    {
      var uid := Uid(s, m);
      if uid >= i {
        break;
      }
      Settle(s, m, false, false);
      m := m + 1;
    }
    m' := m;
    while m <= s.nmsgs
      invariant m' <= m <= s.nmsgs + 1 && MapKnown(s) && s.State() == old(s.State())
      invariant forall k | m' - 1 <= k < m - 1 :: i <= uids[k] <= if j == 0 then i else j
      invariant forall k | 0 <= k < s.nmsgs ::
        && (IsValid(s, k) <==> old(IsValid(s, k)) || m0 - 1 <= k < m - 1)
        && (Deleted(s, k) <==> old(Deleted(s, k)) || m' - 1 <= k < m - 1)
        && (IsRecent(s, k) <==> old(IsRecent(s, k)))
    {
      var uid := Uid(s, m);
      if !(if j > 0 then uid >= i && uid <= j else uid == i) {
        break;
      }
      Settle(s, m, true, false);
      m := m + 1;
    }
  }

  /** Everything after the ranges is recent. */
  method MarkRecent(s: Stream, m0: nat) returns (recent: nat)
    requires MapKnown(s) && 1 <= m0 <= s.nmsgs + 1
    modifies s.elts`valid, s.elts`deleted, s.elts`recent
    ensures MapKnown(s) && s.State() == old(s.State()) && recent == s.nmsgs + 1 - m0
    ensures forall k | 0 <= k < s.nmsgs ::
        && (IsValid(s, k) <==> old(IsValid(s, k)) || m0 - 1 <= k)
        && (Deleted(s, k) <==> old(Deleted(s, k)))
        && (IsRecent(s, k) <==> old(IsRecent(s, k)) || m0 - 1 <= k)
  {
    hide Stream.State, Stream.Valid, Mapped, IsValid, Deleted, IsRecent;
    var m := m0;
    recent := 0;
    while m <= s.nmsgs
      invariant m0 <= m <= s.nmsgs + 1 && MapKnown(s) && s.State() == old(s.State()) && recent == m - m0
      invariant forall k | 0 <= k < s.nmsgs ::
        && (IsValid(s, k) <==> old(IsValid(s, k)) || m0 - 1 <= k < m - 1)
        && (Deleted(s, k) <==> old(Deleted(s, k)))
        && (IsRecent(s, k) <==> old(IsRecent(s, k)) || m0 - 1 <= k < m - 1)
    {
      Settle(s, m, false, true);
      m, recent := m + 1, recent + 1;
    }
  }

  ghost predicate EndsLine(tail: string) {
    tail == "" || tail[0] == '\r' || tail[0] == '\n'
  }

  /** The line holds the ranges; `tail` is its newline. */
  ghost predicate Holds(line: string, rs: seq<Span>, tail: string) {
    Ordered(rs) && line == Line(rs) + tail && EndsLine(tail)
  }

  lemma LineStart(line: string, rs: seq<Span>, tail: string)
    requires Holds(line, rs, tail)
    ensures Unspaced(line) == Join(rs) + tail
  {
    hide Unspaced, Join;
    JoinStart(rs, tail);
    UnspacedSolid(Join(rs) + tail);
    UnspacedBlank(Join(rs) + tail);
    if rs != [] {
      assert line == " " + (Join(rs) + tail);
    } else {
      assert line == tail;
    }
  }

  lemma {:induction false} UnspacedBlank(t: string)
    ensures Unspaced(" " + t) == Unspaced(t)
  {
    assert (" " + t)[1..] == t;
  }

  lemma DecimalStart(n: nat)
    ensures Decimal(n) != "" && IsDigit(Decimal(n)[0])
  {
    DecimalValue(n);
  }

  lemma SpanStart(r: Span)
    ensures PrintSpan(r) != "" && IsDigit(PrintSpan(r)[0])
  {
    DecimalStart(r.lo);
  }

  lemma JoinStart(rs: seq<Span>, tail: string)
    ensures rs == [] ==> Join(rs) + tail == tail
    ensures rs != [] ==> Join(rs) != "" && IsDigit((Join(rs) + tail)[0])
  {
    if rs != [] {
      SpanStart(rs[0]);
    }
  }

  /** What follows the first range. */
  ghost function Rest(rs: seq<Span>, tail: string): string
    requires rs != []
  {
    if |rs| == 1 then tail else "," + (Join(rs[1..]) + tail)
  }

  lemma JoinFirst(rs: seq<Span>, tail: string)
    requires rs != [] && EndsLine(tail) && rs[0].lo <= rs[0].hi < ULONG
    ensures ReadSpan(Join(rs) + tail) == (rs[0].lo, if rs[0].lo == rs[0].hi then 0 else rs[0].hi, Rest(rs, tail))
  {
    hide ReadSpan, PrintSpan;
    assert Join(rs) + tail == PrintSpan(rs[0]) + Rest(rs, tail);
    SpanIs(rs[0], Rest(rs, tail));
  }

  /** How many UIDs are above. */
  ghost function Above(uids: seq<nat>, top: nat): nat {
    if uids == [] then 0 else (if uids[0] > top then 1 else 0) + Above(uids[1..], top)
  }

  /** How many UIDs are in no range. */
  ghost function Unread(uids: seq<nat>, rs: seq<Span>): nat {
    if uids == [] then 0 else (if In(rs, uids[0]) then 0 else 1) + Unread(uids[1..], rs)
  }

  /** Some ranges are read, and `t` is the rest of the text. */
  ghost predicate Reading(rs: seq<Span>, tail: string, done: seq<Span>, t: string, open: bool) {
    && |done| <= |rs| && done == rs[..|done|]
    && (if open then t == Join(rs[|done|..]) + tail else done == rs)
  }

  lemma ReadingFirst(rs: seq<Span>, tail: string, done: seq<Span>, t: string)
    requires Ordered(rs) && EndsLine(tail) && Reading(rs, tail, done, t, true)
    ensures if t != "" && IsDigit(t[0]) then
        && |done| < |rs| && Ordered(done + [rs[|done|]])
        && var r := rs[|done|];
        && 0 < r.lo <= r.hi && ReadSpan(t).0 == r.lo && ReadSpan(t).1 == (if r.lo == r.hi then 0 else r.hi)
        && var rest := ReadSpan(t).2;
        && (if rest != "" && rest[0] == ',' then Reading(rs, tail, done + [r], rest[1..], true)
            else Reading(rs, tail, done + [r], rest, false) && rest == tail)
      else Reading(rs, tail, done, t, false) && (t == "" || t[0] != ',')
  {
    var more := rs[|done|..];
    JoinStart(more, tail);
    if more != [] {
      hide ReadSpan, Join;
      JoinFirst(more, tail);
      var r := rs[|done|];
      assert rs[..|done| + 1] == done + [r];
      assert more[1..] == rs[|done| + 1..];
      OrderedPart(rs, |done| + 1);
      if |more| > 1 {
        assert Rest(more, tail)[1..] == Join(more[1..]) + tail;
      }
    }
  }

  lemma OrderedPart(rs: seq<Span>, n: nat)
    requires Ordered(rs) && n <= |rs|
    ensures Ordered(rs[..n])
    ensures forall u: nat | u <= TopOf(rs[..n]) :: In(rs, u) <==> In(rs[..n], u)
    ensures TopOf(rs[..n]) <= TopOf(rs)
  {
    var part := rs[..n];
    forall i | n <= i < |rs|
      ensures TopOf(part) < rs[i].lo
    {
    }
    forall u: nat | u <= TopOf(part)
      ensures In(rs, u) <==> In(part, u)
    {
      if In(rs, u) {
        var i :| 0 <= i < |rs| && rs[i].lo <= u <= rs[i].hi;
        assert part[i] == rs[i];
      }
      if In(part, u) {
        var i :| 0 <= i < |part| && part[i].lo <= u <= part[i].hi;
        assert rs[i] == part[i];
      }
    }
  }

  // ---- What a line says, whatever it looks like ----

  /** The first range of a text, a single number being a range of one, and the text
      behind it; a range may end before it starts. */
  function FirstRange(t: string): (r: (seq<Span>, string))
    ensures |r.1| <= |t|
  {
    if t != "" && IsDigit(t[0]) then
      var (i, j, rest) := ReadSpan(t);
      ([Span(i, if j == 0 then i else j)], rest)
    else ([], t)
  }

  /** The ranges of a text, up to the first that no comma follows. */
  function RangesOf(t: string): seq<Span>
    decreases |t|
  {
    var (first, rest) := FirstRange(t);
    first + if rest != "" && rest[0] == ',' then RangesOf(rest[1..]) else []
  }

  /** How far a range settles the articles that those before it left. */
  function Reach(r: Span): int {
    if r.lo <= r.hi then r.hi else r.lo - 1
  }

  /** No range reaches the article. */
  ghost predicate Beyond(rs: seq<Span>, u: nat) {
    forall r <- rs :: Reach(r) < u
  }

  /** The first range that reaches the article has it. */
  ghost predicate Marks(rs: seq<Span>, u: nat) {
    exists n :: 0 <= n < |rs| && rs[n].lo <= u <= rs[n].hi && Beyond(rs[..n], u)
  }

  /** How many UIDs no range reaches. */
  ghost function Fresh(uids: seq<nat>, rs: seq<Span>): nat {
    if uids == [] then 0 else (if Beyond(rs, uids[0]) then 1 else 0) + Fresh(uids[1..], rs)
  }

  /** The first message before `m` that is not marked, or 0. */
  ghost predicate FirstOut(uids: seq<nat>, rs: seq<Span>, m: nat, unseen: nat) {
    && unseen < m <= |uids| + 1
    && (forall k | 0 <= k < (if unseen == 0 then m else unseen) - 1 :: Marks(rs, uids[k]))
    && (unseen > 0 ==> !Marks(rs, uids[unseen - 1]))
  }

  /** The ranges reach exactly the messages before `m`. */
  ghost predicate Settled(uids: seq<nat>, rs: seq<Span>, m: nat) {
    && 1 <= m <= |uids| + 1
    && forall k | 0 <= k < |uids| :: Beyond(rs, uids[k]) <==> m - 1 <= k
  }

  lemma BeyondAppend(rs: seq<Span>, more: seq<Span>, u: nat)
    ensures Beyond(rs + more, u) <==> Beyond(rs, u) && Beyond(more, u)
  {
    assert forall r :: r in rs + more <==> r in rs || r in more;
  }

  /** Articles that are reached stay as they are. */
  lemma ReachedStays(rs: seq<Span>, more: seq<Span>, u: nat)
    requires !Beyond(rs, u)
    ensures !Beyond(rs + more, u) && (Marks(rs + more, u) <==> Marks(rs, u))
  {
    var all := rs + more;
    BeyondAppend(rs, more, u);
    if Marks(rs, u) {
      var n :| 0 <= n < |rs| && rs[n].lo <= u <= rs[n].hi && Beyond(rs[..n], u);
      assert all[n] == rs[n] && all[..n] == rs[..n];
    }
    if Marks(all, u) {
      var n :| 0 <= n < |all| && all[n].lo <= u <= all[n].hi && Beyond(all[..n], u);
      if n < |rs| {
        assert all[n] == rs[n] && all[..n] == rs[..n];
      } else {
        assert all[..n] == rs + more[..n - |rs|];
        BeyondAppend(rs, more[..n - |rs|], u);
      }
    }
  }

  /** One more range decides about an article that is not reached. */
  lemma MarksMore(rs: seq<Span>, r: Span, u: nat)
    requires Beyond(rs, u)
    ensures !Marks(rs, u) && (Marks(rs + [r], u) <==> r.lo <= u <= r.hi)
    ensures Beyond(rs + [r], u) <==> Reach(r) < u
  {
    var all := rs + [r];
    BeyondAppend(rs, [r], u);
    assert forall n | 0 <= n < |rs| :: rs[n] in rs && all[n] == rs[n];
    assert all[|rs|] == r && all[..|rs|] == rs;
  }

  lemma SettleMore(uids: seq<nat>, rs: seq<Span>, r: Span, m: nat, m': nat, m'': nat)
    requires Mapped(uids) && Settled(uids, rs, m) && m <= m' <= m'' <= |uids| + 1
    requires forall k | m - 1 <= k < m' - 1 :: uids[k] < r.lo
    requires m' <= |uids| ==> uids[m' - 1] >= r.lo
    requires forall k | m' - 1 <= k < m'' - 1 :: r.lo <= uids[k] <= r.hi
    requires m'' <= |uids| ==> !(r.lo <= uids[m'' - 1] <= r.hi)
    ensures Settled(uids, rs + [r], m'')
    ensures forall k | 0 <= k < m'' - 1 ::
      Marks(rs + [r], uids[k]) <==> (k < m - 1 && Marks(rs, uids[k])) || m' - 1 <= k
  {
    hide Beyond, Marks;
    forall k | 0 <= k < |uids|
      ensures Beyond(rs + [r], uids[k]) <==> m'' - 1 <= k
      ensures k < m'' - 1 ==> (Marks(rs + [r], uids[k]) <==> (k < m - 1 && Marks(rs, uids[k])) || m' - 1 <= k)
    {
      if k < m - 1 {
        ReachedStays(rs, [r], uids[k]);
      } else {
        MarksMore(rs, r, uids[k]);
        if m'' - 1 <= k {
          assert r.lo <= uids[m' - 1] <= uids[m'' - 1] <= uids[k];
        }
      }
    }
  }

  lemma FirstOutMore(uids: seq<nat>, rs: seq<Span>, r: Span, m: nat, m': nat, m'': nat, unseen: nat)
    requires FirstOut(uids, rs, m, unseen) && m <= m' <= m'' <= |uids| + 1 && m <= |uids|
    requires forall k | 0 <= k < m'' - 1 ::
      Marks(rs + [r], uids[k]) <==> (k < m - 1 && Marks(rs, uids[k])) || m' - 1 <= k
    requires forall k | m - 1 <= k < m' - 1 :: uids[k] < r.lo
    requires m' <= |uids| ==> uids[m' - 1] >= r.lo
    ensures FirstOut(uids, rs + [r], m'', if unseen == 0 && uids[m - 1] < r.lo then m else unseen)
  {
    hide Marks;
    if unseen == 0 && uids[m - 1] < r.lo {
      assert m < m';
    } else if unseen == 0 {
      assert m == m';
    }
  }

  /** All ranges that matter are read. */
  lemma RangesEnd(uids: seq<nat>, rs: seq<Span>, more: seq<Span>, m: nat, unseen: nat)
    requires Settled(uids, rs, m) && FirstOut(uids, rs, m, unseen) && (more == [] || m == |uids| + 1)
    ensures Settled(uids, rs + more, m) && Fresh(uids, rs + more) == |uids| + 1 - m
    ensures forall k | 0 <= k < |uids| :: Marks(rs + more, uids[k]) <==> k < m - 1 && Marks(rs, uids[k])
    ensures FirstOut(uids, rs + more, |uids| + 1, if unseen == 0 && m <= |uids| then m else unseen)
  {
    hide Beyond, Marks;
    forall k | 0 <= k < |uids|
      ensures Beyond(rs + more, uids[k]) <==> m - 1 <= k
      ensures Marks(rs + more, uids[k]) <==> k < m - 1 && Marks(rs, uids[k])
    {
      if k < m - 1 {
        ReachedStays(rs, more, uids[k]);
      } else {
        assert rs + more == rs;
        MarksMore(rs, Span(0, 0), uids[k]);
      }
    }
    FreshCount(uids, rs + more, m);
  }

  lemma {:induction false} FreshCount(uids: seq<nat>, rs: seq<Span>, m: nat)
    requires Settled(uids, rs, m)
    ensures Fresh(uids, rs) == |uids| + 1 - m
  {
    hide Beyond;
    if uids != [] {
      assert Beyond(rs, uids[0]) <==> m == 1;
      forall k | 0 <= k < |uids[1..]|
        ensures Beyond(rs, uids[1..][k]) <==> (if m == 1 then 1 else m - 1) - 1 <= k
      {
        assert uids[1..][k] == uids[k + 1];
      }
      FreshCount(uids[1..], rs, if m == 1 then 1 else m - 1);
    }
  }

  /** The range loop of newsrc_read: of any line the first range that reaches an
      article decides whether it gets deleted, and the articles that none reaches are
      recent; also the first that is not seen. */
  method Read(s: Stream, line: string) returns (recent: nat, unseen: nat)
    requires MapKnown(s)
    modifies s.elts`valid, s.elts`deleted, s.elts`recent
    ensures MapKnown(s) && s.State() == old(s.State())
    ensures var uids, rs := s.State().known, RangesOf(Unspaced(line));
      && (forall k | 0 <= k < s.nmsgs ::
            && IsValid(s, k)
            && (Deleted(s, k) <==> old(Deleted(s, k)) || Marks(rs, uids[k]))
            && (IsRecent(s, k) <==> old(IsRecent(s, k)) || Beyond(rs, uids[k])))
      && recent == Fresh(uids, rs) && FirstOut(uids, rs, s.nmsgs + 1, unseen)
  {
    hide Stream.State, Stream.Valid, Mapped, IsValid, Deleted, IsRecent, Marks, Beyond, Settled, FirstOut, Fresh;
    hide RangesOf, FirstRange, ReadSpan, Unspaced;
    ghost var uids, rs, done := s.State().known, RangesOf(Unspaced(line)), [];
    var t := SkipBlanks(line);
    var m, open := 1, true;
    unseen := 0;
    SettleStart(uids);
    while open && m <= s.nmsgs
      invariant 1 <= m <= s.nmsgs + 1 && MapKnown(s) && s.State() == old(s.State())
      invariant rs == done + if open then RangesOf(t) else []
      invariant Settled(uids, done, m) && FirstOut(uids, done, m, unseen)
      invariant forall k | 0 <= k < s.nmsgs ::
        && (k < m - 1 ==> IsValid(s, k))
        && (Deleted(s, k) <==> old(Deleted(s, k)) || (k < m - 1 && Marks(done, uids[k])))
        && (IsRecent(s, k) <==> old(IsRecent(s, k)))
      decreases if open then |t| + 1 else 0
    {
      RangesFirst(t, done);
      if t != "" && IsDigit(t[0]) {
        ghost var m0, unseen0 := m, unseen;
        var i, j, rest := TakeSpan(t);
        t := rest;
        var uid := Uid(s, m);
        if unseen == 0 && uid < i {
          unseen := m;
        }
        ghost var m';
        m, m' := MarkSpan(s, m, i, j);
        ghost var r := Span(i, if j == 0 then i else j);
        SettleMore(uids, done, r, m0, m', m);
        FirstOutMore(uids, done, r, m0, m', m, unseen0);
        done := done + [r];
      }
      if t != "" && t[0] == ',' {
        t := t[1..];
      } else {
        open := false;
      }
    }
    RangesEnd(uids, done, if open then RangesOf(t) else [], m, unseen);
    if m <= s.nmsgs && unseen == 0 {
      unseen := m;
    }
    recent := MarkRecent(s, m);
    SettledMeans(uids, rs, m);
  }

  lemma SettledMeans(uids: seq<nat>, rs: seq<Span>, m: nat)
    requires Settled(uids, rs, m)
    ensures 1 <= m <= |uids| + 1 && forall k | 0 <= k < |uids| :: Beyond(rs, uids[k]) <==> m - 1 <= k
  {
  }

  lemma SettleStart(uids: seq<nat>)
    requires Mapped(uids)
    ensures Settled(uids, [], 1) && FirstOut(uids, [], 1, 0)
  {
  }

  /** The ranges of a text after its first. */
  lemma RangesFirst(t: string, done: seq<Span>)
    ensures if t != "" && IsDigit(t[0]) then
        var (i, j, rest) := ReadSpan(t);
        var more := done + [Span(i, if j == 0 then i else j)];
        && |rest| <= |t|
        && done + RangesOf(t) == more + if rest != "" && rest[0] == ',' then RangesOf(rest[1..]) else []
      else done + RangesOf(t) == done + if t != "" && t[0] == ',' then RangesOf(t[1..]) else []
  {
    hide ReadSpan, RangesOf;
    RangesAre(t);
    var (first, rest) := FirstRange(t);
    Assoc(done, first, if rest != "" && rest[0] == ',' then RangesOf(rest[1..]) else []);
    assert first == [] ==> done + first == done;
  }

  lemma RangesAre(t: string)
    ensures var (first, rest) := FirstRange(t);
      RangesOf(t) == first + if rest != "" && rest[0] == ',' then RangesOf(rest[1..]) else []
  {
    hide FirstRange;
  }

  // ---- Lines that were written ----

  /** A written text is read as its ranges. */
  lemma {:induction false} RangesWritten(rs: seq<Span>, tail: string)
    requires Ordered(rs) && EndsLine(tail)
    ensures RangesOf(Join(rs) + tail) == rs
  {
    hide RangesOf, FirstRange, Join;
    RangesAre(Join(rs) + tail);
    FirstWritten(rs, tail);
    if |rs| > 1 {
      RangesWritten(rs[1..], tail);
      assert Rest(rs, tail)[1..] == Join(rs[1..]) + tail;
    }
    assert rs != [] ==> [rs[0]] + rs[1..] == rs;
  }

  lemma FirstWritten(rs: seq<Span>, tail: string)
    requires Ordered(rs) && EndsLine(tail)
    ensures FirstRange(Join(rs) + tail) == if rs == [] then ([], tail) else ([rs[0]], Rest(rs, tail))
  {
    hide ReadSpan, Join;
    JoinStart(rs, tail);
    if rs != [] {
      JoinFirst(rs, tail);
    }
  }

  /** Ordered ranges mark exactly the articles in them, and reach those up to the
      last. */
  lemma OrderedMarks(rs: seq<Span>, u: nat)
    requires Ordered(rs)
    ensures Marks(rs, u) <==> In(rs, u)
    ensures Beyond(rs, u) <==> u > TopOf(rs) || rs == []
  {
    BelowTop(rs);
    if In(rs, u) {
      var n :| 0 <= n < |rs| && rs[n].lo <= u <= rs[n].hi;
      forall r <- rs[..n]
        ensures Reach(r) < u
      {
        var i :| 0 <= i < n && rs[i] == r;
      }
    }
    if rs != [] {
      assert rs[|rs| - 1] in rs;
      forall r <- rs
        ensures Reach(r) <= TopOf(rs)
      {
        var i :| 0 <= i < |rs| && rs[i] == r;
      }
    }
  }

  lemma {:induction false} OrderedFresh(uids: seq<nat>, rs: seq<Span>)
    requires Ordered(rs) && forall k | 0 <= k < |uids| :: uids[k] > 0
    ensures Fresh(uids, rs) == Above(uids, TopOf(rs))
  {
    if uids != [] {
      hide Ordered, Beyond;
      OrderedMarks(rs, uids[0]);
      OrderedFresh(uids[1..], rs);
    }
  }

  /** On a written line the articles in the ranges are marked, and those above all of
      them are recent. */
  lemma WrittenLine(line: string, rs: seq<Span>, tail: string, uids: seq<nat>)
    requires Holds(line, rs, tail) && Mapped(uids)
    ensures RangesOf(Unspaced(line)) == rs && Fresh(uids, rs) == Above(uids, TopOf(rs))
    ensures forall k | 0 <= k < |uids| ::
      (Marks(rs, uids[k]) <==> In(rs, uids[k])) && (Beyond(rs, uids[k]) <==> uids[k] > TopOf(rs))
  {
    hide Marks, Beyond, In, Ordered, RangesOf, Unspaced, Join;
    LineStart(line, rs, tail);
    RangesWritten(rs, tail);
    OrderedFresh(uids, rs);
    forall k | 0 <= k < |uids|
      ensures (Marks(rs, uids[k]) <==> In(rs, uids[k])) && (Beyond(rs, uids[k]) <==> uids[k] > TopOf(rs))
    {
      OrderedMarks(rs, uids[k]);
    }
  }

  lemma SpanShorter(t: string)
    ensures |ReadSpan(t).2| <= |t|
  {
  }

  // ---- Counting ----

  lemma Decide(rs: seq<Span>, done: seq<Span>, uid: nat)
    requires Ordered(rs) && |done| < |rs| && done == rs[..|done|] && uid > TopOf(done)
    ensures var r := rs[|done|];
      && (uid <= r.hi ==> uid <= TopOf(rs) && (In(rs, uid) <==> r.lo <= uid))
      && (uid > r.hi ==> uid > TopOf(done + [r]))
  {
    var r := rs[|done|];
    assert rs[..|done| + 1] == done + [r];
    OrderedPart(rs, |done| + 1);
    OrderedPart(rs, |done|);
    BelowTop(done);
    InMore(done, r, uid);
  }

  lemma ReadingStart(rs: seq<Span>, tail: string, t: string)
    requires t == Join(rs) + tail
    ensures Reading(rs, tail, [], t, true)
  {
    assert rs[0..] == rs;
  }

  lemma ReadingText(rs: seq<Span>, done: seq<Span>, t: string)
    requires Reading(rs, "", done, t, true)
    ensures t == "" ==> done == rs
    ensures t != "" ==> IsDigit(t[0])
    ensures |done| <= |rs| && done == rs[..|done|]
  {
    JoinStart(rs[|done|..], "");
  }

  lemma ReadingClosed(rs: seq<Span>, done: seq<Span>)
    requires Reading(rs, "", done, "", false)
    ensures Reading(rs, "", done, "", true)
  {
    assert rs[|rs|..] == [];
  }

  /** newsrc_check_uid: adds the article to the counts of recent and of unseen ones. */
  method CheckUid(state: string, uid: nat, recent: nat, unseen: nat, ghost rs: seq<Span>)
    returns (recent': nat, unseen': nat)
    ensures uid > 0 && Ordered(rs) && state == Join(rs) ==>
      && recent' == recent + (if uid > TopOf(rs) then 1 else 0)
      && unseen' == unseen + (if In(rs, uid) then 0 else 1)
  {
    hide In, Reading, ReadSpan, Ordered, Join;
    ghost var done, good := [], uid > 0 && Ordered(rs) && state == Join(rs);
    var t := state;
    if good {
      assert state + "" == state;
      ReadingStart(rs, "", t);
    }
    while t != ""
      invariant good ==> Reading(rs, "", done, t, true) && uid > TopOf(done)
      decreases |t|
    {
      SpanShorter(t);
      var i, j, rest := TakeSpan(t);
      if j == 0 {
        j := i;
      }
      if good {
        ReadingText(rs, done, t);
        ReadingFirst(rs, "", done, t);
        Decide(rs, done, uid);
        done := done + [rs[|done|]];
        if rest == "" {
          ReadingClosed(rs, done);
        }
      }
      if j < i {
        return recent, unseen;
      }
      if rest != "" && rest[0] == ',' {
        rest := rest[1..];
      } else if rest != "" {
        return recent, unseen;
      }
      if uid <= j {
        return recent, if uid < i then unseen + 1 else unseen;
      }
      t := rest;
    }
    if good {
      ReadingText(rs, done, t);
      BelowTop(rs);
    }
    return recent + 1, unseen + 1;
  }

  predicate InLine(c: char) {
    c != '\r' && c != '\n'
  }

  lemma DecimalInLine(n: nat)
    ensures forall i | 0 <= i < |Decimal(n)| :: InLine(Decimal(n)[i])
  {
    DecimalValue(n);
  }

  lemma {:induction false} JoinInLine(rs: seq<Span>)
    ensures forall i | 0 <= i < |Join(rs)| :: InLine(Join(rs)[i])
  {
    if rs != [] {
      DecimalInLine(rs[0].lo);
      DecimalInLine(rs[0].hi);
      JoinInLine(rs[1..]);
    }
  }

  /** newsrc_state: the state without the blanks before it and the newline. */
  method StateOf(line: string, ghost rs: seq<Span>, ghost tail: string) returns (state: string)
    ensures Holds(line, rs, tail) ==> state == Join(rs)
  {
    var t := SkipBlanks(line);
    var size := 0;
    while size < |t| && t[size] != '\r' && t[size] != '\n'
      invariant size <= |t| && forall i | 0 <= i < size :: InLine(t[i])
    {
      size := size + 1;
    }
    state := t[..size];
    if Holds(line, rs, tail) {
      LineStart(line, rs, tail);
      JoinInLine(rs);
      var j := Join(rs);
      assert forall i | 0 <= i < |j| :: InLine(t[i]);
      assert |j| < |t| ==> t[|j|] == tail[0];
    }
  }

  /** The counts for a list of articles. */
  method Count(state: string, uids: seq<nat>, ghost rs: seq<Span>) returns (recent: nat, unseen: nat)
    ensures Mapped(uids) && Ordered(rs) && state == Join(rs) ==>
      recent == Above(uids, TopOf(rs)) && unseen == Unread(uids, rs)
  {
    hide In, Ordered, Join;
    ghost var good := Mapped(uids) && Ordered(rs) && state == Join(rs);
    recent, unseen := 0, 0;
    var n := 0;
    while n < |uids|
      invariant n <= |uids|
      invariant good ==> recent + Above(uids[n..], TopOf(rs)) == Above(uids, TopOf(rs))
      invariant good ==> unseen + Unread(uids[n..], rs) == Unread(uids, rs)
    {
      assert uids[n..][0] == uids[n] && uids[n..][1..] == uids[n + 1..];
      recent, unseen := CheckUid(state, uids[n], recent, unseen, rs);
      n := n + 1;
    }
  }

  ghost function Undeleted(del: seq<bool>): nat {
    if del == [] then 0 else (if del[0] then 0 else 1) + Undeleted(del[1..])
  }

  lemma {:induction false} UnreadAreUndeleted(uids: seq<nat>, rs: seq<Span>, del: seq<bool>)
    requires |uids| == |del| && forall k | 0 <= k < |uids| :: In(rs, uids[k]) <==> del[k]
    ensures Unread(uids, rs) == Undeleted(del)
  {
    if uids != [] {
      UnreadAreUndeleted(uids[1..], rs, del[1..]);
    }
  }

  /** What is written for a stream, read for another with the same articles and no
      flags, gives it the same deleted messages. */
  method RoundTrip(s: Stream, nl: string, s': Stream) returns (text: string, recent: nat, ghost rs: seq<Span>)
    requires MapKnown(s) && MapKnown(s') && s'.State().known == s.State().known && Words(s.State().known)
    requires EndsLine(nl) && s.elts !! s'.elts
    requires forall k | 0 <= k < s'.nmsgs :: !Deleted(s', k) && !IsRecent(s', k)
    modifies s'.elts`valid, s'.elts`deleted, s'.elts`recent
    ensures MapKnown(s') && s'.State() == old(s'.State()) && Holds(text, rs, nl)
    ensures Exactly(s'.State().known, old(Deletions(s)), rs)
    ensures forall k | 0 <= k < s'.nmsgs :: Deleted(s', k) <==> old(Deletions(s))[k]
    ensures forall k | 0 <= k < s'.nmsgs :: IsRecent(s', k) <==> s'.State().known[k] > TopOf(rs)
    ensures recent == Above(s'.State().known, TopOf(rs))
  {
    hide Stream.State, Stream.Valid, Mapped, Words, IsValid, Deleted, IsRecent, In, Ordered, Line, Join, FirstOut;
    hide Exactly, Marks, Beyond, Fresh, RangesOf, Unspaced;
    text, rs := NewMessages(s, nl);
    ExactlyMessages(s.State().known, Deletions(s), rs);
    var unseen;
    WrittenLine(text, rs, nl, s'.State().known);
    recent, unseen := Read(s', text);
  }

  /** The counts made from the text: the recent messages and those not deleted. */
  method CountText(uids: seq<nat>, text: string, ghost nl: string, ghost rs: seq<Span>, ghost del: seq<bool>)
    returns (recent: nat, unseen: nat)
    requires Mapped(uids) && |del| == |uids| && Exactly(uids, del, rs) && Holds(text, rs, nl)
    ensures recent == Above(uids, TopOf(rs)) && unseen == Undeleted(del)
  {
    hide Mapped, In, Ordered, Line, Join, Exactly;
    ExactlyMessages(uids, del, rs);
    var state := StateOf(text, rs, nl);
    recent, unseen := Count(state, uids, rs);
    UnreadAreUndeleted(uids, rs, del);
  }

  /** What the ranges cover: the articles that are deleted, those missing before the
      first that is there or after a deleted one, and none after the last. */
  lemma ExactlyMeans(uids: seq<nat>, del: seq<bool>, rs: seq<Span>, k: nat, u: nat)
    requires Mapped(uids) && |del| == |uids| && Exactly(uids, del, rs) && k < |uids|
    ensures u == uids[k] ==> (In(rs, u) <==> del[k])
    ensures k > 0 && uids[k - 1] < u < uids[k] ==> (In(rs, u) <==> del[k - 1])
    ensures 0 < u < uids[0] ==> In(rs, u)
    ensures u == 0 || u > uids[|uids| - 1] ==> !In(rs, u)
  {
    hide In, Ordered, Separate;
    if 0 < u <= uids[k] && (if k == 0 then 0 else uids[k - 1]) < u {
      GoneBetween(uids, del, k, u);
    }
    if 0 < u < uids[0] {
      GoneBetween(uids, del, 0, u);
    }
  }

  lemma ExactlyMessages(uids: seq<nat>, del: seq<bool>, rs: seq<Span>)
    requires Mapped(uids) && |del| == |uids| && Exactly(uids, del, rs)
    ensures Ordered(rs) && forall k | 0 <= k < |uids| :: In(rs, uids[k]) <==> del[k]
  {
    forall k | 0 <= k < |uids|
      ensures In(rs, uids[k]) <==> del[k]
    {
      GoneMessage(uids, del, k);
    }
  }
}
