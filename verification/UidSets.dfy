/** UIDs of a stream whose whole map is known: the binary search for one and the
    sequences of them that a caller writes. */
module UidSets {
  import opened Texts
  import opened MessageCache

  /** A full map of UIDs: none is missing, and they ascend. */
  ghost predicate Mapped(uids: seq<nat>) {
    && (forall k | 0 <= k < |uids| :: uids[k] > 0)
    && (forall j, k | 0 <= j < k < |uids| :: uids[j] < uids[k])
  }

  ghost predicate MapKnown(s: Stream)
    reads s, s.cache, s.elts
  {
    s.Valid() && Mapped(s.State().known)
  }

  /** mail_uid where the cache knows. */
  method Uid(s: Stream, msgno: nat) returns (uid: nat)
    requires MapKnown(s) && 1 <= msgno <= s.nmsgs
    ensures uid == s.State().known[msgno - 1] && uid > 0
  {
    hide Stream.State;
    assert s.State().known[msgno - 1] == s.Known(msgno - 1);
    uid := s.cache[msgno - 1].uid;
  }

  /** mail_msgno by binary search: the message with the UID, or 0 if there is none. */
  method MsgnoOf(s: Stream, uid: nat) returns (msgno: nat)
    requires MapKnown(s)
    ensures msgno == 0 <==> uid !in s.State().known
    ensures msgno > 0 ==> msgno <= s.nmsgs && s.State().known[msgno - 1] == uid
  {
    hide Stream.State, Stream.Valid, Mapped;
    ghost var uids := s.State().known;
    assert MapKnown(s);
    hide MapKnown, Lies;
    LiesSomewhere(uids, uid);
    var first: nat, last: nat := 1, s.nmsgs;
    var delta := if first <= last then 1 else 0;
    while delta != 0
      invariant 1 <= first && last <= |uids| && (delta != 0 ==> first <= last)
      invariant Lies(uids, uid, 1, |uids|) ==> delta != 0 && Lies(uids, uid, first, last)
      decreases if delta == 0 then 0 else last - first + 1
    {
      EndsDecide(uids, uid, first, last);
      var firstuid := Uid(s, first);
      if uid < firstuid {
        return 0;
      }
      var lastuid := Uid(s, last);
      if uid > lastuid {
        return 0;
      }
      if uid == firstuid {
        return first;
      }
      if uid == lastuid {
        return last;
      }
      delta := (last - first) / 2;
      if delta != 0 {
        var middle := first + delta;
        var miduid := Uid(s, middle);
        if miduid == uid {
          return middle;
        } else if uid < miduid {
          Below(uids, uid, first, last, middle);
          last := middle - 1;
        } else {
          Above(uids, uid, first, last, middle);
          first := middle + 1;
        }
      }
    }
    msgno := 0;
  }

  /** The UID is that of a message from `first` to `last`. */
  ghost predicate Lies(uids: seq<nat>, uid: nat, first: nat, last: nat) {
    1 <= first && last <= |uids| && exists k | first - 1 <= k < last :: uids[k] == uid
  }

  lemma LiesSomewhere(uids: seq<nat>, uid: nat)
    ensures Lies(uids, uid, 1, |uids|) <==> uid in uids
  {
  }

  lemma EndsDecide(uids: seq<nat>, uid: nat, first: nat, last: nat)
    requires Mapped(uids) && 1 <= first <= last <= |uids|
    ensures uid < uids[first - 1] || uid > uids[last - 1] ==> !Lies(uids, uid, first, last)
    ensures uid != uids[first - 1] && uid != uids[last - 1] && last <= first + 1 ==> !Lies(uids, uid, first, last)
  {
  }

  lemma Below(uids: seq<nat>, uid: nat, first: nat, last: nat, middle: nat)
    requires Mapped(uids) && 1 <= first <= middle <= last <= |uids| && uid < uids[middle - 1]
    ensures Lies(uids, uid, first, last) ==> Lies(uids, uid, first, middle - 1)
  {
  }

  lemma Above(uids: seq<nat>, uid: nat, first: nat, last: nat, middle: nat)
    requires Mapped(uids) && 1 <= first <= middle <= last <= |uids| && uid > uids[middle - 1]
    ensures Lies(uids, uid, first, last) ==> Lies(uids, uid, middle + 1, last)
  {
  }

  // ---- Lighting messages ----

  /** The message has its sequence bit. */
  ghost predicate Lit(s: Stream, k: nat)
    reads s, s.cache, s.elts
  {
    k < s.cache.Length && s.cache[k] != null && s.cache[k] in s.elts && s.cache[k].sequence
  }

  /** Gives one message its sequence bit. */
  method Light(s: Stream, msgno: nat)
    requires MapKnown(s) && 1 <= msgno <= s.nmsgs
    modifies s.elts`sequence
    ensures MapKnown(s) && s.State() == old(s.State())
    ensures forall k | 0 <= k < s.nmsgs :: Lit(s, k) <==> old(Lit(s, k)) || k == msgno - 1
  {
    assert s.State().known[msgno - 1] > 0;
    s.cache[msgno - 1].sequence := true;
    assert s.State().known == old(s.State().known);
  }

  /** Both ends are there. */
  method LightSpan(s: Stream, first: nat, y: nat)
    requires MapKnown(s) && 1 <= first && y <= s.nmsgs
    modifies s.elts`sequence
    ensures MapKnown(s) && s.State() == old(s.State())
    ensures forall k | 0 <= k < s.nmsgs :: Lit(s, k) <==> old(Lit(s, k)) || first <= k + 1 <= y
  {
    hide Stream.State, Lit;
    var x := first;
    while x <= y
      invariant first <= x && MapKnown(s) && s.State() == old(s.State())
      invariant forall k | 0 <= k < s.nmsgs :: Lit(s, k) <==> old(Lit(s, k)) || first <= k + 1 <= Lesser(x - 1, y)
    {
      Light(s, x);
      x := x + 1;
    }
  }

  /** The start is there, the end is not. */
  method LightFrom(s: Stream, first: nat, j: nat)
    requires MapKnown(s) && 1 <= first <= s.nmsgs
    modifies s.elts`sequence
    ensures MapKnown(s) && s.State() == old(s.State())
    ensures forall k | 0 <= k < s.nmsgs :: Lit(s, k) <==> old(Lit(s, k)) || (first <= k + 1 && s.State().known[k] <= j)
  {
    hide Stream.State, Stream.Valid, Lit;
    var x := first;
    ghost var uids := s.State().known;
    while x <= s.nmsgs
      invariant first <= x <= s.nmsgs + 1 && MapKnown(s) && s.State() == old(s.State())
      invariant forall k | first <= k + 1 < x :: uids[k] <= j
      invariant forall k | 0 <= k < s.nmsgs :: Lit(s, k) <==> old(Lit(s, k)) || first <= k + 1 < x
    {
      var uid := Uid(s, x);
      if uid > j {
        break;
      }
      Light(s, x);
      x := x + 1;
    }
  }

  /** The end is there, the start is not. */
  method LightTo(s: Stream, y: nat, i: nat)
    requires MapKnown(s) && y <= s.nmsgs
    modifies s.elts`sequence
    ensures MapKnown(s) && s.State() == old(s.State())
    ensures forall k | 0 <= k < s.nmsgs :: Lit(s, k) <==> old(Lit(s, k)) || (k < y && i <= s.State().known[k])
  {
    hide Stream.State, Stream.Valid, Lit;
    ghost var uids := s.State().known;
    for x := 1 to y + 1
      invariant MapKnown(s) && s.State() == old(s.State())
      invariant forall k | 0 <= k < s.nmsgs :: Lit(s, k) <==> old(Lit(s, k)) || (k < x - 1 && i <= uids[k])
    {
      var uid := Uid(s, x);
      if uid >= i {
        Light(s, x);
      }
    }
  }

  /** Neither end is there. */
  method LightBetween(s: Stream, i: nat, j: nat)
    requires MapKnown(s)
    modifies s.elts`sequence
    ensures MapKnown(s) && s.State() == old(s.State())
    ensures forall k | 0 <= k < s.nmsgs :: Lit(s, k) <==> old(Lit(s, k)) || i <= s.State().known[k] <= j
  {
    hide Stream.State, Stream.Valid, Lit;
    ghost var uids := s.State().known;
    for x := 1 to s.nmsgs + 1
      invariant MapKnown(s) && s.State() == old(s.State())
      invariant forall k | 0 <= k < s.nmsgs :: Lit(s, k) <==> old(Lit(s, k)) || (k < x - 1 && i <= uids[k] <= j)
    {
      var uid := Uid(s, x);
      if uid >= i && uid <= j {
        Light(s, x);
      }
    }
  }

  function Lesser(a: int, b: int): int {
    if a < b then a else b
  }

  /** A range of UIDs in any order, whether or not its ends are there. */
  method LightRange(s: Stream, a: nat, b: nat)
    requires MapKnown(s)
    modifies s.elts`sequence
    ensures MapKnown(s) && s.State() == old(s.State())
    ensures forall k | 0 <= k < s.nmsgs :: Lit(s, k) <==> old(Lit(s, k)) || Covers(Between(a, b), s.State().known[k])
  {
    hide Stream.State, Stream.Valid, Lit, Covers, Mapped;
    var i, j := a, b;
    if i > j {
      i, j := j, i;
    }
    CoversMeans(a, b);
    ghost var uids := s.State().known;
    assert Mapped(uids);
    var x := MsgnoOf(s, i);
    var y := MsgnoOf(s, j);
    if x != 0 && y != 0 {
      EndsCover(uids, i, j, x, y);
      LightSpan(s, x, y);
    } else if x != 0 {
      StartCovers(uids, i, x);
      LightFrom(s, x, j);
    } else if y != 0 {
      EndCovers(uids, j, y);
      LightTo(s, y, i);
    } else {
      LightBetween(s, i, j);
    }
  }

  lemma StartCovers(uids: seq<nat>, i: nat, x: nat)
    requires Mapped(uids) && 1 <= x <= |uids| && uids[x - 1] == i
    ensures forall k | 0 <= k < |uids| :: x <= k + 1 <==> i <= uids[k]
  {
  }

  lemma EndCovers(uids: seq<nat>, j: nat, y: nat)
    requires Mapped(uids) && 1 <= y <= |uids| && uids[y - 1] == j
    ensures forall k | 0 <= k < |uids| :: k < y <==> uids[k] <= j
  {
  }

  lemma EndsCover(uids: seq<nat>, i: nat, j: nat, x: nat, y: nat)
    requires Mapped(uids) && 1 <= x <= |uids| && uids[x - 1] == i && 1 <= y <= |uids| && uids[y - 1] == j
    ensures forall k | 0 <= k < |uids| :: x <= k + 1 <= y <==> i <= uids[k] <= j
  {
    StartCovers(uids, i, x);
    EndCovers(uids, j, y);
  }

  lemma CoversMeans(a: nat, b: nat)
    ensures forall uid: nat {:trigger Covers(Between(a, b), uid)} ::
      Covers(Between(a, b), uid) <==> (if a <= b then a <= uid <= b else b <= uid <= a)
  {
  }

  // ---- The text of a sequence ----

  /** One part of a sequence: a UID, or a range in either order. */
  datatype Part = Only(uid: nat) | Between(from: nat, to: nat)

  predicate Covers(p: Part, uid: nat) {
    match p
    case Only(u) => uid == u
    case Between(a, b) => a <= uid <= b || b <= uid <= a
  }

  /** An end of a range: '*' or a number that is not zero. */
  function ReadEnd(t: string, top: nat): (r: Parsed<nat>)
    ensures r.Read? ==> |r.rest| < |t|
  {
    if t != "" && t[0] == '*' then Read(top, t[1..])
    else if Strtoul(t).0 == 0 then Unread
    else Read(Strtoul(t).0, Strtoul(t).1)
  }

  /** The first part of a sequence and what follows its comma. */
  function ReadPart(t: string, top: nat): (r: Parsed<Part>)
    ensures r.Read? ==> |r.rest| < |t|
  {
    if t == "" || (t[0] != '*' && !IsDigit(t[0])) then Unread
    else
      match ReadEnd(t, top)
      case Unread => Unread
      case Read(i, rest) =>
        if rest == "" then Read(Only(i), "")
        else if rest[0] == ',' then Read(Only(i), rest[1..])
        else if rest[0] != ':' then Unread
        else
          match ReadEnd(rest[1..], top)
          case Unread => Unread
          case Read(j, rest') =>
            if rest' == "" then Read(Between(i, j), "")
            else if rest'[0] == ',' then Read(Between(i, j), rest'[1..])
            else Unread
  }

  /** The parts before the first error, and whether there is none. */
  function ReadParts(t: string, top: nat): (r: (seq<Part>, bool))
    decreases |t|
  {
    if t == "" then ([], true)
    else
      match ReadPart(t, top)
      case Unread => ([], false)
      case Read(p, rest) =>
        var more := ReadParts(rest, top);
        ([p] + more.0, more.1)
  }

  ghost predicate Covered(ps: seq<Part>, uid: nat) {
    exists i :: 0 <= i < |ps| && Covers(ps[i], uid)
  }

  /** What '*' stands for. */
  function Top(uids: seq<nat>, uidLast: nat): nat {
    if uids != [] then uids[|uids| - 1] else uidLast
  }

  /** '*' on the stream. */
  method StarUid(s: Stream, uidLast: nat) returns (uid: nat)
    requires MapKnown(s)
    ensures uid == Top(s.State().known, uidLast)
  {
    if s.nmsgs > 0 {
      uid := Uid(s, s.nmsgs);
    } else {
      uid := uidLast;
    }
  }

  /** Clears the sequence bits. */
  method Darken(s: Stream)
    requires MapKnown(s)
    modifies s.elts`sequence
    ensures MapKnown(s) && s.State() == old(s.State())
    ensures forall k | 0 <= k < s.nmsgs :: !Lit(s, k)
  {
    for i := 1 to s.nmsgs + 1
      invariant MapKnown(s) && s.State() == old(s.State())
      invariant forall k {:trigger s.cache[k]} | 0 <= k < i - 1 :: s.cache[k] != null && !s.cache[k].sequence
    {
      assert s.State().known[i - 1] > 0;
      s.cache[i - 1].sequence := false;
      assert s.State().known == old(s.State().known);
    }
  }

  method TakeEnd(s: Stream, t: string, uidLast: nat) returns (r: Parsed<nat>)
    requires MapKnown(s)
    ensures r == ReadEnd(t, Top(s.State().known, uidLast))
  {
    hide Stream.State, Stream.Valid, Strtoul;
    if t != "" && t[0] == '*' {
      var top := StarUid(s, uidLast);
      return Read(top, t[1..]);
    }
    var (n, rest) := Strtoul(t);
    r := if n == 0 then Unread else Read(n, rest);
  }

  method TakePart(s: Stream, t: string, uidLast: nat) returns (r: Parsed<Part>)
    requires MapKnown(s) && t != ""
    ensures r == ReadPart(t, Top(s.State().known, uidLast))
  {
    hide Stream.State, Stream.Valid, ReadEnd;
    if t[0] != '*' && !IsDigit(t[0]) {
      return Unread;
    }
    var a := TakeEnd(s, t, uidLast);
    if a.Unread? {
      return Unread;
    }
    if a.rest == "" {
      return Read(Only(a.value), "");
    } else if a.rest[0] == ',' {
      return Read(Only(a.value), a.rest[1..]);
    } else if a.rest[0] != ':' {
      return Unread;
    }
    var b := TakeEnd(s, a.rest[1..], uidLast);
    if b.Unread? || (b.rest != "" && b.rest[0] != ',') {
      return Unread;
    }
    r := Read(Between(a.value, b.value), if b.rest == "" then "" else b.rest[1..]);
  }

  method LightPart(s: Stream, p: Part)
    requires MapKnown(s)
    modifies s.elts`sequence
    ensures MapKnown(s) && s.State() == old(s.State())
    ensures forall k | 0 <= k < s.nmsgs :: Lit(s, k) <==> old(Lit(s, k)) || Covers(p, s.State().known[k])
  {
    hide Stream.State, Stream.Valid, Lit;
    match p
    case Between(i, j) =>
      LightRange(s, i, j);
    case Only(i) =>
      var x := MsgnoOf(s, i);
      OnlyOne(s.State().known, i, x);
      if x != 0 {
        Light(s, x);
      }
  }

  /** mail_uid_sequence: lights exactly the messages that the parts of the sequence
      before the first error cover, and fails exactly if there is one. */
  method UidSequence(s: Stream, sequence: string, uidLast: nat) returns (ok: bool)
    requires MapKnown(s)
    modifies s.elts`sequence
    ensures MapKnown(s) && s.State() == old(s.State())
    ensures ok == ReadParts(sequence, Top(s.State().known, uidLast)).1
    ensures forall k | 0 <= k < s.nmsgs ::
        Lit(s, k) <==> Covered(ReadParts(sequence, Top(s.State().known, uidLast)).0, s.State().known[k])
  {
    hide Stream.State, Stream.Valid, Lit, Covered, Covers, ReadPart;
    Darken(s);
    ghost var uids, done := s.State().known, [];
    ghost var top := Top(uids, uidLast);
    ghost var all := ReadParts(sequence, top);
    CoveredNone();
    assert [] + all.0 == all.0;
    var t := sequence;
    while t != ""
      invariant MapKnown(s) && s.State() == old(s.State())
      invariant done + ReadParts(t, top).0 == all.0 && ReadParts(t, top).1 == all.1
      invariant forall k | 0 <= k < s.nmsgs :: Lit(s, k) <==> Covered(done, uids[k])
      decreases |t|
    {
      var part := TakePart(s, t, uidLast);
      if part.Unread? {
        assert done + [] == done;
        return false;
      }
      CoveredMore(done, part.value);
      LightPart(s, part.value);
      assert done + ([part.value] + ReadParts(part.rest, top).0) == done + [part.value] + ReadParts(part.rest, top).0;
      done, t := done + [part.value], part.rest;
    }
    assert done + [] == done;
    ok := true;
  }

  lemma CoveredNone()
    ensures forall uid :: !Covered([], uid)
  {
  }

  lemma CoveredMore(ps: seq<Part>, p: Part)
    ensures forall uid :: Covered(ps + [p], uid) <==> Covered(ps, uid) || Covers(p, uid)
  {
    forall uid
      ensures Covered(ps + [p], uid) <==> Covered(ps, uid) || Covers(p, uid)
    {
      if Covered(ps, uid) {
        var i :| 0 <= i < |ps| && Covers(ps[i], uid);
        assert (ps + [p])[i] == ps[i];
      }
      if Covers(p, uid) {
        assert (ps + [p])[|ps|] == p;
      }
    }
  }

  lemma OnlyOne(uids: seq<nat>, uid: nat, x: nat)
    requires Mapped(uids) && (x == 0 <==> uid !in uids) && (x > 0 ==> x <= |uids| && uids[x - 1] == uid)
    ensures forall k | 0 <= k < |uids| :: uids[k] == uid <==> k == x - 1
  {
  }

  // ---- Sequences as RFC 3501 writes them ----

  /** A number, or '*'. */
  datatype Bound = Number(n: nat) | Star

  datatype Member = Single(bound: Bound) | Range(from: Bound, to: Bound)

  function PrintBound(b: Bound): string {
    match b
    case Number(n) => Decimal(n)
    case Star => "*"
  }

  function PrintMember(m: Member): string {
    match m
    case Single(b) => PrintBound(b)
    case Range(a, b) => PrintBound(a) + ":" + PrintBound(b)
  }

  function PrintMembers(ms: seq<Member>): string {
    if ms == [] then "" else if |ms| == 1 then PrintMember(ms[0]) else PrintMember(ms[0]) + "," + PrintMembers(ms[1..])
  }

  function UidOf(b: Bound, top: nat): nat {
    match b
    case Number(n) => n
    case Star => top
  }

  /** The UIDs that a member stands for. */
  predicate Means(m: Member, top: nat, uid: nat) {
    match m
    case Single(b) => uid == UidOf(b, top)
    case Range(a, b) =>
      var (i, j) := (UidOf(a, top), UidOf(b, top));
      (if i < j then i else j) <= uid <= (if i < j then j else i)
  }

  predicate BoundOk(b: Bound) {
    b.Star? || 0 < b.n <= ULONGMAX
  }

  predicate MemberOk(m: Member) {
    match m
    case Single(b) => BoundOk(b)
    case Range(a, b) => BoundOk(a) && BoundOk(b)
  }

  function PartOf(m: Member, top: nat): Part {
    match m
    case Single(b) => Only(UidOf(b, top))
    case Range(a, b) => Between(UidOf(a, top), UidOf(b, top))
  }

  function PartsOf(ms: seq<Member>, top: nat): seq<Part> {
    if ms == [] then [] else [PartOf(ms[0], top)] + PartsOf(ms[1..], top)
  }

  lemma EndRead(b: Bound, tail: string, top: nat)
    requires BoundOk(b) && (tail == "" || !IsDigit(tail[0]))
    ensures ReadEnd(PrintBound(b) + tail, top) == Read(UidOf(b, top), tail)
    ensures PrintBound(b) != "" && (PrintBound(b)[0] == '*' || IsDigit(PrintBound(b)[0]))
  {
    hide Strtoul;
    if b.Number? {
      DecimalValue(b.n);
      StrtoulRead(b.n, tail);
    } else {
      assert ("*" + tail)[1..] == tail;
    }
  }

  lemma PartRead(m: Member, tail: string, top: nat)
    requires MemberOk(m) && (tail == "" || tail[0] == ',')
    ensures ReadPart(PrintMember(m) + tail, top) == Read(PartOf(m, top), if tail == "" then "" else tail[1..])
  {
    hide ReadEnd, PrintBound;
    match m
    case Single(b) =>
      EndRead(b, tail, top);
    case Range(a, b) =>
      var rest := ":" + PrintBound(b) + tail;
      EndRead(a, rest, top);
      EndRead(b, tail, top);
      assert PrintMember(m) + tail == PrintBound(a) + rest;
      assert rest[1..] == PrintBound(b) + tail;
  }

  /** Sequences are read as they are written. */
  lemma {:induction false} PartsRead(ms: seq<Member>, top: nat)
    requires forall m <- ms :: MemberOk(m)
    ensures ReadParts(PrintMembers(ms), top) == (PartsOf(ms, top), true)
  {
    hide ReadPart, PrintMember;
    if ms != [] {
      PartsRead(ms[1..], top);
      var tail := if |ms| == 1 then "" else "," + PrintMembers(ms[1..]);
      PartRead(ms[0], tail, top);
      assert PrintMembers(ms) == PrintMember(ms[0]) + tail;
      assert |ms| > 1 ==> tail[1..] == PrintMembers(ms[1..]);
    }
  }

  /** A sequence as text, and what it stands for. */
  lemma SequenceSpelled(a: nat, b: nat, c: nat, top: nat, uid: nat)
    requires 0 < a <= ULONGMAX && 0 < b <= ULONGMAX && 0 < c <= ULONGMAX
    ensures var (ps, ok) := ReadParts(Decimal(a) + "," + Decimal(b) + ":" + Decimal(c), top);
      ok && (Covered(ps, uid) <==> uid == a || b <= uid <= c || c <= uid <= b)
    ensures var (ps, ok) := ReadParts("*" + "," + Decimal(b) + ":" + "*", top);
      ok && (Covered(ps, uid) <==> uid == top || b <= uid <= top || top <= uid <= b)
  {
    ReadTwo(Number(a), Number(b), Number(c), top, uid);
    ReadTwo(Star, Number(b), Star, top, uid);
    TwoSpelled(PrintBound(Number(a)), PrintBound(Number(b)), PrintBound(Number(c)));
    TwoSpelled(PrintBound(Star), PrintBound(Number(b)), PrintBound(Star));
    hide ReadParts, Covered, Decimal;
  }

  lemma TwoSpelled(a: string, b: string, c: string)
    ensures a + "," + (b + ":" + c) == a + "," + b + ":" + c
  {
  }

  lemma ReadTwo(a: Bound, b: Bound, c: Bound, top: nat, uid: nat)
    requires BoundOk(a) && BoundOk(b) && BoundOk(c)
    ensures var (ps, ok) := ReadParts(PrintBound(a) + "," + (PrintBound(b) + ":" + PrintBound(c)), top);
      var (x, y, z) := (UidOf(a, top), UidOf(b, top), UidOf(c, top));
      ok && (Covered(ps, uid) <==> uid == x || y <= uid <= z || z <= uid <= y)
  {
    hide ReadParts, PrintBound, UidOf;
    var ms := [Single(a), Range(b, c)];
    assert ms[1..] == [Range(b, c)];
    PartsRead(ms, top);
    PartsAt(ms, top);
    var ps := PartsOf(ms, top);
    assert ps[0] == PartOf(ms[0], top) && ps[1] == PartOf(ms[1], top);
    assert Covered(ps, uid) <==> Covers(ps[0], uid) || Covers(ps[1], uid);
  }

  /** A written sequence covers the union of what its members mean. */
  lemma CoveredMeans(ms: seq<Member>, top: nat, uid: nat)
    ensures Covered(PartsOf(ms, top), uid) <==> exists m <- ms :: Means(m, top, uid)
  {
    PartsAt(ms, top);
    forall i | 0 <= i < |ms|
      ensures Covers(PartsOf(ms, top)[i], uid) <==> Means(ms[i], top, uid)
    {
    }
  }

  lemma {:induction false} PartsAt(ms: seq<Member>, top: nat)
    ensures |PartsOf(ms, top)| == |ms| && forall i | 0 <= i < |ms| :: PartsOf(ms, top)[i] == PartOf(ms[i], top)
  {
    if ms != [] {
      PartsAt(ms[1..], top);
    }
  }

  /** On a valid sequence mail_uid_sequence succeeds and lights exactly the messages
      in the union of its members. */
  method LightMembers(s: Stream, ms: seq<Member>, uidLast: nat) returns (ok: bool)
    requires MapKnown(s) && forall m <- ms :: MemberOk(m)
    modifies s.elts`sequence
    ensures ok && MapKnown(s) && s.State() == old(s.State())
    ensures var uids := s.State().known;
      forall k | 0 <= k < s.nmsgs :: Lit(s, k) <==> exists m <- ms :: Means(m, Top(uids, uidLast), uids[k])
  {
    hide Stream.State, Stream.Valid, Lit, Covered, Means;
    ok := UidSequence(s, PrintMembers(ms), uidLast);
    ghost var uids := s.State().known;
    PartsRead(ms, Top(uids, uidLast));
    forall k | 0 <= k < s.nmsgs
      ensures Lit(s, k) <==> exists m <- ms :: Means(m, Top(uids, uidLast), uids[k])
    {
      CoveredMeans(ms, Top(uids, uidLast), uids[k]);
    }
  }
}
