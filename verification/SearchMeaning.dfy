/** What the keys of a SEARCH command select (RFC 3501, section 6.4.4), and the
    local interpreter of search programs, which selects the same. */
module SearchMeaning {
  import opened Machine
  import opened Texts
  import opened SearchGrammar
  import opened SearchProgram
  import opened SearchCommand

  datatype DateLine = NoDate | DateLine(date: Date)

  /** The mailbox: its keywords in bit order and the time of the search. */
  datatype Folder = Folder(nmsgs: nat, userFlags: seq<string>, now: nat)

  /** A message as searching sees it. Whether a field or a header line holds a
      string is not looked into. */
  datatype Mail = Mail(msgno: nat, uid: nat, size: nat, flags: set<Flag>, bits: set<nat>,
                       internal: Date, arrived: nat, sent: DateLine,
                       field: (Field, string) -> bool, line: (string, string) -> bool)

  function Lower(c: char): char {
    if 'A' <= c <= 'Z' then c - 'A' + 'a' else c
  }

  /** compare_csizedtext: equal up to the case of letters. */
  predicate SameText(a: string, b: string) {
    |a| == |b| && forall i | 0 <= i < |a| :: Lower(a[i]) == Lower(b[i])
  }

  predicate HasKeyword(f: Folder, m: Mail, k: string) {
    exists i | 0 <= i < |f.userFlags| :: SameText(f.userFlags[i], k) && i in m.bits
  }

  predicate InRange(n: nat, r: Range) {
    match r
    case One(a) => n == a
    case Span(a, b) => a <= n <= b || b <= n <= a
  }

  predicate InRanges(n: nat, rs: seq<Range>) {
    exists i | 0 <= i < |rs| :: InRange(n, rs[i])
  }

  predicate Related(d: Date, r: Relation, limit: Date) {
    match r
    case Before => Earlier(d, limit)
    case On => d == limit
    case Since => !Earlier(d, limit)
  }

  /** The key selects the message. */
  ghost predicate Matches(f: Folder, m: Mail, k: Key) {
    match k
    case All => true
    case Messages(rs) => InRanges(m.msgno, rs)
    case Uids(rs) => InRanges(m.uid, rs)
    case Has(flag) => flag in m.flags
    case Lacks(flag) => flag !in m.flags
    case Keyword(w) => HasKeyword(f, m, w)
    case Unkeyword(w) => !HasKeyword(f, m, w)
    case Measured(Larger, n) => m.size > n
    case Measured(Smaller, n) => m.size < n
    case Measured(Older, n) => m.arrived + n <= f.now
    case Measured(Younger, n) => m.arrived + n >= f.now
    case Dated(false, r, d) => Related(m.internal, r, d)
    case Dated(true, r, d) => m.sent.DateLine? && Related(m.sent.date, r, d)
    case Contains(fd, t) => m.field(fd, t)
    case Header(n, t) => m.line(n, t)
    case Or(a, b) => Matches(f, m, a) || Matches(f, m, b)
    case Not(a) => !Matches(f, m, a)
    case Group(ks) => forall i | 0 <= i < |ks| :: Matches(f, m, ks[i])
  }

  /** The command selects the message: all its keys do. */
  ghost predicate Selects(f: Folder, m: Mail, ks: seq<Key>) {
    forall i | 0 <= i < |ks| :: Matches(f, m, ks[i])
  }

  lemma SelectsAppend(f: Folder, m: Mail, a: seq<Key>, b: seq<Key>)
    ensures Selects(f, m, a + b) <==> Selects(f, m, a) && Selects(f, m, b)
  {
    if Selects(f, m, a + b) {
      assert forall i | 0 <= i < |a| :: a[i] == (a + b)[i];
      assert forall i | 0 <= i < |b| :: b[i] == (a + b)[|a| + i];
    }
  }

  lemma SelectsWhole(f: Folder, m: Mail, ks: seq<Key>)
    ensures Matches(f, m, Group(Whole(ks))) <==> Selects(f, m, ks)
  {
  }

  /** The folder and the message are proper: no two keywords differ only in case,
      the message is in the mailbox and its dates are dates. */
  predicate Proper(f: Folder, m: Mail) {
    && (forall i, j | 0 <= i < j < |f.userFlags| :: !SameText(f.userFlags[i], f.userFlags[j]))
    && |f.userFlags| <= 30
    && 1 <= m.msgno <= f.nmsgs
    && m.internal.Valid() && (m.sent.DateLine? ==> m.sent.date.Valid())
    && m.arrived < ULONG && f.now < ULONG
  }

  // ---- mail_search_msg ----

  method InSet(n: nat, items: seq<SetItem>) returns (found: bool)
    ensures found <==> InRanges(n, Ranges(items))
  {
    ghost var rs := Ranges(items);
    for i := 0 to |items|
      invariant forall j | 0 <= j < i :: !InRange(n, rs[j])
    {
      var first, last := items[i].first, items[i].last;
      if if last != 0 then (if first <= last then first <= n <= last else last <= n <= first) else n == first {
        assert InRange(n, rs[i]);
        return true;
      }
    }
    return false;
  }

  method CheckSets(f: Folder, m: Mail, p: Program) returns (ok: bool)
    requires Proper(f, m)
    ensures ok <==> Selects(f, m, SetKeys(p, f.nmsgs))
  {
    if p.msgno != [] {
      var found := InSet(m.msgno, p.msgno);
      if !found {
        assert !IsWhole(p.msgno, f.nmsgs) by {
          if IsWhole(p.msgno, f.nmsgs) {
            assert InRange(m.msgno, Ranges(p.msgno)[0]);
          }
        }
        assert Matches(f, m, SetKeys(p, f.nmsgs)[0]) <==> InRanges(m.msgno, Ranges(p.msgno));
        return false;
      }
    }
    if p.uid != [] {
      var found := InSet(m.uid, p.uid);
      if !found {
        var ks := SetKeys(p, f.nmsgs);
        assert ks[|ks| - 1] == Uids(Ranges(p.uid));
        return false;
      }
    }
    return true;
  }

  /** mail_search_keyword: which keyword bits the words name, and whether they are
      all set or all clear. */
  method SearchKeyword(f: Folder, m: Mail, words: seq<string>, flag: bool) returns (ok: bool)
    requires Proper(f, m) && words != []
    ensures flag ==> (ok <==> forall i | 0 <= i < |words| :: HasKeyword(f, m, words[i]))
    ensures !flag ==> (ok <==> forall i | 0 <= i < |words| :: !HasKeyword(f, m, words[i]))
  {
    hide Proper, SameText, HasKeyword;
    var named: set<nat> := {};
    for w := 0 to |words|
      invariant NamedBy(f, words, named, w)
      invariant flag ==> forall v | 0 <= v < w :: IsKeyword(f, words[v])
    {
      var i := 0;
      while i < |f.userFlags| && !SameText(f.userFlags[i], words[w])
        invariant i <= |f.userFlags| && forall j | 0 <= j < i :: !SameText(f.userFlags[j], words[w])
      {
        i := i + 1;
      }
      if i < |f.userFlags| {
        OnlyKeyword(f, m, i, words[w]);
        named := named + {i};
      } else if flag {
        NoKeyword(f, m, words[w]);
        return false;
      }
    }
    if flag {
      AllKeywords(f, m, words, named);
    } else {
      NoKeywords(f, m, words, named);
    }
    ok := if flag then named <= m.bits else named * m.bits == {};
  }

  /** The folder has the keyword. */
  ghost predicate IsKeyword(f: Folder, w: string) {
    exists i | 0 <= i < |f.userFlags| :: SameText(f.userFlags[i], w)
  }

  lemma NoKeyword(f: Folder, m: Mail, w: string)
    ensures !IsKeyword(f, w) ==> !HasKeyword(f, m, w)
  {
    hide SameText;
  }

  /** The keywords that are named by one of the first `n` words. */
  ghost predicate NamedBy(f: Folder, words: seq<string>, named: set<nat>, n: nat) {
    && n <= |words|
    && forall i :: i in named <==> 0 <= i < |f.userFlags| && exists v | 0 <= v < n :: SameText(f.userFlags[i], words[v])
  }

  lemma AllKeywords(f: Folder, m: Mail, words: seq<string>, named: set<nat>)
    requires Proper(f, m) && NamedBy(f, words, named, |words|)
    requires forall v | 0 <= v < |words| :: IsKeyword(f, words[v])
    ensures named <= m.bits <==> forall i | 0 <= i < |words| :: HasKeyword(f, m, words[i])
  {
    hide SameText, Proper, HasKeyword;
    if named <= m.bits {
      forall v | 0 <= v < |words|
        ensures HasKeyword(f, m, words[v])
      {
        var i :| 0 <= i < |f.userFlags| && SameText(f.userFlags[i], words[v]);
        assert i in named;
        KeywordBit(f, m, i, words[v]);
      }
    }
    if forall i | 0 <= i < |words| :: HasKeyword(f, m, words[i]) {
      forall i | i in named
        ensures i in m.bits
      {
        var v :| 0 <= v < |words| && SameText(f.userFlags[i], words[v]);
        KeywordBit(f, m, i, words[v]);
      }
    }
  }

  lemma NoKeywords(f: Folder, m: Mail, words: seq<string>, named: set<nat>)
    requires Proper(f, m) && NamedBy(f, words, named, |words|)
    ensures named * m.bits == {} <==> forall i | 0 <= i < |words| :: !HasKeyword(f, m, words[i])
  {
    hide SameText, Proper, HasKeyword;
    forall v | 0 <= v < |words| && HasKeyword(f, m, words[v])
      ensures named * m.bits != {}
    {
      var i := KeywordHeld(f, m, words[v]);
      assert i in named * m.bits;
    }
    if named * m.bits != {} {
      var i :| i in named * m.bits;
      var v :| 0 <= v < |words| && SameText(f.userFlags[i], words[v]);
      KeywordBit(f, m, i, words[v]);
    }
  }

  lemma KeywordHeld(f: Folder, m: Mail, w: string) returns (i: nat)
    requires HasKeyword(f, m, w)
    ensures i < |f.userFlags| && SameText(f.userFlags[i], w) && i in m.bits
  {
    hide SameText;
    i :| 0 <= i < |f.userFlags| && SameText(f.userFlags[i], w) && i in m.bits;
  }

  lemma KeywordBit(f: Folder, m: Mail, i: nat, w: string)
    requires Proper(f, m) && i < |f.userFlags| && SameText(f.userFlags[i], w)
    ensures HasKeyword(f, m, w) <==> i in m.bits
  {
    OnlyKeyword(f, m, i, w);
    hide SameText, Proper;
  }

  lemma OnlyKeyword(f: Folder, m: Mail, i: nat, w: string)
    requires Proper(f, m) && i < |f.userFlags| && SameText(f.userFlags[i], w)
    ensures forall j | 0 <= j < |f.userFlags| && SameText(f.userFlags[j], w) :: j == i
  {
    forall j | 0 <= j < |f.userFlags| && SameText(f.userFlags[j], w)
      ensures j == i
    {
      assert SameText(f.userFlags[i], f.userFlags[j]) && SameText(f.userFlags[j], f.userFlags[i]);
    }
  }

  method CheckFlags(f: Folder, m: Mail, p: Program) returns (ok: bool)
    ensures ok <==> Selects(f, m, FlagKeys(p, FLAGS))
  {
    assert FLAGS[..0] == [];
    for i := 0 to |FLAGS|
      invariant Selects(f, m, FlagKeys(p, FLAGS[..i]))
    {
      assert FLAGS[..i + 1][..i] == FLAGS[..i];
      SelectsAppend(f, m, FlagKeys(p, FLAGS[..i]), FlagPair(p, FLAGS[i]));
      PairSelects(f, m, p, FLAGS[i]);
      if (FLAGS[i] in p.set_ && FLAGS[i] !in m.flags) || (FLAGS[i] in p.clear && FLAGS[i] in m.flags) {
        FlagsPrefix(f, m, p, FLAGS, i + 1);
        return false;
      }
    }
    assert FLAGS[..|FLAGS|] == FLAGS;
    return true;
  }

  lemma PairSelects(f: Folder, m: Mail, p: Program, flag: Flag)
    ensures Selects(f, m, FlagPair(p, flag)) <==>
      !((flag in p.set_ && flag !in m.flags) || (flag in p.clear && flag in m.flags))
  {
    SelectsAppend(f, m, if flag in p.set_ then [Has(flag)] else [], if flag in p.clear then [Lacks(flag)] else []);
    assert flag in p.set_ ==> [Has(flag)][0] == Has(flag);
    assert flag in p.clear ==> [Lacks(flag)][0] == Lacks(flag);
  }

  lemma {:induction false} FlagsPrefix(f: Folder, m: Mail, p: Program, fs: seq<Flag>, n: nat)
    requires n <= |fs|
    ensures Selects(f, m, FlagKeys(p, fs)) ==> Selects(f, m, FlagKeys(p, fs[..n]))
    decreases |fs|
  {
    if n == |fs| {
      assert fs[..n] == fs;
    } else {
      SelectsAppend(f, m, FlagKeys(p, fs[..|fs| - 1]), FlagPair(p, fs[|fs| - 1]));
      assert fs[..|fs| - 1][..n] == fs[..n];
      FlagsPrefix(f, m, p, fs[..|fs| - 1], n);
    }
  }

  method CheckSizes(f: Folder, m: Mail, p: Program) returns (ok: bool)
    ensures ok <==> Selects(f, m, Amount(Larger, p.larger) + Amount(Smaller, p.smaller))
  {
    SelectsAppend(f, m, Amount(Larger, p.larger), Amount(Smaller, p.smaller));
    ok := !((p.larger != 0 && m.size <= p.larger) || (p.smaller != 0 && m.size >= p.smaller));
    AmountSelects(f, m, Larger, p.larger);
    AmountSelects(f, m, Smaller, p.smaller);
  }

  lemma AmountSelects(f: Folder, m: Mail, measure: Measure, n: nat)
    ensures Selects(f, m, Amount(measure, n)) <==> n == 0 || Matches(f, m, Measured(measure, n))
  {
    assert n != 0 ==> Amount(measure, n)[0] == Measured(measure, n);
  }

  lemma MapSelects(f: Folder, m: Mail, make: string -> Key, list: seq<string>)
    ensures Selects(f, m, Map(make, list)) <==> forall i | 0 <= i < |list| :: Matches(f, m, make(list[i]))
  {
    var ks := Map(make, list);
    assert forall i | 0 <= i < |list| :: ks[i] == make(list[i]);
  }

  method CheckKeywords(f: Folder, m: Mail, p: Program) returns (ok: bool)
    requires Proper(f, m)
    ensures ok <==> Selects(f, m, WordKeys(p))
  {
    hide Selects, Proper, WordKeys, HasKeyword;
    WordsSelect(f, m, p);
    ok := true;
    if p.keyword != [] {
      ok := SearchKeyword(f, m, p.keyword, true);
    }
    if ok && p.unkeyword != [] {
      ok := SearchKeyword(f, m, p.unkeyword, false);
    }
  }

  lemma WordsSelect(f: Folder, m: Mail, p: Program)
    ensures Selects(f, m, WordKeys(p)) <==>
      && (forall i | 0 <= i < |p.keyword| :: HasKeyword(f, m, p.keyword[i]))
      && (forall i | 0 <= i < |p.unkeyword| :: !HasKeyword(f, m, p.unkeyword[i]))
  {
    hide Selects, HasKeyword, Map;
    SelectsAppend(f, m, Map((w: string) => Keyword(w), p.keyword), Map((w: string) => Unkeyword(w), p.unkeyword));
    KeywordsSelect(f, m, p.keyword);
    UnkeywordsSelect(f, m, p.unkeyword);
  }

  lemma KeywordsSelect(f: Folder, m: Mail, list: seq<string>)
    ensures Selects(f, m, Map((w: string) => Keyword(w), list)) <==>
      forall i | 0 <= i < |list| :: HasKeyword(f, m, list[i])
  {
    hide Selects, HasKeyword, Map;
    MapSelects(f, m, (w: string) => Keyword(w), list);
  }

  lemma UnkeywordsSelect(f: Folder, m: Mail, list: seq<string>)
    ensures Selects(f, m, Map((w: string) => Unkeyword(w), list)) <==>
      forall i | 0 <= i < |list| :: !HasKeyword(f, m, list[i])
  {
    hide Selects, HasKeyword, Map;
    MapSelects(f, m, (w: string) => Unkeyword(w), list);
  }

  // ---- Dates ----

  /** The comparison of packed dates that the interpreter makes. */
  predicate PackedRelated(d: nat, r: Relation, limit: nat) {
    match r
    case Before => d < limit
    case On => d == limit
    case Since => d >= limit
  }

  lemma PackedMeans(d: Date, r: Relation, limit: nat)
    requires d.Valid() && limit != 0 && DateOk(limit)
    ensures PackedRelated(Pack(d), r, limit) <==> Related(d, r, Unpack(limit))
  {
    var l := Unpack(limit);
    PackFacts(d, l);
    PackFacts(l, d);
    UnpackPack(limit);
  }

  lemma UnpackPack(n: nat)
    requires Unpack(n).Valid()
    ensures Pack(Unpack(n)) == n
  {
    assert n == 32 * (n / 32) + n % 32;
    assert n / 32 == 16 * (n / 32 / 16) + n / 32 % 16;
    assert n / 32 / 16 == n / 512;
  }

  lemma DateSelects(f: Folder, m: Mail, sent: bool, r: Relation, limit: nat)
    requires Proper(f, m) && DateOk(limit)
    ensures Selects(f, m, OnDate(sent, r, limit)) <==>
      || limit == 0
      || (if sent then m.sent.DateLine? && PackedRelated(Pack(m.sent.date), r, limit)
          else PackedRelated(Pack(m.internal), r, limit))
  {
    hide Unpack, Pack, Related, PackedRelated;
    if limit != 0 {
      assert OnDate(sent, r, limit)[0] == Dated(sent, r, Unpack(limit));
      if !sent {
        PackedMeans(m.internal, r, limit);
      } else if m.sent.DateLine? {
        PackedMeans(m.sent.date, r, limit);
      }
    }
  }

  /** Internal and sent dates. */
  method CheckDates(f: Folder, m: Mail, p: Program) returns (ok: bool)
    requires Proper(f, m) && DatesOk(p)
    ensures ok <==> Selects(f, m, DateKeys(p))
  {
    DatesSelect(f, m, p);
    hide Selects, DateKeys;
    if p.before != 0 || p.on != 0 || p.since != 0 {
      var d := Pack(m.internal);
      if (p.before != 0 && d >= p.before) || (p.on != 0 && d != p.on) || (p.since != 0 && d < p.since) {
        return false;
      }
    }
    if p.sentbefore != 0 || p.senton != 0 || p.sentsince != 0 {
      if m.sent.NoDate? {
        return false;
      }
      var d := Pack(m.sent.date);
      PackFacts(m.sent.date, m.sent.date);
      if (d == 0 || (p.sentbefore != 0 && d >= p.sentbefore) || (p.senton != 0 && d != p.senton)
          || (p.sentsince != 0 && d < p.sentsince)) {
        return false;
      }
    }
    return true;
  }

  lemma DatesSelect(f: Folder, m: Mail, p: Program)
    requires Proper(f, m) && DatesOk(p)
    ensures Selects(f, m, DateKeys(p)) <==>
      && (p.sentbefore == 0 || (m.sent.DateLine? && PackedRelated(Pack(m.sent.date), Before, p.sentbefore)))
      && (p.senton == 0 || (m.sent.DateLine? && PackedRelated(Pack(m.sent.date), On, p.senton)))
      && (p.sentsince == 0 || (m.sent.DateLine? && PackedRelated(Pack(m.sent.date), Since, p.sentsince)))
      && (p.before == 0 || PackedRelated(Pack(m.internal), Before, p.before))
      && (p.on == 0 || PackedRelated(Pack(m.internal), On, p.on))
      && (p.since == 0 || PackedRelated(Pack(m.internal), Since, p.since))
  {
    hide Selects, OnDate, PackedRelated, Pack, DateOk;
    DateSelects(f, m, true, Before, p.sentbefore);
    DateSelects(f, m, true, On, p.senton);
    DateSelects(f, m, true, Since, p.sentsince);
    DateSelects(f, m, false, Before, p.before);
    DateSelects(f, m, false, On, p.on);
    DateSelects(f, m, false, Since, p.since);
    var a := OnDate(true, Before, p.sentbefore) + OnDate(true, On, p.senton);
    var b := a + OnDate(true, Since, p.sentsince);
    var c := b + OnDate(false, Before, p.before);
    SelectsAppend(f, m, OnDate(true, Before, p.sentbefore), OnDate(true, On, p.senton));
    SelectsAppend(f, m, a, OnDate(true, Since, p.sentsince));
    SelectsAppend(f, m, b, OnDate(false, Before, p.before));
    SelectsAppend(f, m, c, OnDate(false, On, p.on));
    SelectsAppend(f, m, c + OnDate(false, On, p.on), OnDate(false, Since, p.since));
  }

  // ---- Ages ----

  /** The source's difference of unsigned longs. */
  function Minus(a: nat, b: nat): nat {
    (a - b) % ULONG
  }

  predicate LocallyOlder(f: Folder, m: Mail, n: nat) {
    !(m.arrived > Minus(f.now, n))
  }

  predicate LocallyYounger(f: Folder, m: Mail, n: nat) {
    !(m.arrived < Minus(f.now, n))
  }

  /** The interval does not reach back before the start of the clock, or else the
      message is too new for the wrapped difference to matter. */
  predicate OlderFits(f: Folder, m: Mail, n: nat) {
    n <= f.now || m.arrived + n > ULONG + f.now
  }

  predicate YoungerFits(f: Folder, m: Mail, n: nat) {
    n <= f.now || m.arrived + n >= ULONG + f.now
  }

  /** The interpreter's ages are those of RFC 5032 exactly for the messages and the
      intervals that fit. */
  lemma AgesMean(f: Folder, m: Mail, n: nat)
    requires f.now < ULONG && m.arrived < ULONG && 0 < n < ULONG
    ensures (LocallyOlder(f, m, n) <==> Matches(f, m, Measured(Older, n))) <==> OlderFits(f, m, n)
    ensures (LocallyYounger(f, m, n) <==> Matches(f, m, Measured(Younger, n))) <==> YoungerFits(f, m, n)
  {
    if n > f.now {
      assert Minus(f.now, n) == ULONG + f.now - n;
    }
  }

  /** With an interval of ten seconds at the fifth second of the clock, both ages are
      wrong for a message of the third. */
  lemma AgesWrap(f: Folder, m: Mail)
    requires f.now == 5 && m.arrived == 3
    ensures LocallyOlder(f, m, 10) && !Matches(f, m, Measured(Older, 10))
    ensures !LocallyYounger(f, m, 10) && Matches(f, m, Measured(Younger, 10))
  {
    assert Minus(5, 10) == ULONG - 5;
  }

  /** The tests of the two ages, of which 0 asks for nothing. */
  predicate LocalAges(f: Folder, m: Mail, p: Program) {
    (p.older == 0 || LocallyOlder(f, m, p.older)) && (p.younger == 0 || LocallyYounger(f, m, p.younger))
  }

  /** Both ages fit; or one does not, and the other is not met anyway. */
  predicate AgesFit(f: Folder, m: Mail, p: Program) {
    if !OlderFits(f, m, p.older) then
      0 < p.younger && m.arrived + p.younger < f.now + if p.younger <= f.now then 0 else ULONG
    else if !YoungerFits(f, m, p.younger) then
      0 < p.older && m.arrived + p.older > f.now
    else true
  }

  /** The interpreter's two ages together are those of RFC 5032 exactly if they fit. */
  lemma BothAgesMean(f: Folder, m: Mail, p: Program)
    requires f.now < ULONG && m.arrived < ULONG && p.older < ULONG && p.younger < ULONG
    ensures (LocalAges(f, m, p) <==> Selects(f, m, Amount(Older, p.older) + Amount(Younger, p.younger)))
      <==> AgesFit(f, m, p)
  {
    SelectsAppend(f, m, Amount(Older, p.older), Amount(Younger, p.younger));
    AmountSelects(f, m, Older, p.older);
    AmountSelects(f, m, Younger, p.younger);
    hide Selects, Amount;
    MinusIs(f.now, p.older);
    MinusIs(f.now, p.younger);
  }

  lemma MinusIs(a: nat, b: nat)
    requires a < ULONG && b < ULONG
    ensures Minus(a, b) == if b <= a then a - b else ULONG + a - b
  {
  }

  /** The ages are unsigned longs and fit the message. */
  predicate AgesOk(f: Folder, m: Mail, p: Program) {
    p.older < ULONG && p.younger < ULONG && AgesFit(f, m, p)
  }

  method CheckAges(f: Folder, m: Mail, p: Program) returns (ok: bool)
    requires Proper(f, m) && AgesOk(f, m, p)
    ensures ok <==> Selects(f, m, Amount(Older, p.older) + Amount(Younger, p.younger))
  {
    BothAgesMean(f, m, p);
    ok := (p.older == 0 || LocallyOlder(f, m, p.older)) && (p.younger == 0 || LocallyYounger(f, m, p.younger));
  }

  // ---- Texts ----

  /** All strings of the list are found in the field. */
  method FindAll(m: Mail, fd: Field, list: seq<string>) returns (ok: bool)
    ensures ok <==> forall i | 0 <= i < |list| :: m.field(fd, list[i])
  {
    for i := 0 to |list|
      invariant forall j | 0 <= j < i :: m.field(fd, list[j])
    {
      if !m.field(fd, list[i]) {
        return false;
      }
    }
    return true;
  }

  method FindLines(m: Mail, name: string, list: seq<string>) returns (ok: bool)
    ensures ok <==> forall i | 0 <= i < |list| :: m.line(name, list[i])
  {
    for i := 0 to |list|
      invariant forall j | 0 <= j < i :: m.line(name, list[j])
    {
      if !m.line(name, list[i]) {
        return false;
      }
    }
    return true;
  }

  lemma FieldSelects(f: Folder, m: Mail, fd: Field, list: seq<string>)
    ensures Selects(f, m, In(fd, list)) <==> forall i | 0 <= i < |list| :: m.field(fd, list[i])
  {
    MapSelects(f, m, (t: string) => Contains(fd, t), list);
  }

  lemma LineSelects(f: Folder, m: Mail, name: string, list: seq<string>)
    ensures Selects(f, m, Line(name, list)) <==> forall i | 0 <= i < |list| :: m.line(name, list[i])
  {
    MapSelects(f, m, (t: string) => Header(name, t), list);
  }

  /** The strings to be found in a field, if there are any. */
  method CheckField(f: Folder, m: Mail, fd: Field, list: seq<string>) returns (ok: bool)
    ensures ok <==> Selects(f, m, In(fd, list))
  {
    FieldSelects(f, m, fd, list);
    ok := true;
    if list != [] {
      ok := FindAll(m, fd, list);
    }
  }

  method CheckLine(f: Folder, m: Mail, name: string, list: seq<string>) returns (ok: bool)
    ensures ok <==> Selects(f, m, Line(name, list))
  {
    LineSelects(f, m, name, list);
    ok := true;
    if list != [] {
      ok := FindLines(m, name, list);
    }
  }

  method CheckTexts(f: Folder, m: Mail, p: Program) returns (ok: bool)
    ensures ok <==> Selects(f, m, TextKeys(p))
  {
    hide Selects, In;
    var a := In(Bcc, p.bcc) + In(Cc, p.cc);
    var b := a + In(From, p.from);
    var c := b + In(To, p.to);
    var d := c + In(Subject, p.subject);
    SelectsAppend(f, m, In(Bcc, p.bcc), In(Cc, p.cc));
    SelectsAppend(f, m, a, In(From, p.from));
    SelectsAppend(f, m, b, In(To, p.to));
    SelectsAppend(f, m, c, In(Subject, p.subject));
    SelectsAppend(f, m, d, In(Body, p.body));
    SelectsAppend(f, m, d + In(Body, p.body), In(Text, p.text));
    var bcc := CheckField(f, m, Bcc, p.bcc);
    var cc := CheckField(f, m, Cc, p.cc);
    var from := CheckField(f, m, From, p.from);
    var to := CheckField(f, m, To, p.to);
    var subject := CheckField(f, m, Subject, p.subject);
    var text := CheckField(f, m, Text, p.text);
    var body := CheckField(f, m, Body, p.body);
    ok := bcc && cc && from && to && subject && text && body;
  }

  method CheckEmulated(f: Folder, m: Mail, p: Program) returns (ok: bool)
    ensures ok <==> Selects(f, m, EmulatedKeys(p))
  {
    hide Selects, Line;
    var a := Line("Return-Path", p.returnPath) + Line("Sender", p.sender);
    var b := a + Line("Reply-To", p.replyTo);
    var c := Line("Message-ID", p.messageId) + Line("Newsgroups", p.newsgroups);
    var d := c + Line("Followup-To", p.followupTo);
    SelectsAppend(f, m, Line("Return-Path", p.returnPath), Line("Sender", p.sender));
    SelectsAppend(f, m, a, Line("Reply-To", p.replyTo));
    SelectsAppend(f, m, b, Line("In-Reply-To", p.inReplyTo));
    SelectsAppend(f, m, Line("Message-ID", p.messageId), Line("Newsgroups", p.newsgroups));
    SelectsAppend(f, m, c, Line("Followup-To", p.followupTo));
    SelectsAppend(f, m, d, Line("References", p.references));
    SelectsAppend(f, m, ReplyKeys(p), NewsKeys(p));
    var returnPath := CheckLine(f, m, "Return-Path", p.returnPath);
    var sender := CheckLine(f, m, "Sender", p.sender);
    var replyTo := CheckLine(f, m, "Reply-To", p.replyTo);
    var inReplyTo := CheckLine(f, m, "In-Reply-To", p.inReplyTo);
    var messageId := CheckLine(f, m, "Message-ID", p.messageId);
    var newsgroups := CheckLine(f, m, "Newsgroups", p.newsgroups);
    var followupTo := CheckLine(f, m, "Followup-To", p.followupTo);
    var references := CheckLine(f, m, "References", p.references);
    ok := returnPath && sender && replyTo && inReplyTo && messageId && newsgroups && followupTo && references;
  }

  method CheckHeaders(f: Folder, m: Mail, list: seq<(string, string)>) returns (ok: bool)
    ensures ok <==> Selects(f, m, HeaderKeys(list))
  {
    HeadersSelect(f, m, list);
    for i := 0 to |list|
      invariant forall j | 0 <= j < i :: m.line(list[j].0, list[j].1)
    {
      if !m.line(list[i].0, list[i].1) {
        return false;
      }
    }
    return true;
  }

  lemma {:induction false} HeadersSelect(f: Folder, m: Mail, list: seq<(string, string)>)
    ensures Selects(f, m, HeaderKeys(list)) <==> forall i | 0 <= i < |list| :: m.line(list[i].0, list[i].1)
  {
    if list != [] {
      var rest, last := list[..|list| - 1], list[|list| - 1];
      HeadersSelect(f, m, rest);
      SelectsAppend(f, m, HeaderKeys(rest), [Header(last.0, last.1)]);
      assert [Header(last.0, last.1)][0] == Header(last.0, last.1);
      assert forall i | 0 <= i < |rest| :: rest[i] == list[i];
    }
  }

  // ---- Whole programs ----

  /** The program, and every program in it, has proper dates and ages. */
  predicate Timely(f: Folder, m: Mail, p: Program)
    decreases p, 1
  {
    && DatesOk(p) && AgesOk(f, m, p)
    && (forall i | 0 <= i < |p.ors| :: TimelyChoice(f, m, p.ors[i]))
    && (forall i | 0 <= i < |p.nots| :: Timely(f, m, p.nots[i]))
  }

  predicate TimelyChoice(f: Folder, m: Mail, c: Choice)
    decreases c, 0
  {
    Timely(f, m, c.first) && Timely(f, m, c.second)
  }

  method CheckFlat(f: Folder, m: Mail, p: Program) returns (ok: bool)
    requires Proper(f, m) && DatesOk(p) && AgesOk(f, m, p)
    ensures ok <==> Selects(f, m, FlatKeys(p, f.nmsgs))
  {
    hide Selects, SetKeys, Amount, FlagKeys, WordKeys, DateKeys, TextKeys, EmulatedKeys, HeaderKeys, DatesOk, AgesOk;
    hide Proper;
    var a := SetKeys(p, f.nmsgs) + (Amount(Larger, p.larger) + Amount(Smaller, p.smaller));
    var b := a + FlagKeys(p, FLAGS);
    var c := b + WordKeys(p);
    var d := c + DateKeys(p);
    var e := d + (Amount(Older, p.older) + Amount(Younger, p.younger));
    var g := e + TextKeys(p);
    SelectsAppend(f, m, SetKeys(p, f.nmsgs), Amount(Larger, p.larger) + Amount(Smaller, p.smaller));
    SelectsAppend(f, m, a, FlagKeys(p, FLAGS));
    SelectsAppend(f, m, b, WordKeys(p));
    SelectsAppend(f, m, c, DateKeys(p));
    SelectsAppend(f, m, d, Amount(Older, p.older) + Amount(Younger, p.younger));
    SelectsAppend(f, m, e, TextKeys(p));
    SelectsAppend(f, m, g, EmulatedKeys(p));
    SelectsAppend(f, m, g + EmulatedKeys(p), HeaderKeys(p.header));
    ok := CheckSets(f, m, p);
    if ok { ok := CheckSizes(f, m, p); }
    if ok { ok := CheckFlags(f, m, p); }
    if ok { ok := CheckKeywords(f, m, p); }
    if ok { ok := CheckDates(f, m, p); }
    if ok { ok := CheckAges(f, m, p); }
    if ok { ok := CheckEmulated(f, m, p); }
    if ok { ok := CheckHeaders(f, m, p.header); }
    if ok { ok := CheckTexts(f, m, p); }
  }

  /** mail_search_msg finds exactly the messages that the keys of the program select. */
  method SearchMessage(f: Folder, m: Mail, p: Program) returns (found: bool)
    requires Proper(f, m) && Timely(f, m, p)
    ensures found <==> Selects(f, m, Keys(p, f.nmsgs))
    decreases p, 2
  {
    hide Selects, FlatKeys, OrKeys, NotKeys, Proper, DatesOk, AgesOk;
    SelectsAppend(f, m, FlatKeys(p, f.nmsgs), OrKeys(p.ors, f.nmsgs));
    SelectsAppend(f, m, FlatKeys(p, f.nmsgs) + OrKeys(p.ors, f.nmsgs), NotKeys(p.nots, f.nmsgs));
    found := CheckFlat(f, m, p);
    if found { found := CheckOrs(f, m, p); }
    if found { found := CheckNots(f, m, p); }
  }

  method CheckOrs(f: Folder, m: Mail, p: Program) returns (ok: bool)
    requires Proper(f, m) && Timely(f, m, p)
    ensures ok <==> Selects(f, m, OrKeys(p.ors, f.nmsgs))
    decreases p, 1
  {
    hide Proper, DatesOk, AgesOk, Keys, Selects, Matches, ChoiceKey, OrKeys;
    OrsSelect(f, m, p.ors);
    for i := 0 to |p.ors|
      invariant forall j | 0 <= j < i :: Matches(f, m, ChoiceKey(p.ors[j], f.nmsgs))
    {
      var either := CheckChoice(f, m, p.ors[i]);
      if !either {
        return false;
      }
    }
    return true;
  }

  method CheckChoice(f: Folder, m: Mail, c: Choice) returns (ok: bool)
    requires Proper(f, m) && TimelyChoice(f, m, c)
    ensures ok <==> Matches(f, m, ChoiceKey(c, f.nmsgs))
    decreases c, 0
  {
    hide Proper, Keys, Whole, Selects;
    SelectsWhole(f, m, Keys(c.first, f.nmsgs));
    SelectsWhole(f, m, Keys(c.second, f.nmsgs));
    ok := SearchMessage(f, m, c.first);
    if !ok {
      ok := SearchMessage(f, m, c.second);
    }
  }

  method CheckNots(f: Folder, m: Mail, p: Program) returns (ok: bool)
    requires Proper(f, m) && Timely(f, m, p)
    ensures ok <==> Selects(f, m, NotKeys(p.nots, f.nmsgs))
    decreases p, 1
  {
    hide Proper, DatesOk, AgesOk, Keys, Selects;
    NotsSelect(f, m, p.nots);
    for i := 0 to |p.nots|
      invariant forall j | 0 <= j < i :: !Selects(f, m, Keys(p.nots[j], f.nmsgs))
    {
      var found := SearchMessage(f, m, p.nots[i]);
      if found {
        return false;
      }
    }
    return true;
  }

  lemma KeysSplit(ors: seq<Choice>, nots: seq<Program>, nmsgs: nat)
    ensures OrKeys(ors, nmsgs) ==
      if ors == [] then [] else OrKeys(ors[..|ors| - 1], nmsgs) + [ChoiceKey(ors[|ors| - 1], nmsgs)]
    ensures NotKeys(nots, nmsgs) ==
      if nots == [] then [] else NotKeys(nots[..|nots| - 1], nmsgs) + [Not(Group(Whole(Keys(nots[|nots| - 1], nmsgs))))]
  {
    hide Keys, ChoiceKey, Whole;
  }

  lemma SelectsNone(f: Folder, m: Mail)
    ensures Selects(f, m, [])
  {
  }

  lemma SelectsOne(f: Folder, m: Mail, k: Key)
    ensures Selects(f, m, [k]) <==> Matches(f, m, k)
  {
    assert [k][0] == k;
  }

  lemma SelectsNot(f: Folder, m: Mail, ks: seq<Key>)
    ensures Matches(f, m, Not(Group(Whole(ks)))) <==> !Selects(f, m, ks)
  {
    SelectsWhole(f, m, ks);
  }

  lemma {:induction false} OrsSelect(f: Folder, m: Mail, ors: seq<Choice>)
    ensures Selects(f, m, OrKeys(ors, f.nmsgs)) <==>
      forall i | 0 <= i < |ors| :: Matches(f, m, ChoiceKey(ors[i], f.nmsgs))
  {
    hide ChoiceKey, Keys, Matches, Selects, OrKeys;
    SelectsNone(f, m);
    KeysSplit(ors, [], f.nmsgs);
    if ors != [] {
      var rest, k := ors[..|ors| - 1], ChoiceKey(ors[|ors| - 1], f.nmsgs);
      OrsSelect(f, m, rest);
      SelectsAppend(f, m, OrKeys(rest, f.nmsgs), [k]);
      SelectsOne(f, m, k);
      assert forall i | 0 <= i < |rest| :: rest[i] == ors[i];
    }
  }

  lemma {:induction false} NotsSelect(f: Folder, m: Mail, nots: seq<Program>)
    ensures Selects(f, m, NotKeys(nots, f.nmsgs)) <==>
      forall i | 0 <= i < |nots| :: !Selects(f, m, Keys(nots[i], f.nmsgs))
  {
    hide Keys, Matches, Selects, NotKeys;
    SelectsNone(f, m);
    KeysSplit([], nots, f.nmsgs);
    if nots != [] {
      var rest, ks := nots[..|nots| - 1], Keys(nots[|nots| - 1], f.nmsgs);
      var k := Not(Group(Whole(ks)));
      NotsSelect(f, m, rest);
      SelectsNot(f, m, ks);
      SelectsAppend(f, m, NotKeys(rest, f.nmsgs), [k]);
      SelectsOne(f, m, k);
      assert forall i | 0 <= i < |rest| :: rest[i] == nots[i];
    }
  }

  /** Compiling preserves meaning: the command that is sent, read by the grammar,
      selects exactly the messages that the local interpreter finds. */
  method CompileAndSearch(f: Folder, m: Mail, p: Program, c: Command, base: nat)
    returns (found: bool, ghost sent: string)
    requires Proper(f, m) && Timely(f, m, p) && Plain(p) && Trimmed(base, c.text) == c.text
    modifies c
    ensures c.text == old(c.text) + sent
    ensures Parse(sent).Read? && Parse(sent).rest == "" && (found <==> Selects(f, m, Parse(sent).value))
    ensures Fine(Keys(p, f.nmsgs)) && sent == Render(Keys(p, f.nmsgs)) && (found <==> Selects(f, m, Keys(p, f.nmsgs)))
  {
    hide Selects, Keys, Plain, Proper, Timely;
    c.SendProgram(base, p, f.nmsgs);
    found := SearchMessage(f, m, p);
    sent := Render(Keys(p, f.nmsgs));
    RenderParsed(f, m, Keys(p, f.nmsgs));
  }

  lemma RenderParsed(f: Folder, m: Mail, ks: seq<Key>)
    requires Fine(ks)
    ensures Parse(Render(ks)) == Read(Whole(ks), "") && (Selects(f, m, Whole(ks)) <==> Selects(f, m, ks))
  {
    WholeFine(ks);
    ParsePrinted(Whole(ks));
  }
}
