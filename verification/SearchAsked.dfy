/** What a search program asks for, field by field: the messages that are found. */
module SearchAsked {
  import opened SearchGrammar
  import opened SearchProgram
  import opened SearchMeaning
  import opened SearchSent

  /** Equal up to the case of letters: every character is the same, or one is a capital
      and the other the small letter. */
  lemma SameTextMeans(a: string, b: string)
    ensures SameText(a, b) <==>
      && |a| == |b|
      && forall i | 0 <= i < |a| ::
           || a[i] == b[i] || ('A' <= a[i] <= 'Z' && b[i] as int == a[i] as int + 32)
           || ('A' <= b[i] <= 'Z' && a[i] as int == b[i] as int + 32)
  {
  }

  // ---- The conditions ----

  /** The number is one of an item: a single number, or a range in either order. */
  predicate Within(n: nat, i: SetItem) {
    if i.last == 0 then n == i.first else i.first <= n <= i.last || i.last <= n <= i.first
  }

  predicate InSome(n: nat, items: seq<SetItem>) {
    exists k :: 0 <= k < |items| && Within(n, items[k])
  }

  predicate HasAll(f: Folder, m: Mail, words: seq<string>) {
    forall i | 0 <= i < |words| :: HasKeyword(f, m, words[i])
  }

  predicate HasNone(f: Folder, m: Mail, words: seq<string>) {
    forall i | 0 <= i < |words| :: !HasKeyword(f, m, words[i])
  }

  lemma Ones(f: Folder, m: Mail, fd: Field, name: string, t: string, n: nat, i: SetItem)
    ensures (AllFound(m, fd, [t]) <==> m.field(fd, t)) && AllFound(m, fd, [])
    ensures (AllLines(m, name, [t]) <==> m.line(name, t)) && AllLines(m, name, [])
    ensures (HasAll(f, m, [t]) <==> HasKeyword(f, m, t)) && (HasNone(f, m, [t]) <==> !HasKeyword(f, m, t))
    ensures HasAll(f, m, []) && HasNone(f, m, []) && (InSome(n, [i]) <==> Within(n, i))
  {
    hide HasKeyword, Within;
    assert [t][0] == t && [i][0] == i;
  }

  /** Sets, sizes, flags and keywords. */
  ghost predicate MarksMet(f: Folder, m: Mail, p: Program) {
    && (p.msgno == [] || InSome(m.msgno, p.msgno)) && (p.uid == [] || InSome(m.uid, p.uid))
    && (p.larger == 0 || m.size > p.larger) && (p.smaller == 0 || m.size < p.smaller)
    && p.set_ <= m.flags && p.clear !! m.flags
    && HasAll(f, m, p.keyword) && HasNone(f, m, p.unkeyword)
  }

  /** A date in the form that programs have it. */
  function PackedDate(d: Date): int {
    (d.year - 1970) * 512 + d.month * 32 + d.day
  }

  /** Dates and ages. */
  predicate TimesMet(f: Folder, m: Mail, p: Program) {
    && (p.sentbefore == 0 || (m.sent.DateLine? && PackedDate(m.sent.date) < p.sentbefore))
    && (p.senton == 0 || (m.sent.DateLine? && PackedDate(m.sent.date) == p.senton))
    && (p.sentsince == 0 || (m.sent.DateLine? && PackedDate(m.sent.date) >= p.sentsince))
    && (p.before == 0 || PackedDate(m.internal) < p.before)
    && (p.on == 0 || PackedDate(m.internal) == p.on) && (p.since == 0 || PackedDate(m.internal) >= p.since)
    && (p.older == 0 || m.arrived + p.older <= f.now) && (p.younger == 0 || m.arrived + p.younger >= f.now)
  }

  predicate AllFound(m: Mail, fd: Field, list: seq<string>) {
    forall i | 0 <= i < |list| :: m.field(fd, list[i])
  }

  predicate AllLines(m: Mail, name: string, list: seq<string>) {
    forall i | 0 <= i < |list| :: m.line(name, list[i])
  }

  predicate TextsMet(m: Mail, p: Program) {
    && AllFound(m, Bcc, p.bcc)
    && AllFound(m, Cc, p.cc)
    && AllFound(m, From, p.from)
    && AllFound(m, To, p.to)
    && AllFound(m, Subject, p.subject)
    && AllFound(m, Body, p.body)
    && AllFound(m, Text, p.text)
  }

  predicate LinesMet(m: Mail, p: Program) {
    && AllLines(m, "Return-Path", p.returnPath)
    && AllLines(m, "Sender", p.sender)
    && AllLines(m, "Reply-To", p.replyTo)
    && AllLines(m, "In-Reply-To", p.inReplyTo)
    && AllLines(m, "Message-ID", p.messageId)
    && AllLines(m, "Newsgroups", p.newsgroups)
    && AllLines(m, "Followup-To", p.followupTo)
    && AllLines(m, "References", p.references)
    && (forall i | 0 <= i < |p.header| :: m.line(p.header[i].0, p.header[i].1))
  }

  // ---- Groups of fields ----

  lemma ItemsAsked(n: nat, items: seq<SetItem>)
    ensures InRanges(n, Ranges(items)) <==> InSome(n, items)
  {
    var rs := Ranges(items);
    assert forall k | 0 <= k < |items| :: InRange(n, rs[k]) <==> Within(n, items[k]);
  }

  lemma SetsAsked(f: Folder, m: Mail, p: Program)
    requires Proper(f, m)
    ensures Selects(f, m, SetKeys(p, f.nmsgs)) <==>
      (p.msgno == [] || InRanges(m.msgno, Ranges(p.msgno))) && (p.uid == [] || InRanges(m.uid, Ranges(p.uid)))
  {
    hide InRanges, Ranges;
    var a := if p.msgno != [] && !IsWhole(p.msgno, f.nmsgs) then [Messages(Ranges(p.msgno))] else [];
    var b := if p.uid != [] then [Uids(Ranges(p.uid))] else [];
    SelectsAppend(f, m, a, b);
    if a != [] {
      SelectsOne(f, m, a[0]);
    }
    if b != [] {
      SelectsOne(f, m, b[0]);
    }
    if IsWhole(p.msgno, f.nmsgs) {
      WholeAsked(m.msgno, p.msgno, f.nmsgs);
    }
    SelectsNone(f, m);
  }

  lemma WholeAsked(n: nat, items: seq<SetItem>, nmsgs: nat)
    requires IsWhole(items, nmsgs) && 1 <= n <= nmsgs
    ensures InRanges(n, Ranges(items))
  {
    assert InRange(n, Ranges(items)[0]);
  }

  lemma FlagsAsked(f: Folder, m: Mail, p: Program)
    ensures Selects(f, m, FlagKeys(p, FLAGS)) <==> p.set_ <= m.flags && p.clear !! m.flags
  {
    FlagsSelect(f, m, p, FLAGS);
    EveryFlag();
    hide FlagKeys, Selects;
  }

  lemma EveryFlag()
    ensures forall g: Flag :: g in FLAGS
  {
    forall g: Flag
      ensures g in FLAGS
    {
      match g
      case Answered => assert FLAGS[0] == g;
      case Deleted => assert FLAGS[1] == g;
      case Draft => assert FLAGS[2] == g;
      case Flagged => assert FLAGS[3] == g;
      case Recent => assert FLAGS[4] == g;
      case Seen => assert FLAGS[5] == g;
    }
  }

  lemma {:induction false} FlagsSelect(f: Folder, m: Mail, p: Program, fs: seq<Flag>)
    ensures Selects(f, m, FlagKeys(p, fs)) <==>
      forall g <- fs :: (g in p.set_ ==> g in m.flags) && (g in p.clear ==> g !in m.flags)
  {
    hide Selects, FlagPair;
    if fs == [] {
      SelectsNone(f, m);
    } else {
      var rest, g := fs[..|fs| - 1], fs[|fs| - 1];
      FlagsSelect(f, m, p, rest);
      SelectsAppend(f, m, FlagKeys(p, rest), FlagPair(p, g));
      PairSelects(f, m, p, g);
      assert fs == rest + [g];
    }
  }

  lemma AmountsAsked(f: Folder, m: Mail, p: Program)
    ensures Selects(f, m, Amount(Larger, p.larger) + Amount(Smaller, p.smaller)) <==>
      (p.larger == 0 || m.size > p.larger) && (p.smaller == 0 || m.size < p.smaller)
    ensures Selects(f, m, Amount(Older, p.older) + Amount(Younger, p.younger)) <==>
      (p.older == 0 || m.arrived + p.older <= f.now) && (p.younger == 0 || m.arrived + p.younger >= f.now)
  {
    hide Selects, Amount;
    SelectsAppend(f, m, Amount(Larger, p.larger), Amount(Smaller, p.smaller));
    SelectsAppend(f, m, Amount(Older, p.older), Amount(Younger, p.younger));
    AmountSelects(f, m, Larger, p.larger);
    AmountSelects(f, m, Smaller, p.smaller);
    AmountSelects(f, m, Older, p.older);
    AmountSelects(f, m, Younger, p.younger);
  }


  lemma TimesAsked(f: Folder, m: Mail, p: Program)
    requires Proper(f, m) && DatesOk(p)
    ensures TimesMet(f, m, p) <==>
      Selects(f, m, DateKeys(p)) && Selects(f, m, Amount(Older, p.older) + Amount(Younger, p.younger))
  {
    hide Selects, DateKeys, DatesOk, Amount;
    DatesSelect(f, m, p);
    AmountsAsked(f, m, p);
  }

  lemma TextsAsked(f: Folder, m: Mail, p: Program)
    ensures TextsMet(m, p) <==> Selects(f, m, TextKeys(p))
  {
    hide Selects, In;
    var a := In(Bcc, p.bcc) + In(Cc, p.cc);
    var b := a + In(From, p.from);
    var c := b + In(To, p.to);
    var d := c + In(Subject, p.subject);
    SelectsAppend(f, m, In(Bcc, p.bcc), In(Cc, p.cc));
    SelectsAppend(f, m, a, In(From, p.from));
    SelectsAppend(f, m, b, In(To, p.to));
    SelectsAppend(f, m, c, In(Subject, p.subject));
    SelectsAppend(f, m, d, In(Body, p.body));
    SelectsAppend(f, m, d + In(Body, p.body), In(Text, p.text));
    FieldSelects(f, m, Bcc, p.bcc);
    FieldSelects(f, m, Cc, p.cc);
    FieldSelects(f, m, From, p.from);
    FieldSelects(f, m, To, p.to);
    FieldSelects(f, m, Subject, p.subject);
    FieldSelects(f, m, Body, p.body);
    FieldSelects(f, m, Text, p.text);
  }

  lemma LinesAsked(f: Folder, m: Mail, p: Program)
    ensures LinesMet(m, p) <==> Selects(f, m, EmulatedKeys(p)) && Selects(f, m, HeaderKeys(p.header))
  {
    HeadersSelect(f, m, p.header);
    EmulatedAsked(f, m, p);
    hide Selects, EmulatedKeys, HeaderKeys;
  }

  lemma EmulatedAsked(f: Folder, m: Mail, p: Program)
    ensures Selects(f, m, EmulatedKeys(p)) <==>
      && (forall i | 0 <= i < |p.returnPath| :: m.line("Return-Path", p.returnPath[i]))
      && (forall i | 0 <= i < |p.sender| :: m.line("Sender", p.sender[i]))
      && (forall i | 0 <= i < |p.replyTo| :: m.line("Reply-To", p.replyTo[i]))
      && (forall i | 0 <= i < |p.inReplyTo| :: m.line("In-Reply-To", p.inReplyTo[i]))
      && (forall i | 0 <= i < |p.messageId| :: m.line("Message-ID", p.messageId[i]))
      && (forall i | 0 <= i < |p.newsgroups| :: m.line("Newsgroups", p.newsgroups[i]))
      && (forall i | 0 <= i < |p.followupTo| :: m.line("Followup-To", p.followupTo[i]))
      && (forall i | 0 <= i < |p.references| :: m.line("References", p.references[i]))
  {
    hide Selects, Line;
    var a := Line("Return-Path", p.returnPath) + Line("Sender", p.sender);
    var b := a + Line("Reply-To", p.replyTo);
    var c := Line("Message-ID", p.messageId) + Line("Newsgroups", p.newsgroups);
    var d := c + Line("Followup-To", p.followupTo);
    SelectsAppend(f, m, Line("Return-Path", p.returnPath), Line("Sender", p.sender));
    SelectsAppend(f, m, a, Line("Reply-To", p.replyTo));
    SelectsAppend(f, m, b, Line("In-Reply-To", p.inReplyTo));
    SelectsAppend(f, m, Line("Message-ID", p.messageId), Line("Newsgroups", p.newsgroups));
    SelectsAppend(f, m, c, Line("Followup-To", p.followupTo));
    SelectsAppend(f, m, d, Line("References", p.references));
    SelectsAppend(f, m, ReplyKeys(p), NewsKeys(p));
    LineSelects(f, m, "Return-Path", p.returnPath);
    LineSelects(f, m, "Sender", p.sender);
    LineSelects(f, m, "Reply-To", p.replyTo);
    LineSelects(f, m, "In-Reply-To", p.inReplyTo);
    LineSelects(f, m, "Message-ID", p.messageId);
    LineSelects(f, m, "Newsgroups", p.newsgroups);
    LineSelects(f, m, "Followup-To", p.followupTo);
    LineSelects(f, m, "References", p.references);
  }

  // ---- Whole programs ----

  lemma FlatAsked(f: Folder, m: Mail, p: Program)
    ensures Selects(f, m, FlatKeys(p, f.nmsgs)) <==>
      && Selects(f, m, SetKeys(p, f.nmsgs)) && Selects(f, m, Amount(Larger, p.larger) + Amount(Smaller, p.smaller))
      && Selects(f, m, FlagKeys(p, FLAGS)) && Selects(f, m, WordKeys(p)) && Selects(f, m, DateKeys(p))
      && Selects(f, m, Amount(Older, p.older) + Amount(Younger, p.younger))
      && Selects(f, m, TextKeys(p)) && Selects(f, m, EmulatedKeys(p)) && Selects(f, m, HeaderKeys(p.header))
  {
    hide Selects, SetKeys, Amount, FlagKeys, WordKeys, DateKeys, TextKeys, EmulatedKeys, HeaderKeys;
    var a := SetKeys(p, f.nmsgs) + (Amount(Larger, p.larger) + Amount(Smaller, p.smaller));
    var b := a + FlagKeys(p, FLAGS);
    var c := b + WordKeys(p);
    var d := c + DateKeys(p);
    var e := d + (Amount(Older, p.older) + Amount(Younger, p.younger));
    var g := e + TextKeys(p);
    SelectsAppend(f, m, SetKeys(p, f.nmsgs), Amount(Larger, p.larger) + Amount(Smaller, p.smaller));
    SelectsAppend(f, m, a, FlagKeys(p, FLAGS));
    SelectsAppend(f, m, b, WordKeys(p));
    SelectsAppend(f, m, c, DateKeys(p));
    SelectsAppend(f, m, d, Amount(Older, p.older) + Amount(Younger, p.younger));
    SelectsAppend(f, m, e, TextKeys(p));
    SelectsAppend(f, m, g, EmulatedKeys(p));
    SelectsAppend(f, m, g + EmulatedKeys(p), HeaderKeys(p.header));
  }

  /** A message is found exactly if it meets the condition of every field of the program,
      one side of every OR and none of the programs under NOT. */
  lemma Asked(f: Folder, m: Mail, p: Program)
    requires Proper(f, m) && DatesOk(p)
    ensures Selects(f, m, Keys(p, f.nmsgs)) <==>
      && MarksMet(f, m, p) && TimesMet(f, m, p) && TextsMet(m, p) && LinesMet(m, p)
      && (forall i | 0 <= i < |p.ors| ::
            Selects(f, m, Keys(p.ors[i].first, f.nmsgs)) || Selects(f, m, Keys(p.ors[i].second, f.nmsgs)))
      && (forall i | 0 <= i < |p.nots| :: !Selects(f, m, Keys(p.nots[i], f.nmsgs)))
  {
    hide Selects, Keys, FlatKeys, SetKeys, Amount, FlagKeys, WordKeys, DateKeys, TextKeys, EmulatedKeys, HeaderKeys;
    hide MarksMet, TimesMet, TextsMet, LinesMet, Proper, DatesOk;
    KeysAsked(f, m, p);
    FlatAsked(f, m, p);
    MarksAsked(f, m, p);
    TimesAsked(f, m, p);
    TextsAsked(f, m, p);
    LinesAsked(f, m, p);
  }

  lemma MarksAsked(f: Folder, m: Mail, p: Program)
    requires Proper(f, m)
    ensures MarksMet(f, m, p) <==>
      && Selects(f, m, SetKeys(p, f.nmsgs)) && Selects(f, m, Amount(Larger, p.larger) + Amount(Smaller, p.smaller))
      && Selects(f, m, FlagKeys(p, FLAGS)) && Selects(f, m, WordKeys(p))
  {
    hide Selects, SetKeys, Amount, FlagKeys, WordKeys, InRanges, Ranges, HasKeyword, Proper, InSome;
    SetsAsked(f, m, p);
    ItemsAsked(m.msgno, p.msgno);
    ItemsAsked(m.uid, p.uid);
    FlagsAsked(f, m, p);
    AmountsAsked(f, m, p);
    WordsSelect(f, m, p);
  }

  /** A message has a keyword exactly if a bit of it is set that the folder names so. */
  lemma KeywordMeans(f: Folder, m: Mail, w: string)
    ensures HasKeyword(f, m, w) <==> exists b :: b in m.bits && b < |f.userFlags| && SameText(f.userFlags[b], w)
  {
    hide SameText;
  }

  lemma KeysAsked(f: Folder, m: Mail, p: Program)
    ensures Selects(f, m, Keys(p, f.nmsgs)) <==>
      && Selects(f, m, FlatKeys(p, f.nmsgs))
      && (forall i | 0 <= i < |p.ors| ::
            Selects(f, m, Keys(p.ors[i].first, f.nmsgs)) || Selects(f, m, Keys(p.ors[i].second, f.nmsgs)))
      && (forall i | 0 <= i < |p.nots| :: !Selects(f, m, Keys(p.nots[i], f.nmsgs)))
  {
    hide Selects, FlatKeys, OrKeys, NotKeys;
    SelectsAppend(f, m, FlatKeys(p, f.nmsgs), OrKeys(p.ors, f.nmsgs));
    SelectsAppend(f, m, FlatKeys(p, f.nmsgs) + OrKeys(p.ors, f.nmsgs), NotKeys(p.nots, f.nmsgs));
    OrsSelect(f, m, p.ors);
    NotsSelect(f, m, p.nots);
    forall i | 0 <= i < |p.ors|
      ensures Matches(f, m, ChoiceKey(p.ors[i], f.nmsgs)) <==>
        Selects(f, m, Keys(p.ors[i].first, f.nmsgs)) || Selects(f, m, Keys(p.ors[i].second, f.nmsgs))
    {
      ChoiceAsked(f, m, p.ors[i]);
    }
    hide ChoiceKey;
  }

  lemma ChoiceAsked(f: Folder, m: Mail, c: Choice)
    ensures Matches(f, m, ChoiceKey(c, f.nmsgs)) <==>
      Selects(f, m, Keys(c.first, f.nmsgs)) || Selects(f, m, Keys(c.second, f.nmsgs))
  {
    hide Keys, Whole, Selects;
    SelectsWhole(f, m, Keys(c.first, f.nmsgs));
    SelectsWhole(f, m, Keys(c.second, f.nmsgs));
  }

  // ---- Programs that ask for one thing ----

  /** What each text field finds for one string. */
  lemma TextFound(f: Folder, m: Mail, t: string)
    ensures Selects(f, m, Keys(NOTHING.(bcc := [t]), f.nmsgs)) <==> m.field(Bcc, t)
    ensures Selects(f, m, Keys(NOTHING.(cc := [t]), f.nmsgs)) <==> m.field(Cc, t)
    ensures Selects(f, m, Keys(NOTHING.(from := [t]), f.nmsgs)) <==> m.field(From, t)
    ensures Selects(f, m, Keys(NOTHING.(to := [t]), f.nmsgs)) <==> m.field(To, t)
    ensures Selects(f, m, Keys(NOTHING.(subject := [t]), f.nmsgs)) <==> m.field(Subject, t)
    ensures Selects(f, m, Keys(NOTHING.(body := [t]), f.nmsgs)) <==> m.field(Body, t)
    ensures Selects(f, m, Keys(NOTHING.(text := [t]), f.nmsgs)) <==> m.field(Text, t)
  {
    hide Selects, Keys;
    forall fd: Field
      ensures (AllFound(m, fd, [t]) <==> m.field(fd, t)) && AllFound(m, fd, [])
    {
      Ones(f, m, fd, "", t, 0, SetItem(0, 0));
    }
    hide AllFound;
    TextsFound(f, m, NOTHING.(bcc := [t]));
    TextsFound(f, m, NOTHING.(cc := [t]));
    TextsFound(f, m, NOTHING.(from := [t]));
    TextsFound(f, m, NOTHING.(to := [t]));
    TextsFound(f, m, NOTHING.(subject := [t]));
    TextsFound(f, m, NOTHING.(body := [t]));
    TextsFound(f, m, NOTHING.(text := [t]));
  }

  lemma TextsFound(f: Folder, m: Mail, p: Program)
    requires p == NOTHING.(bcc := p.bcc, cc := p.cc, from := p.from, to := p.to, subject := p.subject, body := p.body,
                           text := p.text)
    ensures Selects(f, m, Keys(p, f.nmsgs)) <==> TextsMet(m, p)
  {
    hide Selects, Keys, TextsMet, TextKeys;
    OnlyTexts(p, f.nmsgs);
    TextsAsked(f, m, p);
  }

  /** What each emulated header field finds for one string. */
  lemma ReplyFound(f: Folder, m: Mail, t: string)
    ensures Selects(f, m, Keys(NOTHING.(returnPath := [t]), f.nmsgs)) <==> m.line("Return-Path", t)
    ensures Selects(f, m, Keys(NOTHING.(sender := [t]), f.nmsgs)) <==> m.line("Sender", t)
    ensures Selects(f, m, Keys(NOTHING.(replyTo := [t]), f.nmsgs)) <==> m.line("Reply-To", t)
    ensures Selects(f, m, Keys(NOTHING.(inReplyTo := [t]), f.nmsgs)) <==> m.line("In-Reply-To", t)
  {
    hide Selects, Keys;
    forall name
      ensures (AllLines(m, name, [t]) <==> m.line(name, t)) && AllLines(m, name, [])
    {
      Ones(f, m, Text, name, t, 0, SetItem(0, 0));
    }
    hide AllLines;
    LinesFound(f, m, NOTHING.(returnPath := [t]));
    LinesFound(f, m, NOTHING.(sender := [t]));
    LinesFound(f, m, NOTHING.(replyTo := [t]));
    LinesFound(f, m, NOTHING.(inReplyTo := [t]));
  }

  lemma NewsFound(f: Folder, m: Mail, t: string)
    ensures Selects(f, m, Keys(NOTHING.(messageId := [t]), f.nmsgs)) <==> m.line("Message-ID", t)
    ensures Selects(f, m, Keys(NOTHING.(newsgroups := [t]), f.nmsgs)) <==> m.line("Newsgroups", t)
    ensures Selects(f, m, Keys(NOTHING.(followupTo := [t]), f.nmsgs)) <==> m.line("Followup-To", t)
    ensures Selects(f, m, Keys(NOTHING.(references := [t]), f.nmsgs)) <==> m.line("References", t)
  {
    hide Selects, Keys;
    forall name
      ensures (AllLines(m, name, [t]) <==> m.line(name, t)) && AllLines(m, name, [])
    {
      Ones(f, m, Text, name, t, 0, SetItem(0, 0));
    }
    hide AllLines;
    LinesFound(f, m, NOTHING.(messageId := [t]));
    LinesFound(f, m, NOTHING.(newsgroups := [t]));
    LinesFound(f, m, NOTHING.(followupTo := [t]));
    LinesFound(f, m, NOTHING.(references := [t]));
  }

  lemma LinesFound(f: Folder, m: Mail, p: Program)
    requires p == NOTHING.(returnPath := p.returnPath, sender := p.sender, replyTo := p.replyTo,
                           inReplyTo := p.inReplyTo, messageId := p.messageId, newsgroups := p.newsgroups,
                           followupTo := p.followupTo, references := p.references)
    ensures Selects(f, m, Keys(p, f.nmsgs)) <==> LinesMet(m, p)
  {
    hide Selects, Keys, LinesMet, EmulatedKeys;
    OnlyEmulated(p, f.nmsgs);
    LinesAsked(f, m, p);
    SelectsNone(f, m);
  }

  lemma HeaderFound(f: Folder, m: Mail, name: string, t: string)
    ensures Selects(f, m, Keys(NOTHING.(header := [(name, t)]), f.nmsgs)) <==> m.line(name, t)
  {
    hide Selects, Keys;
    HeadersFound(f, m, [(name, t)]);
    assert [(name, t)][0] == (name, t);
  }

  lemma HeadersFound(f: Folder, m: Mail, list: seq<(string, string)>)
    ensures Selects(f, m, Keys(NOTHING.(header := list), f.nmsgs)) <==>
      forall i | 0 <= i < |list| :: m.line(list[i].0, list[i].1)
  {
    hide Selects, Keys, HeaderKeys;
    OnlyRest(NOTHING.(header := list), f.nmsgs);
    HeadersSelect(f, m, list);
    var ks := HeaderKeys(list);
    assert OrKeys([], f.nmsgs) == [] && NotKeys([], f.nmsgs) == [] && ks + [] + [] == ks;
  }

  /** What a flag, a keyword, a size and a set find. */
  lemma MarkFound(f: Folder, m: Mail, g: Flag, w: string, a: nat, i: SetItem)
    requires Proper(f, m) && a != 0
    ensures Selects(f, m, Keys(NOTHING.(set_ := {g}), f.nmsgs)) <==> g in m.flags
    ensures Selects(f, m, Keys(NOTHING.(clear := {g}), f.nmsgs)) <==> g !in m.flags
    ensures Selects(f, m, Keys(NOTHING.(keyword := [w]), f.nmsgs)) <==> HasKeyword(f, m, w)
    ensures Selects(f, m, Keys(NOTHING.(unkeyword := [w]), f.nmsgs)) <==> !HasKeyword(f, m, w)
    ensures Selects(f, m, Keys(NOTHING.(larger := a), f.nmsgs)) <==> m.size > a
    ensures Selects(f, m, Keys(NOTHING.(smaller := a), f.nmsgs)) <==> m.size < a
    ensures Selects(f, m, Keys(NOTHING.(msgno := [i]), f.nmsgs)) <==>
      if i.last == 0 then m.msgno == i.first else i.first <= m.msgno <= i.last || i.last <= m.msgno <= i.first
    ensures Selects(f, m, Keys(NOTHING.(uid := [i]), f.nmsgs)) <==>
      if i.last == 0 then m.uid == i.first else i.first <= m.uid <= i.last || i.last <= m.uid <= i.first
  {
    hide Selects, Keys, Proper, HasKeyword;
    Ones(f, m, Text, "", w, m.msgno, i);
    Ones(f, m, Text, "", w, m.uid, i);
    hide HasAll, HasNone, InSome;
    QuietFound(f, m, NOTHING.(set_ := {g}));
    QuietFound(f, m, NOTHING.(clear := {g}));
    QuietFound(f, m, NOTHING.(keyword := [w]));
    QuietFound(f, m, NOTHING.(unkeyword := [w]));
    QuietFound(f, m, NOTHING.(larger := a));
    QuietFound(f, m, NOTHING.(smaller := a));
    QuietFound(f, m, NOTHING.(msgno := [i]));
    QuietFound(f, m, NOTHING.(uid := [i]));
  }

  /** What a program finds that asks for no texts, header lines or other programs. */
  lemma QuietFound(f: Folder, m: Mail, p: Program)
    requires Proper(f, m) && DatesOk(p)
    requires p == NOTHING.(msgno := p.msgno, uid := p.uid, larger := p.larger, smaller := p.smaller, older := p.older,
                           younger := p.younger, set_ := p.set_, clear := p.clear, keyword := p.keyword,
                           unkeyword := p.unkeyword, sentbefore := p.sentbefore, senton := p.senton,
                           sentsince := p.sentsince, before := p.before, on := p.on, since := p.since)
    ensures Selects(f, m, Keys(p, f.nmsgs)) <==> MarksMet(f, m, p) && TimesMet(f, m, p)
  {
    hide Selects, Keys, Proper, DatesOk, MarksMet, TimesMet;
    Asked(f, m, p);
  }

  /** What a date and an age find. */
  lemma TimeFound(f: Folder, m: Mail, d: nat)
    requires Proper(f, m) && d != 0 && DateOk(d)
    ensures Selects(f, m, Keys(NOTHING.(before := d), f.nmsgs)) <==> PackedDate(m.internal) < d
    ensures Selects(f, m, Keys(NOTHING.(on := d), f.nmsgs)) <==> PackedDate(m.internal) == d
    ensures Selects(f, m, Keys(NOTHING.(since := d), f.nmsgs)) <==> PackedDate(m.internal) >= d
    ensures Selects(f, m, Keys(NOTHING.(sentbefore := d), f.nmsgs)) <==> m.sent.DateLine? && PackedDate(m.sent.date) < d
    ensures Selects(f, m, Keys(NOTHING.(senton := d), f.nmsgs)) <==> m.sent.DateLine? && PackedDate(m.sent.date) == d
    ensures Selects(f, m, Keys(NOTHING.(sentsince := d), f.nmsgs)) <==> m.sent.DateLine? && PackedDate(m.sent.date) >= d
  {
    assert DateOk(0);
    hide Selects, Keys, Proper, DateOk, PackedDate;
    QuietFound(f, m, NOTHING.(before := d));
    QuietFound(f, m, NOTHING.(on := d));
    QuietFound(f, m, NOTHING.(since := d));
    QuietFound(f, m, NOTHING.(sentbefore := d));
    QuietFound(f, m, NOTHING.(senton := d));
    QuietFound(f, m, NOTHING.(sentsince := d));
  }

  lemma AgeFound(f: Folder, m: Mail, a: nat)
    requires Proper(f, m) && a != 0
    ensures Selects(f, m, Keys(NOTHING.(older := a), f.nmsgs)) <==> m.arrived + a <= f.now
    ensures Selects(f, m, Keys(NOTHING.(younger := a), f.nmsgs)) <==> m.arrived + a >= f.now
  {
    hide Selects, Keys, Proper;
    QuietFound(f, m, NOTHING.(older := a));
    QuietFound(f, m, NOTHING.(younger := a));
  }
}
