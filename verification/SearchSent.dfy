/** What a search program sends, field by field: the text of the command. */
module SearchSent {
  import opened Sequences
  import opened Texts
  import opened Calendar
  import opened SearchGrammar
  import opened SearchProgram
  import opened SearchCommand

  /** The program that asks for nothing. */
  const NOTHING: Program :=
    Program([], [], 0, 0, 0, 0, {}, {}, [], [], 0, 0, 0, 0, 0, 0, [], [], [], [], [], [], [],
            [], [], [], [], [], [], [], [], [], [], [])

  /** The text that is sent for a program. */
  ghost predicate Sends(p: Program, nmsgs: nat, s: string) {
    Fine(Keys(p, nmsgs)) && Render(Keys(p, nmsgs)) == s
  }

  // ---- Programs with one group of fields ----

  lemma None<T>(s: seq<T>)
    ensures [] + s == s && s + [] == s
  {
  }

  /** The parts of the keys of a program. */
  lemma KeysParts(p: Program, nmsgs: nat, sizes: seq<Key>, ages: seq<Key>, lines: seq<Key>)
    requires sizes == Amount(Larger, p.larger) + Amount(Smaller, p.smaller)
    requires ages == Amount(Older, p.older) + Amount(Younger, p.younger)
    requires lines == HeaderKeys(p.header)
    ensures Keys(p, nmsgs) ==
      SetKeys(p, nmsgs) + sizes + FlagKeys(p, FLAGS) + WordKeys(p) + DateKeys(p) + ages + TextKeys(p) + EmulatedKeys(p)
      + lines + OrKeys(p.ors, nmsgs) + NotKeys(p.nots, nmsgs)
  {
    hide SetKeys, Amount, FlagKeys, WordKeys, DateKeys, TextKeys, EmulatedKeys, HeaderKeys, OrKeys, NotKeys;
  }

  lemma NoAmounts()
    ensures Amount(Larger, 0) + Amount(Smaller, 0) == [] && Amount(Older, 0) + Amount(Younger, 0) == []
  {
  }

  lemma {:induction false} NoFlags(p: Program, fs: seq<Flag>)
    requires p.set_ == {} && p.clear == {}
    ensures FlagKeys(p, fs) == []
  {
    if fs != [] {
      NoFlags(p, fs[..|fs| - 1]);
    }
  }

  lemma NoWords(p: Program)
    requires p.keyword == [] && p.unkeyword == []
    ensures WordKeys(p) == []
  {
  }

  lemma NoDates(p: Program)
    requires p.sentbefore == 0 && p.senton == 0 && p.sentsince == 0 && p.before == 0 && p.on == 0 && p.since == 0
    ensures DateKeys(p) == []
  {
  }

  lemma NoTexts(p: Program)
    requires p.bcc == [] && p.cc == [] && p.from == [] && p.to == [] && p.subject == [] && p.body == [] && p.text == []
    ensures TextKeys(p) == []
  {
  }

  lemma NoEmulated(p: Program)
    requires p.returnPath == [] && p.sender == [] && p.replyTo == [] && p.inReplyTo == []
    requires p.messageId == [] && p.newsgroups == [] && p.followupTo == [] && p.references == []
    ensures EmulatedKeys(p) == []
  {
  }

  lemma OnlySets(p: Program, nmsgs: nat)
    requires p == NOTHING.(msgno := p.msgno, uid := p.uid)
    ensures Keys(p, nmsgs) == SetKeys(p, nmsgs)
  {
    NoAmounts();
    NoFlags(p, FLAGS);
    NoWords(p);
    NoDates(p);
    NoTexts(p);
    NoEmulated(p);
    hide Keys, Amount, FlagKeys, WordKeys, DateKeys, TextKeys, EmulatedKeys;
    KeysParts(p, nmsgs, Amount(Larger, p.larger) + Amount(Smaller, p.smaller),
              Amount(Older, p.older) + Amount(Younger, p.younger), []);
  }

  lemma OnlyFlags(p: Program, nmsgs: nat)
    requires p == NOTHING.(set_ := p.set_, clear := p.clear)
    ensures Keys(p, nmsgs) == FlagKeys(p, FLAGS)
  {
    NoAmounts();
    NoWords(p);
    NoDates(p);
    NoTexts(p);
    NoEmulated(p);
    hide Keys, Amount, FlagKeys, WordKeys, DateKeys, TextKeys, EmulatedKeys;
    KeysParts(p, nmsgs, Amount(Larger, p.larger) + Amount(Smaller, p.smaller),
              Amount(Older, p.older) + Amount(Younger, p.younger), []);
  }

  lemma OnlyWords(p: Program, nmsgs: nat)
    requires p == NOTHING.(keyword := p.keyword, unkeyword := p.unkeyword)
    ensures Keys(p, nmsgs) == WordKeys(p)
  {
    NoAmounts();
    NoFlags(p, FLAGS);
    NoDates(p);
    NoTexts(p);
    NoEmulated(p);
    hide Keys, Amount, FlagKeys, WordKeys, DateKeys, TextKeys, EmulatedKeys;
    KeysParts(p, nmsgs, Amount(Larger, p.larger) + Amount(Smaller, p.smaller),
              Amount(Older, p.older) + Amount(Younger, p.younger), []);
  }

  lemma OnlyDates(p: Program, nmsgs: nat)
    requires p == NOTHING.(sentbefore := p.sentbefore, senton := p.senton, sentsince := p.sentsince,
                           before := p.before, on := p.on, since := p.since)
    ensures Keys(p, nmsgs) == DateKeys(p)
  {
    NoAmounts();
    NoFlags(p, FLAGS);
    NoWords(p);
    NoTexts(p);
    NoEmulated(p);
    hide Keys, Amount, FlagKeys, WordKeys, DateKeys, TextKeys, EmulatedKeys;
    KeysParts(p, nmsgs, Amount(Larger, p.larger) + Amount(Smaller, p.smaller),
              Amount(Older, p.older) + Amount(Younger, p.younger), []);
  }

  lemma OnlyTexts(p: Program, nmsgs: nat)
    requires p == NOTHING.(bcc := p.bcc, cc := p.cc, from := p.from, to := p.to, subject := p.subject, body := p.body,
                           text := p.text)
    ensures Keys(p, nmsgs) == TextKeys(p)
  {
    NoAmounts();
    NoFlags(p, FLAGS);
    NoWords(p);
    NoDates(p);
    NoEmulated(p);
    hide Keys, Amount, FlagKeys, WordKeys, DateKeys, TextKeys, EmulatedKeys;
    KeysParts(p, nmsgs, Amount(Larger, p.larger) + Amount(Smaller, p.smaller),
              Amount(Older, p.older) + Amount(Younger, p.younger), []);
  }

  lemma OnlyEmulated(p: Program, nmsgs: nat)
    requires p == NOTHING.(returnPath := p.returnPath, sender := p.sender, replyTo := p.replyTo,
                           inReplyTo := p.inReplyTo, messageId := p.messageId, newsgroups := p.newsgroups,
                           followupTo := p.followupTo, references := p.references)
    ensures Keys(p, nmsgs) == EmulatedKeys(p)
  {
    NoAmounts();
    NoFlags(p, FLAGS);
    NoWords(p);
    NoDates(p);
    NoTexts(p);
    hide Keys, Amount, FlagKeys, WordKeys, DateKeys, TextKeys, EmulatedKeys;
    KeysParts(p, nmsgs, Amount(Larger, p.larger) + Amount(Smaller, p.smaller),
              Amount(Older, p.older) + Amount(Younger, p.younger), []);
  }

  lemma OnlyAmounts(p: Program, nmsgs: nat)
    requires p == NOTHING.(larger := p.larger, smaller := p.smaller, older := p.older, younger := p.younger)
    ensures Keys(p, nmsgs) ==
      Amount(Larger, p.larger) + Amount(Smaller, p.smaller) + (Amount(Older, p.older) + Amount(Younger, p.younger))
  {
    NoFlags(p, FLAGS);
    NoWords(p);
    NoDates(p);
    NoTexts(p);
    NoEmulated(p);
    hide Keys, Amount, FlagKeys, WordKeys, DateKeys, TextKeys, EmulatedKeys;
    KeysParts(p, nmsgs, Amount(Larger, p.larger) + Amount(Smaller, p.smaller),
              Amount(Older, p.older) + Amount(Younger, p.younger), []);
  }

  lemma OnlyRest(p: Program, nmsgs: nat)
    requires p == NOTHING.(header := p.header, ors := p.ors, nots := p.nots)
    ensures Keys(p, nmsgs) == HeaderKeys(p.header) + OrKeys(p.ors, nmsgs) + NotKeys(p.nots, nmsgs)
  {
    NoAmounts();
    NoFlags(p, FLAGS);
    NoWords(p);
    NoDates(p);
    NoTexts(p);
    NoEmulated(p);
    hide Keys, Amount, FlagKeys, WordKeys, DateKeys, TextKeys, EmulatedKeys, HeaderKeys, OrKeys, NotKeys;
    KeysParts(p, nmsgs, Amount(Larger, p.larger) + Amount(Smaller, p.smaller),
              Amount(Older, p.older) + Amount(Younger, p.younger), HeaderKeys(p.header));
  }

  // ---- The text of one key ----

  /** A string is sent as it is if it is not empty and none of its characters is a
      blank, a control or one of six specials, and in quotes otherwise. */
  function Astring(t: string): string {
    if t != "" && forall i | 0 <= i < |t| ::
         32 as char < t[i] < 127 as char && t[i] != '(' && t[i] != ')' && t[i] != '{' && t[i] != '%' && t[i] != '*'
         && t[i] != '"' && t[i] != '\\'
    then t
    else "\"" + t + "\""
  }

  lemma AstringIs(t: string)
    ensures PrintString(t) == Astring(t)
  {
  }

  lemma OneKey(p: Program, nmsgs: nat, k: Key, s: string)
    requires Keys(p, nmsgs) == [k] && Ok(k) && Print(k) == s
    ensures Sends(p, nmsgs, s)
  {
    hide Print, Keys;
  }

  lemma InNone(fd: Field)
    ensures In(fd, []) == []
  {
  }

  lemma InOne(fd: Field, t: string)
    ensures In(fd, [t]) == [Contains(fd, t)]
  {
  }

  lemma FieldSent(p: Program, n: nat, fd: Field, name: string, t: string)
    requires Sendable(t) && name == SpellField(fd) + " "
    requires p == NOTHING.(bcc := p.bcc, cc := p.cc, from := p.from, to := p.to, subject := p.subject, body := p.body,
                           text := p.text)
    requires TextKeys(p) == [Contains(fd, t)]
    ensures Sends(p, n, name + Astring(t))
  {
    hide TextKeys, Keys, Sends, Astring, SpellField, PrintString;
    OnlyTexts(p, n);
    AstringIs(t);
    OneKey(p, n, Contains(fd, t), name + Astring(t));
  }

  /** What each text field sends for one string. */
  lemma TextSent(t: string, n: nat)
    requires Sendable(t)
    ensures Sends(NOTHING.(bcc := [t]), n, "BCC " + Astring(t))
    ensures Sends(NOTHING.(cc := [t]), n, "CC " + Astring(t))
    ensures Sends(NOTHING.(from := [t]), n, "FROM " + Astring(t))
    ensures Sends(NOTHING.(to := [t]), n, "TO " + Astring(t))
    ensures Sends(NOTHING.(subject := [t]), n, "SUBJECT " + Astring(t))
    ensures Sends(NOTHING.(body := [t]), n, "BODY " + Astring(t))
    ensures Sends(NOTHING.(text := [t]), n, "TEXT " + Astring(t))
  {
    hide Sends, Astring, In;
    forall fd: Field
      ensures In(fd, []) == [] && In(fd, [t]) == [Contains(fd, t)]
    {
      InNone(fd);
      InOne(fd, t);
    }
    FieldSent(NOTHING.(bcc := [t]), n, Bcc, "BCC ", t);
    FieldSent(NOTHING.(cc := [t]), n, Cc, "CC ", t);
    FieldSent(NOTHING.(from := [t]), n, From, "FROM ", t);
    FieldSent(NOTHING.(to := [t]), n, To, "TO ", t);
    FieldSent(NOTHING.(subject := [t]), n, Subject, "SUBJECT ", t);
    FieldSent(NOTHING.(body := [t]), n, Body, "BODY ", t);
    FieldSent(NOTHING.(text := [t]), n, Text, "TEXT ", t);
  }

  // ---- Header lines ----

  lemma LineNone(name: string)
    ensures Line(name, []) == []
  {
  }

  lemma LineOne(name: string, t: string)
    ensures Line(name, [t]) == [Header(name, t)]
  {
  }

  lemma HeaderKeySent(p: Program, n: nat, name: string, t: string)
    requires Sendable(name) && Sendable(t) && Keys(p, n) == [Header(name, t)]
    ensures Sends(p, n, "HEADER " + Astring(name) + " " + Astring(t))
  {
    hide Keys, Sends, Astring, PrintString;
    AstringIs(name);
    AstringIs(t);
    var s := "HEADER " + Astring(name) + " " + Astring(t);
    assert "HEADER" + " " == "HEADER ";
    Assoc("HEADER ", Astring(name), " " + Astring(t));
    Assoc("HEADER " + Astring(name), " ", Astring(t));
    Assoc("HEADER", " ", Astring(name) + (" " + Astring(t)));
    OneKey(p, n, Header(name, t), s);
  }

  lemma LineSent(p: Program, n: nat, name: string, t: string)
    requires Sendable(t) && IsAtom(name)
    requires p == NOTHING.(returnPath := p.returnPath, sender := p.sender, replyTo := p.replyTo,
                           inReplyTo := p.inReplyTo, messageId := p.messageId, newsgroups := p.newsgroups,
                           followupTo := p.followupTo, references := p.references)
    requires EmulatedKeys(p) == [Header(name, t)]
    ensures Sends(p, n, "HEADER " + name + " " + Astring(t))
  {
    hide EmulatedKeys, Keys, Sends;
    OnlyEmulated(p, n);
    HeaderKeySent(p, n, name, t);
    AtomForm(name);
  }

  lemma AtomForm(t: string)
    requires IsAtom(t)
    ensures Astring(t) == t && Sendable(t)
  {
  }

  lemma NamesAreAtoms()
    ensures IsAtom("Return-Path") && IsAtom("Sender") && IsAtom("Reply-To") && IsAtom("In-Reply-To")
    ensures IsAtom("Message-ID") && IsAtom("Newsgroups") && IsAtom("Followup-To") && IsAtom("References")
  {
  }

  lemma EmulatedIs(p: Program)
    ensures EmulatedKeys(p) ==
      Line("Return-Path", p.returnPath) + Line("Sender", p.sender) + Line("Reply-To", p.replyTo)
      + Line("In-Reply-To", p.inReplyTo)
      + (Line("Message-ID", p.messageId) + Line("Newsgroups", p.newsgroups) + Line("Followup-To", p.followupTo)
         + Line("References", p.references))
  {
    hide Line;
  }

  lemma LinesNone(t: string)
    ensures forall name :: Line(name, []) == [] && Line(name, [t]) == [Header(name, t)]
  {
    hide Line;
    forall name
      ensures Line(name, []) == [] && Line(name, [t]) == [Header(name, t)]
    {
      LineNone(name);
      LineOne(name, t);
    }
  }

  /** What each emulated header field sends for one string. */
  lemma ReplySent(t: string, n: nat)
    requires Sendable(t)
    ensures Sends(NOTHING.(returnPath := [t]), n, "HEADER " + "Return-Path" + " " + Astring(t))
    ensures Sends(NOTHING.(sender := [t]), n, "HEADER " + "Sender" + " " + Astring(t))
    ensures Sends(NOTHING.(replyTo := [t]), n, "HEADER " + "Reply-To" + " " + Astring(t))
    ensures Sends(NOTHING.(inReplyTo := [t]), n, "HEADER " + "In-Reply-To" + " " + Astring(t))
  {
    hide Sends, Astring, Line, EmulatedKeys, IsAtom;
    NamesAreAtoms();
    LinesNone(t);
    EmulatedIs(NOTHING.(returnPath := [t]));
    EmulatedIs(NOTHING.(sender := [t]));
    EmulatedIs(NOTHING.(replyTo := [t]));
    EmulatedIs(NOTHING.(inReplyTo := [t]));
    LineSent(NOTHING.(returnPath := [t]), n, "Return-Path", t);
    LineSent(NOTHING.(sender := [t]), n, "Sender", t);
    LineSent(NOTHING.(replyTo := [t]), n, "Reply-To", t);
    LineSent(NOTHING.(inReplyTo := [t]), n, "In-Reply-To", t);
  }

  lemma NewsSent(t: string, n: nat)
    requires Sendable(t)
    ensures Sends(NOTHING.(messageId := [t]), n, "HEADER " + "Message-ID" + " " + Astring(t))
    ensures Sends(NOTHING.(newsgroups := [t]), n, "HEADER " + "Newsgroups" + " " + Astring(t))
    ensures Sends(NOTHING.(followupTo := [t]), n, "HEADER " + "Followup-To" + " " + Astring(t))
    ensures Sends(NOTHING.(references := [t]), n, "HEADER " + "References" + " " + Astring(t))
  {
    hide Sends, Astring, Line, EmulatedKeys, IsAtom;
    NamesAreAtoms();
    LinesNone(t);
    EmulatedIs(NOTHING.(messageId := [t]));
    EmulatedIs(NOTHING.(newsgroups := [t]));
    EmulatedIs(NOTHING.(followupTo := [t]));
    EmulatedIs(NOTHING.(references := [t]));
    LineSent(NOTHING.(messageId := [t]), n, "Message-ID", t);
    LineSent(NOTHING.(newsgroups := [t]), n, "Newsgroups", t);
    LineSent(NOTHING.(followupTo := [t]), n, "Followup-To", t);
    LineSent(NOTHING.(references := [t]), n, "References", t);
  }

  lemma {:induction false} HeaderSent(name: string, t: string, n: nat)
    requires Sendable(name) && Sendable(t)
    ensures Sends(NOTHING.(header := [(name, t)]), n, "HEADER " + Astring(name) + " " + Astring(t))
  {
    hide Keys, Sends, Astring;
    var p := NOTHING.(header := [(name, t)]);
    OnlyRest(p, n);
    assert [(name, t)][..0] == [];
    assert HeaderKeys(p.header) == [Header(name, t)];
    HeaderKeySent(p, n, name, t);
  }

  // ---- Keywords, flags and amounts ----

  lemma KeywordSent(w: string, n: nat)
    requires IsAtom(w)
    ensures Sends(NOTHING.(keyword := [w]), n, "KEYWORD " + w)
    ensures Sends(NOTHING.(unkeyword := [w]), n, "UNKEYWORD " + w)
  {
    hide Sends;
    WordSent(NOTHING.(keyword := [w]), n, Keyword(w), "KEYWORD", w);
    WordSent(NOTHING.(unkeyword := [w]), n, Unkeyword(w), "UNKEYWORD", w);
    assert "KEYWORD" + " " == "KEYWORD " && "UNKEYWORD" + " " == "UNKEYWORD ";
  }

  lemma WordSent(p: Program, n: nat, k: Key, name: string, w: string)
    requires IsAtom(w) && p == NOTHING.(keyword := p.keyword, unkeyword := p.unkeyword)
    requires WordKeys(p) == [k]
    requires ((k == Keyword(w) && name == "KEYWORD") || (k == Unkeyword(w) && name == "UNKEYWORD"))
    ensures Sends(p, n, name + " " + w)
  {
    hide Keys, Sends, WordKeys;
    OnlyWords(p, n);
    Assoc(name, " ", w);
    OneKey(p, n, k, name + " " + w);
  }

  lemma FlagsNext(p: Program, fs: seq<Flag>, g: Flag)
    ensures FlagKeys(p, fs + [g]) == FlagKeys(p, fs) + FlagPair(p, g)
  {
    hide FlagPair;
    assert (fs + [g])[..|fs|] == fs;
  }

  lemma FlagsOf(p: Program)
    ensures FlagKeys(p, FLAGS) ==
      [] + FlagPair(p, Answered) + FlagPair(p, Deleted) + FlagPair(p, Draft) + FlagPair(p, Flagged)
      + FlagPair(p, Recent) + FlagPair(p, Seen)
  {
    assert FlagKeys(p, []) == [];
    hide FlagPair, FlagKeys;
    FlagsNext(p, [], Answered);
    FlagsNext(p, [] + [Answered], Deleted);
    FlagsNext(p, [] + [Answered] + [Deleted], Draft);
    FlagsNext(p, [] + [Answered] + [Deleted] + [Draft], Flagged);
    FlagsNext(p, [] + [Answered] + [Deleted] + [Draft] + [Flagged], Recent);
    FlagsNext(p, [] + [Answered] + [Deleted] + [Draft] + [Flagged] + [Recent], Seen);
    assert FLAGS == [] + [Answered] + [Deleted] + [Draft] + [Flagged] + [Recent] + [Seen];
  }

  lemma FlagSent(g: Flag, n: nat, set_: string, clear: string)
    requires set_ == SpellFlag(g) && clear == SpellLack(g)
    ensures Sends(NOTHING.(set_ := {g}), n, set_) && Sends(NOTHING.(clear := {g}), n, clear)
  {
    hide Keys, Sends, FlagKeys, SpellFlag, SpellLack;
    var p, q := NOTHING.(set_ := {g}), NOTHING.(clear := {g});
    FlagPairs(p, g, [Has(g)]);
    FlagPairs(q, g, [Lacks(g)]);
    OnlyFlags(p, n);
    OnlyFlags(q, n);
    assert SpellFlag(g) + "" == SpellFlag(g) && SpellLack(g) + "" == SpellLack(g);
    OneKey(p, n, Has(g), set_);
    OneKey(q, n, Lacks(g), clear);
  }

  /** The keys of a program that asks for one flag. */
  lemma FlagPairs(p: Program, g: Flag, ks: seq<Key>)
    requires p.set_ + p.clear == {g} && ks == FlagPair(p, g)
    ensures FlagKeys(p, FLAGS) == ks
  {
    FlagsOf(p);
    forall h: Flag | h != g
      ensures FlagPair(p, h) == []
    {
      assert h !in p.set_ + p.clear;
    }
    hide FlagPair, FlagKeys;
  }

  /** What each flag sends, set or clear. */
  lemma FlagsSent(n: nat)
    ensures Sends(NOTHING.(set_ := {Answered}), n, "ANSWERED") && Sends(NOTHING.(clear := {Answered}), n, "UNANSWERED")
    ensures Sends(NOTHING.(set_ := {Deleted}), n, "DELETED") && Sends(NOTHING.(clear := {Deleted}), n, "UNDELETED")
    ensures Sends(NOTHING.(set_ := {Draft}), n, "DRAFT") && Sends(NOTHING.(clear := {Draft}), n, "UNDRAFT")
    ensures Sends(NOTHING.(set_ := {Flagged}), n, "FLAGGED") && Sends(NOTHING.(clear := {Flagged}), n, "UNFLAGGED")
    ensures Sends(NOTHING.(set_ := {Recent}), n, "RECENT") && Sends(NOTHING.(clear := {Recent}), n, "OLD")
    ensures Sends(NOTHING.(set_ := {Seen}), n, "SEEN") && Sends(NOTHING.(clear := {Seen}), n, "UNSEEN")
  {
    hide Sends;
    FlagSent(Answered, n, "ANSWERED", "UNANSWERED");
    FlagSent(Deleted, n, "DELETED", "UNDELETED");
    FlagSent(Draft, n, "DRAFT", "UNDRAFT");
    FlagSent(Flagged, n, "FLAGGED", "UNFLAGGED");
    FlagSent(Recent, n, "RECENT", "OLD");
    FlagSent(Seen, n, "SEEN", "UNSEEN");
  }

  lemma AmountSent(p: Program, n: nat, measure: Measure, name: string, a: nat)
    requires name == SpellMeasure(measure) + " " && Keys(p, n) == [Measured(measure, a)]
    ensures Sends(p, n, name + Decimal(a))
  {
    hide Keys, Sends, SpellMeasure, Decimal;
    Assoc(SpellMeasure(measure), " ", Decimal(a));
    OneKey(p, n, Measured(measure, a), name + Decimal(a));
  }

  /** What sizes and ages send. */
  lemma AmountsSent(a: nat, n: nat)
    requires a != 0
    ensures Sends(NOTHING.(larger := a), n, "LARGER " + Decimal(a))
    ensures Sends(NOTHING.(smaller := a), n, "SMALLER " + Decimal(a))
    ensures Sends(NOTHING.(older := a), n, "OLDER " + Decimal(a))
    ensures Sends(NOTHING.(younger := a), n, "YOUNGER " + Decimal(a))
  {
    hide Keys, Sends, Decimal;
    OnlyAmounts(NOTHING.(larger := a), n);
    OnlyAmounts(NOTHING.(smaller := a), n);
    OnlyAmounts(NOTHING.(older := a), n);
    OnlyAmounts(NOTHING.(younger := a), n);
    AmountSent(NOTHING.(larger := a), n, Larger, "LARGER ", a);
    AmountSent(NOTHING.(smaller := a), n, Smaller, "SMALLER ", a);
    AmountSent(NOTHING.(older := a), n, Older, "OLDER ", a);
    AmountSent(NOTHING.(younger := a), n, Younger, "YOUNGER ", a);
  }

  // ---- Dates ----

  /** The text of a date of a program. */
  function DateSpelled(packed: nat): string
    requires DateOk(packed) && packed != 0
  {
    Decimal(packed % 32) + "-" + MONTHS[packed / 32 % 16 - 1] + "-" + Decimal(1970 + packed / 512)
  }

  lemma DateIs(packed: nat)
    requires DateOk(packed) && packed != 0
    ensures PrintDate(Unpack(packed)) == DateSpelled(packed)
  {
    hide MonthName, Decimal;
    MonthsAre(packed / 32 % 16);
  }

  lemma DateKeySent(p: Program, n: nat, sent: bool, r: Relation, name: string, packed: nat)
    requires DateOk(packed) && packed != 0 && name == SpellDate(sent, r) + " "
    requires Keys(p, n) == [Dated(sent, r, Unpack(packed))]
    ensures Sends(p, n, name + DateSpelled(packed))
  {
    hide Keys, Sends, SpellDate, PrintDate, DateSpelled;
    DateIs(packed);
    Assoc(SpellDate(sent, r), " ", DateSpelled(packed));
    OneKey(p, n, Dated(sent, r, Unpack(packed)), name + DateSpelled(packed));
  }

  /** What each date sends. */
  lemma DatesSent(d: nat, n: nat)
    requires DateOk(d) && d != 0
    ensures Sends(NOTHING.(sentbefore := d), n, "SENTBEFORE " + DateSpelled(d))
    ensures Sends(NOTHING.(senton := d), n, "SENTON " + DateSpelled(d))
    ensures Sends(NOTHING.(sentsince := d), n, "SENTSINCE " + DateSpelled(d))
    ensures Sends(NOTHING.(before := d), n, "BEFORE " + DateSpelled(d))
    ensures Sends(NOTHING.(on := d), n, "ON " + DateSpelled(d))
    ensures Sends(NOTHING.(since := d), n, "SINCE " + DateSpelled(d))
  {
    hide Keys, Sends, DateSpelled, Unpack, DateOk;
    OnlyDates(NOTHING.(sentbefore := d), n);
    OnlyDates(NOTHING.(senton := d), n);
    OnlyDates(NOTHING.(sentsince := d), n);
    OnlyDates(NOTHING.(before := d), n);
    OnlyDates(NOTHING.(on := d), n);
    OnlyDates(NOTHING.(since := d), n);
    DateKeySent(NOTHING.(sentbefore := d), n, true, Before, "SENTBEFORE ", d);
    DateKeySent(NOTHING.(senton := d), n, true, On, "SENTON ", d);
    DateKeySent(NOTHING.(sentsince := d), n, true, Since, "SENTSINCE ", d);
    DateKeySent(NOTHING.(before := d), n, false, Before, "BEFORE ", d);
    DateKeySent(NOTHING.(on := d), n, false, On, "ON ", d);
    DateKeySent(NOTHING.(since := d), n, false, Since, "SINCE ", d);
  }

  // ---- Sets ----

  /** An item of a set: one number, or the two ends of a range. */
  function ItemSpelled(i: SetItem): string {
    if i.last == 0 || i.last == i.first then Decimal(i.first) else Decimal(i.first) + ":" + Decimal(i.last)
  }

  lemma ItemIs(i: SetItem)
    ensures PrintRange(RangeOf(i)) == ItemSpelled(i)
  {
  }

  lemma {:induction false} SetSpelled(items: seq<SetItem>)
    ensures |items| == 1 ==> PrintSet(Ranges(items)) == ItemSpelled(items[0])
    ensures |items| > 1 ==> PrintSet(Ranges(items)) == ItemSpelled(items[0]) + "," + PrintSet(Ranges(items[1..]))
  {
    hide PrintRange, ItemSpelled, RangeOf;
    if items != [] {
      ItemIs(items[0]);
      assert Ranges(items)[1..] == Ranges(items[1..]);
    }
  }

  /** What a set of messages sends, unless it is that of all, and a set of UIDs. */
  lemma SetsSent(i: SetItem, j: SetItem, n: nat)
    ensures (i.first, i.last) != (1, n) ==> Sends(NOTHING.(msgno := [i]), n, ItemSpelled(i))
    ensures (i.first, i.last) == (1, n) ==> Sends(NOTHING.(msgno := [i]), n, "ALL")
    ensures Sends(NOTHING.(msgno := [i, j]), n, ItemSpelled(i) + "," + ItemSpelled(j))
    ensures Sends(NOTHING.(uid := [i]), n, "UID " + ItemSpelled(i))
    ensures Sends(NOTHING.(uid := [i, j]), n, "UID " + (ItemSpelled(i) + "," + ItemSpelled(j)))
  {
    hide Keys, Sends, Ranges, ItemSpelled, PrintSet;
    SetSpelled([i]);
    SetSpelled([i, j]);
    SetSpelled([j]);
    assert [i, j][1..] == [j];
    MessagesSent([i], n);
    MessagesSent([i, j], n);
    UidsSent([i], n);
    UidsSent([i, j], n);
  }

  lemma MessagesSent(items: seq<SetItem>, n: nat)
    requires items != []
    ensures !IsWhole(items, n) ==> Sends(NOTHING.(msgno := items), n, PrintSet(Ranges(items)))
    ensures IsWhole(items, n) ==> Sends(NOTHING.(msgno := items), n, "ALL")
  {
    hide Keys, Sends, PrintSet, Ranges;
    var p := NOTHING.(msgno := items);
    OnlySets(p, n);
    if IsWhole(items, n) {
      NoKeys(p, n);
    } else {
      OneKey(p, n, Messages(Ranges(items)), PrintSet(Ranges(items)));
    }
  }

  lemma NoKeys(p: Program, n: nat)
    requires Keys(p, n) == []
    ensures Sends(p, n, "ALL")
  {
    hide Keys;
    AllText();
  }

  lemma UidsSent(items: seq<SetItem>, n: nat)
    requires items != []
    ensures Sends(NOTHING.(uid := items), n, "UID " + PrintSet(Ranges(items)))
  {
    hide Keys, Sends, PrintSet, Ranges;
    var p := NOTHING.(uid := items);
    OnlySets(p, n);
    var s := PrintSet(Ranges(items));
    assert "UID" + " " == "UID ";
    Assoc("UID", " ", s);
    OneKey(p, n, Uids(Ranges(items)), "UID " + s);
  }

  // ---- Programs in programs ----

  /** What an OR of two programs and the NOT of one send. */
  lemma NestedSent(a: Program, b: Program, n: nat, s: string, t: string)
    requires Sends(a, n, s) && Sends(b, n, t)
    ensures Sends(NOTHING.(ors := [Choice(a, b)]), n, "OR (" + s + ") (" + t + ")")
    ensures Sends(NOTHING.(nots := [a]), n, "NOT (" + s + ")")
  {
    OrSent(a, b, n, s, t);
    NotSent(a, n, s);
    hide Sends;
  }

  lemma GroupSent(a: Program, n: nat, s: string)
    requires Sends(a, n, s)
    ensures Ok(Group(Whole(Keys(a, n)))) && Print(Group(Whole(Keys(a, n)))) == "(" + s + ")"
  {
    hide Keys, PrintAll;
    WholeFine(Keys(a, n));
  }

  lemma {:induction false} OrSent(a: Program, b: Program, n: nat, s: string, t: string)
    requires Sends(a, n, s) && Sends(b, n, t)
    ensures Sends(NOTHING.(ors := [Choice(a, b)]), n, "OR (" + s + ") (" + t + ")")
  {
    hide Keys, Whole, Print, Sends;
    GroupSent(a, n, s);
    GroupSent(b, n, t);
    var p := NOTHING.(ors := [Choice(a, b)]);
    OnlyRest(p, n);
    var k := Or(Group(Whole(Keys(a, n))), Group(Whole(Keys(b, n))));
    OrOnly(a, b, n);
    OrSpelled(Print(k.first), Print(k.second), s, t);
    assert Ok(k);
    PrintOr(k);
    OneKey(p, n, k, "OR (" + s + ") (" + t + ")");
  }

  lemma PrintOr(k: Key)
    requires k.Or? && Ok(k)
    ensures Print(k) == "OR" + (" " + (Print(k.first) + (" " + Print(k.second))))
  {
  }

  lemma PrintNot(k: Key)
    requires k.Not? && Ok(k)
    ensures Print(k) == "NOT" + (" " + Print(k.key))
  {
  }

  lemma OrSpelled(x: string, y: string, s: string, t: string)
    requires x == "(" + s + ")" && y == "(" + t + ")"
    ensures "OR" + (" " + (x + (" " + y))) == "OR (" + s + ") (" + t + ")"
  {
    assert "OR" + (" " + (x + (" " + y))) == "OR" + " " + "(" + s + ")" + " " + "(" + t + ")";
  }

  lemma {:induction false} OrOnly(a: Program, b: Program, n: nat)
    ensures OrKeys([Choice(a, b)], n) == [Or(Group(Whole(Keys(a, n))), Group(Whole(Keys(b, n))))]
  {
    hide Keys, Whole;
    assert [Choice(a, b)][..0] == [] && OrKeys([], n) == [];
  }

  lemma {:induction false} NotSent(a: Program, n: nat, s: string)
    requires Sends(a, n, s)
    ensures Sends(NOTHING.(nots := [a]), n, "NOT (" + s + ")")
  {
    hide Keys, Whole, Print, Sends;
    GroupSent(a, n, s);
    var p := NOTHING.(nots := [a]);
    OnlyRest(p, n);
    var k := Not(Group(Whole(Keys(a, n))));
    NotOnly(a, n);
    assert Ok(k);
    PrintNot(k);
    assert "NOT" + (" " + ("(" + s + ")")) == "NOT (" + s + ")";
    OneKey(p, n, k, "NOT (" + s + ")");
  }

  lemma {:induction false} NotOnly(a: Program, n: nat)
    ensures NotKeys([a], n) == [Not(Group(Whole(Keys(a, n))))]
  {
    hide Keys, Whole;
    assert [a][..0] == [] && NotKeys([], n) == [];
  }

  /** Two keys are sent with a blank between them. */
  lemma TwoSent(k: Key, l: Key)
    requires Ok(k) && Ok(l)
    ensures Fine([k]) && Fine([l]) && Fine([k, l]) && Render([k, l]) == Render([k]) + " " + Render([l])
  {
    hide Print;
    assert [k, l][1..] == [l];
    Assoc(Print(k), " ", Print(l));
  }
}
