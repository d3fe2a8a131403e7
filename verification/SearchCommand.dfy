/** Writing a search program as the text of a SEARCH command, with the leading
    "ALL" trimmed in place. */
module SearchCommand {
  import opened Sequences
  import opened Texts
  import opened Calendar
  import opened SearchGrammar
  import opened SearchProgram

  /** The keys with a space before each. */
  ghost function Spaced(ks: seq<Key>): string
    requires Fine(ks)
  {
    if ks == [] then "" else Spaced(ks[..|ks| - 1]) + " " + Print(ks[|ks| - 1])
  }

  lemma {:induction false} SpacedPrint(ks: seq<Key>)
    requires Fine(ks) && ks != []
    ensures Spaced(ks) == " " + PrintAll(ks)
  {
    hide Print;
    if |ks| == 1 {
      assert Spaced(ks[..0]) == "" && "" + " " + Print(ks[0]) == " " + Print(ks[0]);
    } else {
      var last := " " + Print(ks[|ks| - 1]);
      SpacedPrint(ks[..|ks| - 1]);
      PrintAllMore(ks[..|ks| - 1], ks[|ks| - 1]);
      assert ks[..|ks| - 1] + [ks[|ks| - 1]] == ks;
      Assoc(Spaced(ks[..|ks| - 1]), " ", Print(ks[|ks| - 1]));
      Assoc(" ", PrintAll(ks[..|ks| - 1]), last);
    }
  }

  lemma {:induction false} PrintAllMore(ks: seq<Key>, k: Key)
    requires Fine(ks) && ks != [] && Ok(k)
    ensures PrintAll(ks + [k]) == PrintAll(ks) + (" " + Print(k))
  {
    hide Print;
    if |ks| == 1 {
      assert (ks + [k])[1..] == [k];
    } else {
      assert (ks + [k])[1..] == ks[1..] + [k];
      PrintAllMore(ks[1..], k);
      Assoc(Print(ks[0]), " " + PrintAll(ks[1..]), " " + Print(k));
      Assoc(" ", PrintAll(ks[1..]), " " + Print(k));
    }
  }

  lemma SpacedMore(ks: seq<Key>, k: Key)
    requires Fine(ks) && Ok(k)
    ensures Fine(ks + [k]) && Spaced(ks + [k]) == Spaced(ks) + (" " + Print(k))
  {
    hide Print;
    assert (ks + [k])[..|ks|] == ks;
    Assoc(Spaced(ks), " ", Print(k));
  }

  /** The text of a whole program. */
  ghost function Render(ks: seq<Key>): string
    requires Fine(ks)
  {
    PrintAll(Whole(ks))
  }

  // ---- The text while it is written ----

  /** After `before` the text is "ALL" and `tail`, or `tail` with that trimmed. */
  ghost predicate Sent(text: string, before: string, tail: string) {
    text == before + "ALL" + tail || (|tail| > 1 && text == before + tail[1..])
  }

  /** `tail` does not start like another "ALL". */
  ghost predicate Clean(tail: string) {
    tail == "" || (tail[0] == ' ' && (|tail| > 1 && tail[1] == 'A' ==> |tail| > 2 && tail[2] != 'L'))
  }

  function Trimmed(base: nat, text: string): string {
    if |text| > base + 4 && text[base..base + 4] == "ALL " then text[..base] + text[base + 4..] else text
  }

  lemma TrimKeeps(text: string, before: string, tail: string)
    requires Sent(text, before, tail) && Clean(tail)
    ensures Sent(Trimmed(|before|, text), before, tail)
    ensures |tail| > 1 ==> Trimmed(|before|, text) == before + tail[1..]
  {
    if text == before + "ALL" + tail {
      assert text[|before|..|before| + 3] == "ALL";
      if |tail| > 1 {
        assert text[|before|..|before| + 4] == "ALL ";
        assert text[|before| + 4..] == tail[1..];
      }
    } else {
      assert |tail| > 2 ==> text[|before|] == tail[1] && text[|before| + 1] == tail[2];
    }
  }

  lemma SentMore(text: string, before: string, tail: string, t: string)
    requires Sent(text, before, tail)
    ensures Sent(text + t, before, tail + t)
  {
    Assoc(before + "ALL", tail, t);
    if |tail| > 1 {
      assert before + tail[1..] + t == before + (tail + t)[1..];
    }
  }

  lemma KeyStart(k: Key)
    requires Ok(k)
    ensures Print(k) != "" && (Print(k)[0] == 'A' ==> k.All? || k == Has(Answered))
  {
    match k {
      case Messages(rs) => SetStart(rs, "");
      case Group(ks) =>
      case _ =>
        SpellLetters(WordOf(k));
        if Spell(WordOf(k))[0] == 'A' {
          SpellStart(WordOf(k));
        }
        hide Spell;
    }
  }

  lemma SpellStart(w: Word)
    requires Spell(w) != "" && Spell(w)[0] == 'A'
    ensures w == WAll || w == WHas(Answered)
  {
  }

  /** After `before` the text holds the keys, possibly with a leading "ALL". */
  ghost predicate Writing(text: string, before: string, ks: seq<Key>) {
    Fine(ks) && Sent(text, before, Spaced(ks)) && Clean(Spaced(ks)) && |Spaced(ks)| != 1
  }

  lemma WritingStart(before: string)
    ensures Writing(before + "ALL", before, [])
  {
    assert before + "ALL" + "" == before + "ALL";
  }

  /** The start of a key is written. */
  lemma StartKey(text: string, before: string, ks: seq<Key>, t: string)
    requires Writing(text, before, ks) && t != "" && Clean(t)
    ensures Sent(text + t, before, Spaced(ks) + t) && Clean(Spaced(ks) + t)
  {
    hide Fine, Spaced;
    SentMore(text, before, Spaced(ks), t);
    if Spaced(ks) == "" {
      assert Spaced(ks) + t == t;
    }
  }

  /** The rest of a key is written. */
  lemma FinishKey(text: string, before: string, ks: seq<Key>, t: string, rest: string, k: Key)
    requires Fine(ks) && Sent(text, before, Spaced(ks) + t) && Clean(Spaced(ks) + t)
    requires Ok(k) && " " + Print(k) == t + rest && Clean(" " + Print(k)) && |Spaced(ks)| != 1 && t != ""
    ensures Writing(text + rest, before, ks + [k])
  {
    hide Print, Spaced, Fine;
    SpacedMore(ks, k);
    SentMore(text, before, Spaced(ks) + t, rest);
    Assoc(Spaced(ks), t, rest);
    if Spaced(ks) == "" {
      assert Spaced(ks) + (t + rest) == t + rest;
    }
    PrintNonempty(k);
  }

  lemma PrintNonempty(k: Key)
    requires Ok(k)
    ensures Print(k) != ""
  {
    KeyStart(k);
  }

  class Command {
    var text: string

    /** Appends to the text. */
    method Put(t: string)
      modifies this
      ensures text == old(text) + t
    {
      text := text + t;
    }

    /** imap_send_spgm_trim: appends, and takes "ALL " away at the base if more
        follows. */
    method Trim(base: nat, t: string)
      modifies this
      ensures text == Trimmed(base, old(text) + t)
    {
      text := text + t;
      if |text| > base + 4 {
        assert text[base..base + 4] == [text[base], text[base + 1], text[base + 2], text[base + 3]];
      }
      if && |text| > base + 4 && text[base] == 'A' && text[base + 1] == 'L' && text[base + 2] == 'L'
         && text[base + 3] == ' ' {
        text := text[..base] + text[base + 4..];
      }
    }

    /** Writes a key that has no text of the caller's in it. */
    method PutKey(t: string, ghost before: string, ghost ks: seq<Key>, ghost k: Key)
      requires Writing(text, before, ks) && Ok(k) && t == " " + Print(k) && Clean(t)
      modifies this
      ensures Writing(text, before, ks + [k])
    {
      StartKey(text, before, ks, t);
      FinishKey(text + t, before, ks, t, "", k);
      assert t + "" == t && text + t + "" == text + t;
      Put(t);
    }

    /** Starts a key and trims. */
    method StartTrimmed(base: nat, t: string, ghost before: string, ghost ks: seq<Key>)
      requires Writing(text, before, ks) && |before| == base && t != "" && Clean(t)
      modifies this
      ensures Sent(text, before, Spaced(ks) + t) && Clean(Spaced(ks) + t)
      ensures |t| > 1 ==> text == before + (Spaced(ks) + t)[1..]
    {
      StartKey(text, before, ks, t);
      TrimKeeps(text + t, before, Spaced(ks) + t);
      Trim(base, t);
    }

    /** The elements of a search set. */
    method PutSet(items: seq<SetItem>)
      requires items != []
      modifies this
      ensures text == old(text) + PrintSet(Ranges(items))
    {
      hide PrintRange, PrintSet;
      ghost var rs := Ranges(items);
      PrintNoSet();
      for i := 0 to |items|
        invariant text == old(text) + PrintSet(rs[..i])
      {
        if i > 0 {
          Put(",");
        }
        PutItem(items[i]);
        SetMore(rs[..i], rs[i]);
        assert rs[..i] + [rs[i]] == rs[..i + 1];
        AppendItem(old(text), PrintSet(rs[..i]), if i > 0 then "," else "", PrintRange(rs[i]));
      }
      assert rs[..|items|] == rs;
    }

    method PutItem(item: SetItem)
      modifies this
      ensures text == old(text) + PrintRange(RangeOf(item))
    {
      Put(Decimal(item.first));
      if item.last != 0 && item.first != item.last {
        Put(":");
        Put(Decimal(item.last));
        Assoc(old(text), Decimal(item.first), ":");
        Assoc(old(text), Decimal(item.first) + ":", Decimal(item.last));
      }
    }

    /** imap_send_sset. */
    method SendSet(base: nat, items: seq<SetItem>, prefix: string, ghost before: string, ghost ks: seq<Key>,
                   ghost k: Key)
      requires Writing(text, before, ks) && |before| == base && items != []
      requires (prefix == " " && k == Messages(Ranges(items))) || (prefix == " UID " && k == Uids(Ranges(items)))
      modifies this
      ensures Writing(text, before, ks + [k])
    {
      StartTrimmed(base, prefix, before, ks);
      SetKeyText(items, prefix, k);
      FinishKey(text, before, ks, prefix, PrintSet(Ranges(items)), k);
      PutSet(items);
    }

    method SendSets(base: nat, p: Program, nmsgs: nat, ghost before: string, ghost ks: seq<Key>)
      requires Writing(text, before, ks) && |before| == base
      modifies this
      ensures Writing(text, before, ks + SetKeys(p, nmsgs))
    {
      hide Writing, Ranges;
      assert ks + [] == ks;
      ghost var a := if p.msgno != [] && !IsWhole(p.msgno, nmsgs) then [Messages(Ranges(p.msgno))] else [];
      if p.msgno != [] && (|p.msgno| > 1 || p.msgno[0].first != 1 || p.msgno[0].last != nmsgs) {
        SendSet(base, p.msgno, " ", before, ks, Messages(Ranges(p.msgno)));
      }
      assert a + [] == a;
      if p.uid != [] {
        SendSet(base, p.uid, " UID ", before, ks + a, Uids(Ranges(p.uid)));
        assert ks + a + [Uids(Ranges(p.uid))] == ks + (a + [Uids(Ranges(p.uid))]);
      }
    }

    /** One size or interval. */
    method SendAmount(m: Measure, n: nat, ghost before: string, ghost ks: seq<Key>)
      requires Writing(text, before, ks)
      modifies this
      ensures Writing(text, before, ks + Amount(m, n))
    {
      hide Writing;
      assert ks + [] == ks;
      if n != 0 {
        MeasuredText(m, n);
        PutKey(" " + SpellMeasure(m) + " " + Decimal(n), before, ks, Measured(m, n));
      }
    }

    method SendFlag(p: Program, f: Flag, ghost before: string, ghost ks: seq<Key>)
      requires Writing(text, before, ks)
      modifies this
      ensures Writing(text, before, ks + FlagPair(p, f))
    {
      hide Writing;
      ghost var a := if f in p.set_ then [Has(f)] else [];
      assert ks + [] == ks && a + [] == a;
      if f in p.set_ {
        FlagText(f);
        PutKey(" " + Spell(WHas(f)), before, ks, Has(f));
      }
      if f in p.clear {
        FlagText(f);
        PutKey(" " + Spell(WLacks(f)), before, ks + a, Lacks(f));
        assert ks + a + [Lacks(f)] == ks + (a + [Lacks(f)]);
      }
    }

    /** The flags, in the order in which they are sent. */
    method SendFlags(p: Program, ghost before: string, ghost ks: seq<Key>)
      requires Writing(text, before, ks)
      modifies this
      ensures Writing(text, before, ks + FlagKeys(p, FLAGS))
    {
      hide Writing, FlagPair;
      assert FLAGS[..0] == [] && ks + [] == ks;
      for i := 0 to |FLAGS|
        invariant Writing(text, before, ks + FlagKeys(p, FLAGS[..i]))
      {
        assert FLAGS[..i + 1][..i] == FLAGS[..i];
        SendFlag(p, FLAGS[i], before, ks + FlagKeys(p, FLAGS[..i]));
        Assoc(ks, FlagKeys(p, FLAGS[..i]), FlagPair(p, FLAGS[i]));
      }
      assert FLAGS[..|FLAGS|] == FLAGS;
    }

    /** imap_send_sdate. */
    method SendDate(sent: bool, r: Relation, packed: nat, ghost before: string, ghost ks: seq<Key>)
      requires Writing(text, before, ks) && DateOk(packed)
      modifies this
      ensures Writing(text, before, ks + OnDate(sent, r, packed))
    {
      hide Writing, MonthName;
      assert ks + [] == ks;
      if packed != 0 {
        var day, month, year := packed % 32, packed / 32 % 16, BASEYEAR + packed / 512;
        DatedText(sent, r, Unpack(packed));
        PutKey(" " + Spell(WDated(sent, r)) + " " + Decimal(day) + "-" + MonthName(month) + "-" + Decimal(year),
               before, ks, Dated(sent, r, Unpack(packed)));
      }
    }

    /** imap_send_astring, for strings that need no literal. */
    method SendString(s: string)
      requires Sendable(s)
      modifies this
      ensures text == old(text) + PrintString(s)
    {
      var quote := s == "";
      for j := 0 to |s|
        invariant quote <==> s == "" || exists i :: 0 <= i < j && !IsAtomChar(s[i])
      {
        var c := s[j];
        assert IsAtomChar(c) <==>
          !(c <= ' ' || c == '*' || c == '%' || c == '(' || c == ')' || c == '{' || c == 127 as char);
        if c <= ' ' || c == '*' || c == '%' || c == '(' || c == ')' || c == '{' || c == 127 as char {
          quote := true;
        }
      }
      if quote {
        Put("\"");
      }
      Put(s);
      if quote {
        Put("\"");
      }
    }

    /** imap_send_slist: only the first string is written with trimming. */
    method SendList(base: nat, name: string, list: seq<string>, ghost make: string -> Key, ghost before: string,
                    ghost ks: seq<Key>)
      requires Writing(text, before, ks) && |before| == base && Named(name, make, list)
      modifies this
      ensures Writing(text, before, ks + Map(make, list))
    {
      hide Writing, Clean, Sent, PrintString, Print;
      assert list[..0] == [] && ks + [] == ks;
      for i := 0 to |list|
        invariant Writing(text, before, ks + Map(make, list[..i]))
      {
        ghost var done, k := ks + Map(make, list[..i]), make(list[i]);
        NamedAt(name, make, list, i);
        WritingFacts(text, before, done);
        if i == 0 {
          StartTrimmed(base, name, before, done);
        } else {
          StartKey(text, before, done, name);
          Put(name);
        }
        FinishKey(text, before, done, name, PrintString(list[i]), k);
        SendString(list[i]);
        assert list[..i + 1][..i] == list[..i];
        assert done + [k] == ks + (Map(make, list[..i]) + [k]);
      }
      assert list[..|list|] == list;
    }

    method SendWords(base: nat, p: Program, ghost before: string, ghost ks: seq<Key>)
      requires Writing(text, before, ks) && |before| == base && WordsOk(p.keyword) && WordsOk(p.unkeyword)
      modifies this
      ensures Writing(text, before, ks + WordKeys(p))
    {
      hide Writing, Map;
      ghost var a := Map((w: string) => Keyword(w), p.keyword);
      WordsNamed(p.keyword, p.unkeyword);
      SendList(base, " KEYWORD ", p.keyword, (w: string) => Keyword(w), before, ks);
      SendList(base, " UNKEYWORD ", p.unkeyword, (w: string) => Unkeyword(w), before, ks + a);
      assert ks + a + Map((w: string) => Unkeyword(w), p.unkeyword) == ks + WordKeys(p);
    }

    method SendField(base: nat, f: Field, list: seq<string>, ghost before: string, ghost ks: seq<Key>)
      requires Writing(text, before, ks) && |before| == base && AllSendable(list)
      modifies this
      ensures Writing(text, before, ks + In(f, list))
    {
      hide Writing;
      FieldNamed(f, list);
      SendList(base, " " + SpellField(f) + " ", list, (t: string) => Contains(f, t), before, ks);
    }

    method SendLine(base: nat, name: string, list: seq<string>, ghost before: string, ghost ks: seq<Key>)
      requires Writing(text, before, ks) && |before| == base && AllSendable(list) && IsAtom(name) && Sendable(name)
      modifies this
      ensures Writing(text, before, ks + Line(name, list))
    {
      hide Writing;
      LineNamed(name, list);
      SendList(base, " HEADER " + name + " ", list, (t: string) => Header(name, t), before, ks);
    }

    method SendTexts(base: nat, p: Program, ghost before: string, ghost ks: seq<Key>)
      requires Writing(text, before, ks) && |before| == base && TextsOk(p)
      modifies this
      ensures Writing(text, before, ks + TextKeys(p))
    {
      hide Writing, In, AllSendable;
      SendField(base, Bcc, p.bcc, before, ks);
      ghost var a := ks + In(Bcc, p.bcc);
      SendField(base, Cc, p.cc, before, a);
      ghost var b := a + In(Cc, p.cc);
      SendField(base, From, p.from, before, b);
      ghost var c := b + In(From, p.from);
      SendField(base, To, p.to, before, c);
      ghost var d := c + In(To, p.to);
      SendField(base, Subject, p.subject, before, d);
      ghost var e := d + In(Subject, p.subject);
      SendField(base, Body, p.body, before, e);
      ghost var f := e + In(Body, p.body);
      SendField(base, Text, p.text, before, f);
      assert f + In(Text, p.text) == ks + TextKeys(p);
    }

    method SendReply(base: nat, p: Program, ghost before: string, ghost ks: seq<Key>)
      requires Writing(text, before, ks) && |before| == base && EmulatedOk(p)
      modifies this
      ensures Writing(text, before, ks + ReplyKeys(p))
    {
      hide Writing, Line, AllSendable;
      SendLine(base, "Return-Path", p.returnPath, before, ks);
      ghost var a := ks + Line("Return-Path", p.returnPath);
      SendLine(base, "Sender", p.sender, before, a);
      ghost var b := a + Line("Sender", p.sender);
      SendLine(base, "Reply-To", p.replyTo, before, b);
      ghost var c := b + Line("Reply-To", p.replyTo);
      SendLine(base, "In-Reply-To", p.inReplyTo, before, c);
      assert c + Line("In-Reply-To", p.inReplyTo) == ks + ReplyKeys(p);
    }

    method SendNews(base: nat, p: Program, ghost before: string, ghost ks: seq<Key>)
      requires Writing(text, before, ks) && |before| == base && EmulatedOk(p)
      modifies this
      ensures Writing(text, before, ks + NewsKeys(p))
    {
      hide Writing, Line, AllSendable;
      SendLine(base, "Message-ID", p.messageId, before, ks);
      ghost var a := ks + Line("Message-ID", p.messageId);
      SendLine(base, "Newsgroups", p.newsgroups, before, a);
      ghost var b := a + Line("Newsgroups", p.newsgroups);
      SendLine(base, "Followup-To", p.followupTo, before, b);
      ghost var c := b + Line("Followup-To", p.followupTo);
      SendLine(base, "References", p.references, before, c);
      assert c + Line("References", p.references) == ks + NewsKeys(p);
    }

    method SendDates(p: Program, ghost before: string, ghost ks: seq<Key>)
      requires Writing(text, before, ks) && DatesOk(p)
      modifies this
      ensures Writing(text, before, ks + DateKeys(p))
    {
      hide Writing, OnDate, DateOk;
      SendDate(true, Before, p.sentbefore, before, ks);
      ghost var a := ks + OnDate(true, Before, p.sentbefore);
      SendDate(true, On, p.senton, before, a);
      ghost var b := a + OnDate(true, On, p.senton);
      SendDate(true, Since, p.sentsince, before, b);
      ghost var c := b + OnDate(true, Since, p.sentsince);
      SendDate(false, Before, p.before, before, c);
      ghost var d := c + OnDate(false, Before, p.before);
      SendDate(false, On, p.on, before, d);
      ghost var e := d + OnDate(false, On, p.on);
      SendDate(false, Since, p.since, before, e);
      assert e + OnDate(false, Since, p.since) == ks + DateKeys(p);
    }

    /** Header lines with arbitrary names. */
    method SendHeaders(base: nat, list: seq<(string, string)>, ghost before: string, ghost ks: seq<Key>)
      requires Writing(text, before, ks) && |before| == base && HeadersOk(list)
      modifies this
      ensures Writing(text, before, ks + HeaderKeys(list))
    {
      hide Writing, Clean, Sent, PrintString, Print;
      assert list[..0] == [] && ks + [] == ks;
      for i := 0 to |list|
        invariant Writing(text, before, ks + HeaderKeys(list[..i]))
      {
        ghost var done, k := ks + HeaderKeys(list[..i]), Header(list[i].0, list[i].1);
        HeaderText(list[i].0, list[i].1);
        WritingFacts(text, before, done);
        StartTrimmed(base, " HEADER ", before, done);
        FinishKey(text, before, done, " HEADER ", PrintString(list[i].0) + (" " + PrintString(list[i].1)), k);
        Assoc(text, PrintString(list[i].0), " " + PrintString(list[i].1));
        Assoc(text + PrintString(list[i].0), " ", PrintString(list[i].1));
        SendString(list[i].0);
        Put(" ");
        SendString(list[i].1);
        assert list[..i + 1][..i] == list[..i];
        assert done + [k] == ks + (HeaderKeys(list[..i]) + [k]);
      }
      assert list[..|list|] == list;
    }

    /** The parts of a program that hold no other program. */
    method SendFlat(base: nat, p: Program, nmsgs: nat, ghost before: string)
      requires text == before + "ALL" && |before| == base && FlatOk(p)
      modifies this
      ensures Writing(text, before, FlatKeys(p, nmsgs))
    {
      hide Writing, SetOk, WordsOk, DatesOk, TextsOk, EmulatedOk, HeadersOk, SetKeys, FlagKeys, WordKeys, DateKeys;
      hide TextKeys;
      hide ReplyKeys, NewsKeys, HeaderKeys, Amount;
      WritingStart(before);
      SendSets(base, p, nmsgs, before, []);
      ghost var a := SetKeys(p, nmsgs);
      assert [] + a == a;
      SendAmount(Larger, p.larger, before, a);
      SendAmount(Smaller, p.smaller, before, a + Amount(Larger, p.larger));
      ghost var b := a + (Amount(Larger, p.larger) + Amount(Smaller, p.smaller));
      assert a + Amount(Larger, p.larger) + Amount(Smaller, p.smaller) == b;
      SendFlags(p, before, b);
      ghost var c := b + FlagKeys(p, FLAGS);
      SendWords(base, p, before, c);
      ghost var d := c + WordKeys(p);
      SendDates(p, before, d);
      ghost var e := d + DateKeys(p);
      SendAmount(Older, p.older, before, e);
      SendAmount(Younger, p.younger, before, e + Amount(Older, p.older));
      ghost var f := e + (Amount(Older, p.older) + Amount(Younger, p.younger));
      assert e + Amount(Older, p.older) + Amount(Younger, p.younger) == f;
      SendTexts(base, p, before, f);
      ghost var g := f + TextKeys(p);
      SendReply(base, p, before, g);
      SendNews(base, p, before, g + ReplyKeys(p));
      assert g + ReplyKeys(p) + NewsKeys(p) == g + EmulatedKeys(p);
      SendHeaders(base, p.header, before, g + EmulatedKeys(p));
    }

    /** imap_send_spgm: the text grows by that of the program's keys. */
    method SendProgram(base: nat, p: Program, nmsgs: nat)
      requires Plain(p) && Trimmed(base, text) == text
      modifies this
      ensures Fine(Keys(p, nmsgs)) && text == old(text) + Render(Keys(p, nmsgs))
      decreases p, 2
    {
      hide Writing, FlatOk, Keys, Plain, FlatKeys, Render, Trimmed, OrKeys, NotKeys;
      PlainFlat(p);
      NothingMore(text);
      Trim(base, "");
      ghost var before := text;
      var base' := |text|;
      Put("ALL");
      SendFlat(base', p, nmsgs, before);
      SendOrs(base', p, nmsgs, before);
      SendNots(base', p, nmsgs, before);
      KeysAre(p, nmsgs);
      WritingFacts(text, before, Keys(p, nmsgs));
      RenderTrimmed(text, before, Keys(p, nmsgs));
      NothingMore(text);
      Trim(base', "");
    }

    method SendOrs(base: nat, p: Program, nmsgs: nat, ghost before: string)
      requires Plain(p) && Writing(text, before, FlatKeys(p, nmsgs)) && |before| == base
      modifies this
      ensures Writing(text, before, FlatKeys(p, nmsgs) + OrKeys(p.ors, nmsgs))
      decreases p, 1
    {
      hide Writing, FlatKeys, FlatOk;
      ghost var ks := FlatKeys(p, nmsgs);
      assert p.ors[..0] == [] && ks + [] == ks;
      for i := 0 to |p.ors|
        invariant Writing(text, before, ks + OrKeys(p.ors[..i], nmsgs))
      {
        ghost var done := ks + OrKeys(p.ors[..i], nmsgs);
        SendOr(base, p.ors[i], nmsgs, before, done);
        assert p.ors[..i + 1][..i] == p.ors[..i];
        assert done + [ChoiceKey(p.ors[i], nmsgs)] == ks + (OrKeys(p.ors[..i], nmsgs) + [ChoiceKey(p.ors[i], nmsgs)]);
      }
      assert p.ors[..|p.ors|] == p.ors;
    }

    method SendOr(base: nat, c: Choice, nmsgs: nat, ghost before: string, ghost ks: seq<Key>)
      requires PlainChoice(c) && Writing(text, before, ks) && |before| == base
      modifies this
      ensures Writing(text, before, ks + [ChoiceKey(c, nmsgs)])
      decreases c, 0
    {
      hide Writing, Keys, Render;
      WritingFacts(text, before, ks);
      ChoiceText(c, nmsgs);
      StartTrimmed(base, " OR (", before, ks);
      ghost var start, a := text, Render(Keys(c.first, nmsgs));
      Untrimmed(before, Spaced(ks) + " OR (", "");
      SendProgram(base, c.first, nmsgs);
      Put(") (");
      Untrimmed(before, Spaced(ks) + " OR (", a + ") (");
      Assoc(start, a, ") (");
      SendProgram(base, c.second, nmsgs);
      Put(")");
      ghost var b := Render(Keys(c.second, nmsgs));
      Assoc(start, a + ") (", b);
      Assoc(start, a + ") (" + b, ")");
      FinishKey(start, before, ks, " OR (", a + ") (" + b + ")", ChoiceKey(c, nmsgs));
    }

    method SendNots(base: nat, p: Program, nmsgs: nat, ghost before: string)
      requires Plain(p) && Writing(text, before, FlatKeys(p, nmsgs) + OrKeys(p.ors, nmsgs)) && |before| == base
      modifies this
      ensures Writing(text, before, FlatKeys(p, nmsgs) + OrKeys(p.ors, nmsgs) + NotKeys(p.nots, nmsgs))
      decreases p, 1
    {
      hide Writing, FlatKeys, FlatOk, Keys, Render;
      ghost var ks := FlatKeys(p, nmsgs) + OrKeys(p.ors, nmsgs);
      assert p.nots[..0] == [] && ks + [] == ks;
      for i := 0 to |p.nots|
        invariant Writing(text, before, ks + NotKeys(p.nots[..i], nmsgs))
      {
        ghost var done, k := ks + NotKeys(p.nots[..i], nmsgs), Not(Group(Whole(Keys(p.nots[i], nmsgs))));
        WritingFacts(text, before, done);
        NotText(p.nots[i], nmsgs);
        StartTrimmed(base, " NOT (", before, done);
        ghost var start, a := text, Render(Keys(p.nots[i], nmsgs));
        Untrimmed(before, Spaced(done) + " NOT (", "");
        SendProgram(base, p.nots[i], nmsgs);
        Put(")");
        Assoc(start, a, ")");
        FinishKey(start, before, done, " NOT (", a + ")", k);
        assert p.nots[..i + 1][..i] == p.nots[..i];
        Assoc(ks, NotKeys(p.nots[..i], nmsgs), [k]);
      }
      assert p.nots[..|p.nots|] == p.nots;
    }
  }


  /** Text after a trimmed start is not trimmed. */
  lemma Untrimmed(before: string, tail: string, more: string)
    requires Clean(tail) && |tail| > 2
    ensures Trimmed(|before|, before + tail[1..] + more) == before + tail[1..] + more
    ensures more == "" ==> before + tail[1..] + more == before + tail[1..]
  {
    var text := before + tail[1..] + more;
    assert text[|before|] == tail[1] && text[|before| + 1] == tail[2];
  }

  lemma NothingMore(text: string)
    ensures text + "" == text
  {
  }

  lemma PlainFlat(p: Program)
    requires Plain(p)
    ensures FlatOk(p)
  {
  }

  lemma RenderTrimmed(text: string, before: string, ks: seq<Key>)
    requires Writing(text, before, ks)
    ensures Trimmed(|before|, text) == before + Render(ks)
  {
    hide Print;
    TrimKeeps(text, before, Spaced(ks));
    if ks == [] {
      AllText();
      assert before + "ALL" + "" == before + "ALL";
    } else {
      SpacedPrint(ks);
      PrintAllNonempty(ks);
    }
  }

  lemma AllText()
    ensures Print(All) == "ALL"
  {
  }

  lemma PrintAllNonempty(ks: seq<Key>)
    requires AllOk(ks)
    ensures PrintAll(ks) != ""
  {
    KeyStart(ks[0]);
  }

  lemma KeysAre(p: Program, nmsgs: nat)
    ensures Keys(p, nmsgs) == FlatKeys(p, nmsgs) + OrKeys(p.ors, nmsgs) + NotKeys(p.nots, nmsgs)
  {
  }

  lemma OrText(a: string, b: string)
    ensures " " + ("OR" + (" " + ("(" + a + ")" + (" " + ("(" + b + ")"))))) == " OR (" + (a + ") (" + b + ")")
  {
    Assoc("(" + a, ")", " " + ("(" + b + ")"));
    Assoc("(", a, ")" + (" " + ("(" + b + ")")));
    Assoc(a, ") (" + b, ")");
    Assoc(a, ") (", b);
    assert ")" + (" " + ("(" + b + ")")) == ") (" + b + ")";
  }

  lemma GroupPrint(ks: seq<Key>)
    requires Fine(ks)
    ensures Ok(Group(Whole(ks))) && Print(Group(Whole(ks))) == "(" + Render(ks) + ")"
  {
    WholeFine(ks);
  }

  lemma ConnectivePrint(a: Key, b: Key)
    requires Ok(a) && Ok(b)
    ensures Print(Or(a, b)) == "OR" + (" " + (Print(a) + (" " + Print(b))))
    ensures Print(Not(a)) == "NOT" + (" " + Print(a))
    ensures Clean(" " + Print(Or(a, b))) && Clean(" " + Print(Not(a)))
  {
    OrPrint(a, b);
    NotPrint(a);
    hide Print, Clean;
    CleanBegin("OR", " " + (Print(a) + (" " + Print(b))));
    CleanBegin("NOT", " " + Print(a));
  }

  lemma OrPrint(a: Key, b: Key)
    requires Ok(a) && Ok(b)
    ensures Print(Or(a, b)) == "OR" + (" " + (Print(a) + (" " + Print(b))))
  {
  }

  lemma NotPrint(a: Key)
    requires Ok(a)
    ensures Print(Not(a)) == "NOT" + (" " + Print(a))
  {
  }

  lemma CleanBegin(w: string, rest: string)
    requires w != "" && w[0] != 'A'
    ensures Clean(" " + (w + rest))
  {
    assert (" " + (w + rest))[1] == w[0];
  }

  lemma ChoiceText(c: Choice, nmsgs: nat)
    requires PlainChoice(c)
    ensures Ok(ChoiceKey(c, nmsgs)) && Fine(Keys(c.first, nmsgs)) && Fine(Keys(c.second, nmsgs))
    ensures " " + Print(ChoiceKey(c, nmsgs)) ==
            " OR (" + (Render(Keys(c.first, nmsgs)) + ") (" + Render(Keys(c.second, nmsgs)) + ")")
    ensures Clean(" " + Print(ChoiceKey(c, nmsgs))) && Clean(" OR (")
  {
    hide Keys, Print, Plain, Render, Whole, Clean;
    KeysFine(c.first, nmsgs);
    KeysFine(c.second, nmsgs);
    GroupPrint(Keys(c.first, nmsgs));
    GroupPrint(Keys(c.second, nmsgs));
    ConnectivePrint(Group(Whole(Keys(c.first, nmsgs))), Group(Whole(Keys(c.second, nmsgs))));
    assert Clean(" OR (") by { CleanOpen(); }
    OrText(Render(Keys(c.first, nmsgs)), Render(Keys(c.second, nmsgs)));
  }

  lemma CleanOpen()
    ensures Clean(" OR (") && Clean(" NOT (")
  {
  }

  lemma NotText(p: Program, nmsgs: nat)
    requires Plain(p)
    ensures Fine(Keys(p, nmsgs)) && var k := Not(Group(Whole(Keys(p, nmsgs))));
      Ok(k) && " " + Print(k) == " NOT (" + (Render(Keys(p, nmsgs)) + ")") && Clean(" " + Print(k)) && Clean(" NOT (")
  {
    hide Keys, Print, Render, Whole, Clean;
    KeysFine(p, nmsgs);
    GroupPrint(Keys(p, nmsgs));
    ConnectivePrint(Group(Whole(Keys(p, nmsgs))), Group(Whole(Keys(p, nmsgs))));
    CleanOpen();
    var a := Render(Keys(p, nmsgs));
    assert " " + ("NOT" + (" " + ("(" + a + ")"))) == " NOT (" + (a + ")");
  }

  lemma WritingFacts(text: string, before: string, ks: seq<Key>)
    requires Writing(text, before, ks)
    ensures Fine(ks) && |Spaced(ks)| != 1
  {
  }

  lemma HeaderText(n: string, t: string)
    requires Sendable(n) && Sendable(t)
    ensures " " + Print(Header(n, t)) == " HEADER " + (PrintString(n) + (" " + PrintString(t)))
    ensures Clean(" HEADER ") && Clean(" " + Print(Header(n, t)))
  {
    HeaderClean(n, t);
    HeaderPrint(n, t);
    hide PrintString, Clean, Print;
    var rest := PrintString(n) + (" " + PrintString(t));
    Assoc("HEADER", " ", rest);
    HeaderSpaces();
    Assoc(" ", "HEADER ", rest);
  }

  lemma HeaderPrint(n: string, t: string)
    requires Sendable(n) && Sendable(t)
    ensures Print(Header(n, t)) == "HEADER" + (" " + (PrintString(n) + (" " + PrintString(t))))
  {
    hide PrintString;
  }

  lemma HeaderSpaces()
    ensures "HEADER" + " " == "HEADER " && " " + "HEADER " == " HEADER "
  {
  }

  lemma HeaderClean(n: string, t: string)
    requires Sendable(n) && Sendable(t)
    ensures Clean(" HEADER ") && Clean(" " + Print(Header(n, t)))
  {
    KeyStart(Header(n, t));
  }

  /** The keys made of the strings of a list all start with the name. */
  ghost predicate Named(name: string, make: string -> Key, list: seq<string>) {
    && name != "" && Clean(name)
    && forall i | 0 <= i < |list| ::
         && Sendable(list[i]) && Ok(make(list[i]))
         && " " + Print(make(list[i])) == name + PrintString(list[i])
         && Clean(" " + Print(make(list[i])))
  }

  lemma NamedAt(name: string, make: string -> Key, list: seq<string>, i: nat)
    requires Named(name, make, list) && i < |list|
    ensures name != "" && Clean(name) && Sendable(list[i]) && Ok(make(list[i]))
    ensures " " + Print(make(list[i])) == name + PrintString(list[i]) && Clean(" " + Print(make(list[i])))
  {
  }

  lemma WordsNamed(keyword: seq<string>, unkeyword: seq<string>)
    requires WordsOk(keyword) && WordsOk(unkeyword)
    ensures Named(" KEYWORD ", (w: string) => Keyword(w), keyword)
    ensures Named(" UNKEYWORD ", (w: string) => Unkeyword(w), unkeyword)
  {
    forall i | 0 <= i < |keyword|
      ensures " " + Print(Keyword(keyword[i])) == " KEYWORD " + PrintString(keyword[i])
    {
      WordText("KEYWORD", keyword[i]);
    }
    forall i | 0 <= i < |unkeyword|
      ensures " " + Print(Unkeyword(unkeyword[i])) == " UNKEYWORD " + PrintString(unkeyword[i])
    {
      WordText("UNKEYWORD", unkeyword[i]);
    }
  }

  lemma WordText(w: string, s: string)
    ensures " " + (w + (" " + s)) == " " + w + " " + s
  {
    Assoc(" ", w, " " + s);
    Assoc(" " + w, " ", s);
  }

  lemma FieldNamed(f: Field, list: seq<string>)
    requires AllSendable(list)
    ensures Named(" " + SpellField(f) + " ", (t: string) => Contains(f, t), list)
  {
    hide PrintString;
    forall i | 0 <= i < |list|
      ensures " " + Print(Contains(f, list[i])) == " " + SpellField(f) + " " + PrintString(list[i])
      ensures Clean(" " + Print(Contains(f, list[i])))
    {
      WordText(SpellField(f), PrintString(list[i]));
      KeyStart(Contains(f, list[i]));
    }
  }

  lemma LineNamed(name: string, list: seq<string>)
    requires AllSendable(list) && IsAtom(name) && Sendable(name)
    ensures Named(" HEADER " + name + " ", (t: string) => Header(name, t), list)
  {
    forall i | 0 <= i < |list|
      ensures " " + Print(Header(name, list[i])) == " HEADER " + name + " " + PrintString(list[i])
      ensures Clean(" " + Print(Header(name, list[i])))
    {
      HeaderText(name, list[i]);
      Assoc(" HEADER ", name, " " + PrintString(list[i]));
      Assoc(" HEADER " + name, " ", PrintString(list[i]));
    }
  }

  lemma {:induction false} SetMore(rs: seq<Range>, r: Range)
    ensures PrintSet(rs + [r]) == PrintSet(rs) + (if rs == [] then "" else ",") + PrintRange(r)
  {
    hide PrintRange;
    if rs == [] {
      assert [] + [r] == [r];
    } else {
      assert (rs + [r])[1..] == rs[1..] + [r];
      SetMore(rs[1..], r);
    }
  }

  lemma PrintNoSet()
    ensures PrintSet([]) == ""
  {
  }

  lemma AppendItem(start: string, done: string, comma: string, item: string)
    ensures start + done + comma + item == start + (done + comma + item)
    ensures comma == "" ==> start + done + item == start + (done + comma + item)
  {
    Assoc(start, done, comma);
    Assoc(start, done + comma, item);
  }

  lemma SetKeyText(items: seq<SetItem>, prefix: string, k: Key)
    requires items != []
    requires (prefix == " " && k == Messages(Ranges(items))) || (prefix == " UID " && k == Uids(Ranges(items)))
    ensures Ok(k) && " " + Print(k) == prefix + PrintSet(Ranges(items)) && Clean(" " + Print(k)) && Clean(prefix)
  {
    hide PrintSet, Ranges;
    var set_ := PrintSet(Ranges(items));
    assert Ok(k) by { RangesNone(items); }
    KeyStart(k);
    if k.Uids? {
      assert Print(k) == "UID" + (" " + set_);
      UidSpaces(set_);
    }
    hide Print;
  }

  lemma RangesNone(items: seq<SetItem>)
    requires items != []
    ensures Ranges(items) != []
  {
  }

  lemma UidSpaces(t: string)
    ensures " " + ("UID" + (" " + t)) == " UID " + t
  {
  }

  lemma MeasuredText(m: Measure, n: nat)
    ensures " " + Print(Measured(m, n)) == " " + SpellMeasure(m) + " " + Decimal(n)
    ensures Clean(" " + Print(Measured(m, n)))
  {
    KeyStart(Measured(m, n));
  }

  lemma FlagText(f: Flag)
    ensures " " + Print(Has(f)) == " " + Spell(WHas(f)) && Clean(" " + Print(Has(f)))
    ensures " " + Print(Lacks(f)) == " " + Spell(WLacks(f)) && Clean(" " + Print(Lacks(f)))
  {
    KeyStart(Lacks(f));
  }

  lemma DatedText(sent: bool, r: Relation, d: Date)
    requires d.Valid()
    ensures " " + Print(Dated(sent, r, d)) ==
            " " + Spell(WDated(sent, r)) + " " + Decimal(d.day) + "-" + MonthName(d.month) + "-" + Decimal(d.year)
    ensures Clean(" " + Print(Dated(sent, r, d)))
  {
    KeyStart(Dated(sent, r, d));
    hide Spell, MonthName, Decimal;
    var w, day, m, y := Spell(WDated(sent, r)), Decimal(d.day), MonthName(d.month), Decimal(d.year);
    var a := " " + w + " ";
    Assoc(" ", w, " " + PrintDate(d));
    Assoc(" " + w, " ", PrintDate(d));
    Assoc(a, day + "-" + m + "-", y);
    Assoc(a, day + "-" + m, "-");
    Assoc(a, day + "-", m);
    Assoc(a, day, "-");
  }
}
