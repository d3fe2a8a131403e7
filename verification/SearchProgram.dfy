/** Search programs: what they select, how imap_send_spgm writes them as a SEARCH
    command, and how mail_search_msg interprets them. */
module SearchProgram {
  import opened Calendar
  import opened SearchGrammar

  /** An element of a search set; a last number of 0 means there is only the first. */
  datatype SetItem = SetItem(first: nat, last: nat)

  datatype Choice = Choice(first: Program, second: Program)

  /** `set` are the flags whose bit is asked for (answered, deleted, ...), `clear` those
      asked to be clear (unanswered, undeleted, ..., old). A size, interval or packed
      date of 0 and an empty list ask for nothing. */
  datatype Program = Program(
    msgno: seq<SetItem>, uid: seq<SetItem>,
    larger: nat, smaller: nat, older: nat, younger: nat,
    set_: set<Flag>, clear: set<Flag>,
    keyword: seq<string>, unkeyword: seq<string>,
    sentbefore: nat, senton: nat, sentsince: nat, before: nat, on: nat, since: nat,
    bcc: seq<string>, cc: seq<string>, from: seq<string>, to: seq<string>,
    subject: seq<string>, body: seq<string>, text: seq<string>,
    returnPath: seq<string>, sender: seq<string>, replyTo: seq<string>, inReplyTo: seq<string>,
    messageId: seq<string>, newsgroups: seq<string>, followupTo: seq<string>, references: seq<string>,
    header: seq<(string, string)>, ors: seq<Choice>, nots: seq<Program>)

  // ---- Packed dates ----

  /** mail_shortdate. */
  function Pack(d: Date): nat
    requires d.Valid()
  {
    (d.year - BASEYEAR) * 512 + d.month * 32 + d.day
  }

  function Unpack(n: nat): Date {
    Date(BASEYEAR + n / 512, n / 32 % 16, n % 32)
  }

  predicate Earlier(a: Date, b: Date) {
    a.year < b.year || (a.year == b.year && (a.month < b.month || (a.month == b.month && a.day < b.day)))
  }

  /** Packing keeps dates and their order, in an unsigned short. */
  lemma PackFacts(a: Date, b: Date)
    requires a.Valid() && b.Valid()
    ensures Unpack(Pack(a)) == a && 0 < Pack(a) < 0x1_0000
    ensures Pack(a) < Pack(b) <==> Earlier(a, b)
    ensures Pack(a) == Pack(b) <==> a == b
  {
    assert Pack(a) == ((a.year - BASEYEAR) * 16 + a.month) * 32 + a.day;
    assert Pack(b) == ((b.year - BASEYEAR) * 16 + b.month) * 32 + b.day;
    assert Pack(a) / 32 == (a.year - BASEYEAR) * 16 + a.month;
    assert Pack(b) / 32 == (b.year - BASEYEAR) * 16 + b.month;
  }

  // ---- The keys of a program ----

  function RangeOf(i: SetItem): Range {
    if i.last != 0 && i.first != i.last then Span(i.first, i.last) else One(i.first)
  }

  function Ranges(s: seq<SetItem>): (r: seq<Range>)
    ensures |r| == |s| && forall i | 0 <= i < |s| :: r[i] == RangeOf(s[i])
  {
    if s == [] then [] else [RangeOf(s[0])] + Ranges(s[1..])
  }

  /** The set of all messages, which is not sent. */
  predicate IsWhole(s: seq<SetItem>, nmsgs: nat) {
    s == [SetItem(1, nmsgs)]
  }

  function SetKeys(p: Program, nmsgs: nat): seq<Key> {
    (if p.msgno != [] && !IsWhole(p.msgno, nmsgs) then [Messages(Ranges(p.msgno))] else [])
    + (if p.uid != [] then [Uids(Ranges(p.uid))] else [])
  }

  function Amount(m: Measure, n: nat): seq<Key> {
    if n != 0 then [Measured(m, n)] else []
  }

  const FLAGS: seq<Flag> := [Answered, Deleted, Draft, Flagged, Recent, Seen]

  function FlagPair(p: Program, f: Flag): seq<Key> {
    (if f in p.set_ then [Has(f)] else []) + (if f in p.clear then [Lacks(f)] else [])
  }

  function FlagKeys(p: Program, fs: seq<Flag>): seq<Key> {
    if fs == [] then [] else FlagKeys(p, fs[..|fs| - 1]) + FlagPair(p, fs[|fs| - 1])
  }

  function Map(make: string -> Key, list: seq<string>): (r: seq<Key>)
    ensures |r| == |list| && forall i | 0 <= i < |list| :: r[i] == make(list[i])
  {
    if list == [] then [] else Map(make, list[..|list| - 1]) + [make(list[|list| - 1])]
  }

  function WordKeys(p: Program): seq<Key> {
    Map((w: string) => Keyword(w), p.keyword) + Map((w: string) => Unkeyword(w), p.unkeyword)
  }

  function OnDate(sent: bool, r: Relation, packed: nat): seq<Key> {
    if packed != 0 then [Dated(sent, r, Unpack(packed))] else []
  }

  function DateKeys(p: Program): seq<Key> {
    OnDate(true, Before, p.sentbefore) + OnDate(true, On, p.senton) + OnDate(true, Since, p.sentsince)
    + OnDate(false, Before, p.before) + OnDate(false, On, p.on) + OnDate(false, Since, p.since)
  }

  function In(f: Field, list: seq<string>): seq<Key> {
    Map((t: string) => Contains(f, t), list)
  }

  function Line(name: string, list: seq<string>): seq<Key> {
    Map((t: string) => Header(name, t), list)
  }

  function TextKeys(p: Program): seq<Key> {
    In(Bcc, p.bcc) + In(Cc, p.cc) + In(From, p.from) + In(To, p.to)
    + In(Subject, p.subject) + In(Body, p.body) + In(Text, p.text)
  }

  function ReplyKeys(p: Program): seq<Key> {
    Line("Return-Path", p.returnPath) + Line("Sender", p.sender) + Line("Reply-To", p.replyTo)
    + Line("In-Reply-To", p.inReplyTo)
  }

  function NewsKeys(p: Program): seq<Key> {
    Line("Message-ID", p.messageId) + Line("Newsgroups", p.newsgroups) + Line("Followup-To", p.followupTo)
    + Line("References", p.references)
  }

  /** Header fields for which the command has no keyword of their own. */
  function EmulatedKeys(p: Program): seq<Key> {
    ReplyKeys(p) + NewsKeys(p)
  }

  function HeaderKeys(list: seq<(string, string)>): seq<Key> {
    if list == [] then [] else HeaderKeys(list[..|list| - 1]) + [Header(list[|list| - 1].0, list[|list| - 1].1)]
  }

  /** What stands for a program in parentheses. */
  function Whole(ks: seq<Key>): (r: seq<Key>)
    ensures r != []
  {
    if ks == [] then [All] else ks
  }

  ghost function OrKeys(ors: seq<Choice>, nmsgs: nat): seq<Key>
    decreases ors, 0
  {
    if ors == [] then []
    else OrKeys(ors[..|ors| - 1], nmsgs) + [ChoiceKey(ors[|ors| - 1], nmsgs)]
  }

  ghost function ChoiceKey(c: Choice, nmsgs: nat): Key
    decreases c, 0
  {
    Or(Group(Whole(Keys(c.first, nmsgs))), Group(Whole(Keys(c.second, nmsgs))))
  }

  ghost function NotKeys(nots: seq<Program>, nmsgs: nat): seq<Key>
    decreases nots, 0
  {
    if nots == [] then []
    else NotKeys(nots[..|nots| - 1], nmsgs) + [Not(Group(Whole(Keys(nots[|nots| - 1], nmsgs))))]
  }

  /** The keys that are not made of other programs. */
  function FlatKeys(p: Program, nmsgs: nat): seq<Key> {
    SetKeys(p, nmsgs) + (Amount(Larger, p.larger) + Amount(Smaller, p.smaller)) + FlagKeys(p, FLAGS) + WordKeys(p)
    + DateKeys(p) + (Amount(Older, p.older) + Amount(Younger, p.younger)) + TextKeys(p) + EmulatedKeys(p)
    + HeaderKeys(p.header)
  }

  /** The search keys that the program stands for, in the order they are sent. */
  ghost function Keys(p: Program, nmsgs: nat): seq<Key>
    decreases p, 1
  {
    FlatKeys(p, nmsgs) + OrKeys(p.ors, nmsgs) + NotKeys(p.nots, nmsgs)
  }

  // ---- What can be sent without a literal ----

  predicate DateOk(packed: nat) {
    packed == 0 || Unpack(packed).Valid()
  }

  predicate AllSendable(list: seq<string>) {
    forall i | 0 <= i < |list| :: Sendable(list[i])
  }

  predicate SetOk(s: seq<SetItem>) {
    forall i | 0 <= i < |s| :: 0 < s[i].first < 0xffffffff && s[i].last < 0xffffffff
  }

  predicate TextsOk(p: Program) {
    && AllSendable(p.bcc) && AllSendable(p.cc) && AllSendable(p.from) && AllSendable(p.to)
    && AllSendable(p.subject) && AllSendable(p.body) && AllSendable(p.text)
  }

  predicate EmulatedOk(p: Program) {
    && AllSendable(p.returnPath) && AllSendable(p.sender) && AllSendable(p.replyTo) && AllSendable(p.inReplyTo)
    && AllSendable(p.messageId) && AllSendable(p.newsgroups) && AllSendable(p.followupTo) && AllSendable(p.references)
  }

  predicate DatesOk(p: Program) {
    && DateOk(p.sentbefore) && DateOk(p.senton) && DateOk(p.sentsince)
    && DateOk(p.before) && DateOk(p.on) && DateOk(p.since)
  }

  predicate WordsOk(list: seq<string>) {
    forall i | 0 <= i < |list| :: IsAtom(list[i])
  }

  predicate HeadersOk(list: seq<(string, string)>) {
    forall i | 0 <= i < |list| :: Sendable(list[i].0) && Sendable(list[i].1)
  }

  predicate FlatOk(p: Program) {
    && SetOk(p.msgno) && SetOk(p.uid) && WordsOk(p.keyword) && WordsOk(p.unkeyword)
    && DatesOk(p) && TextsOk(p) && EmulatedOk(p) && HeadersOk(p.header)
  }

  /** A program that can be sent on one command line: no set says "*", no string
      needs a literal, keywords are atoms and dates are dates. */
  predicate Plain(p: Program)
    decreases p, 1
  {
    && FlatOk(p)
    && (forall i | 0 <= i < |p.ors| :: PlainChoice(p.ors[i]))
    && (forall i | 0 <= i < |p.nots| :: Plain(p.nots[i]))
  }

  predicate PlainChoice(c: Choice)
    decreases c, 0
  {
    Plain(c.first) && Plain(c.second)
  }

  /** Keys that the grammar can tell. */
  ghost predicate Fine(ks: seq<Key>) {
    forall i | 0 <= i < |ks| :: Ok(ks[i])
  }

  lemma StringsFine(f: Field, name: string, list: seq<string>)
    requires AllSendable(list)
    ensures Fine(In(f, list))
    ensures Sendable(name) ==> Fine(Line(name, list))
  {
  }

  lemma FineAppend(a: seq<Key>, b: seq<Key>)
    requires Fine(a) && Fine(b)
    ensures Fine(a + b)
  {
  }

  lemma TextsFine(p: Program)
    requires TextsOk(p)
    ensures Fine(TextKeys(p))
  {
    hide In, Ok, AllSendable, Fine;
    StringsFine(Bcc, "", p.bcc);
    StringsFine(Cc, "", p.cc);
    FineAppend(In(Bcc, p.bcc), In(Cc, p.cc));
    var a := In(Bcc, p.bcc) + In(Cc, p.cc);
    StringsFine(From, "", p.from);
    FineAppend(a, In(From, p.from));
    StringsFine(To, "", p.to);
    FineAppend(a + In(From, p.from), In(To, p.to));
    var b := a + In(From, p.from) + In(To, p.to);
    StringsFine(Subject, "", p.subject);
    FineAppend(b, In(Subject, p.subject));
    StringsFine(Body, "", p.body);
    FineAppend(b + In(Subject, p.subject), In(Body, p.body));
    StringsFine(Text, "", p.text);
    FineAppend(b + In(Subject, p.subject) + In(Body, p.body), In(Text, p.text));
  }

  lemma EmulatedFine(p: Program)
    requires EmulatedOk(p)
    ensures Fine(EmulatedKeys(p))
  {
    hide Line, Ok, AllSendable, Fine;
    LineFine([], "Return-Path", p.returnPath);
    var a := Line("Return-Path", p.returnPath);
    LineFine(a, "Sender", p.sender);
    var b := a + Line("Sender", p.sender);
    LineFine(b, "Reply-To", p.replyTo);
    LineFine(b + Line("Reply-To", p.replyTo), "In-Reply-To", p.inReplyTo);
    LineFine([], "Message-ID", p.messageId);
    var c := Line("Message-ID", p.messageId);
    LineFine(c, "Newsgroups", p.newsgroups);
    var d := c + Line("Newsgroups", p.newsgroups);
    LineFine(d, "Followup-To", p.followupTo);
    LineFine(d + Line("Followup-To", p.followupTo), "References", p.references);
    FineAppend(ReplyKeys(p), NewsKeys(p));
  }

  lemma LineFine(before: seq<Key>, name: string, list: seq<string>)
    requires (before == [] || Fine(before)) && Sendable(name) && AllSendable(list)
    ensures Fine(before + Line(name, list)) && (before == [] ==> Fine(Line(name, list)))
  {
    StringsFine(Text, name, list);
  }

  lemma DatesFine(p: Program)
    requires DatesOk(p)
    ensures Fine(DateKeys(p))
  {
    hide Unpack;
  }

  lemma WordsFine(p: Program)
    requires WordsOk(p.keyword) && WordsOk(p.unkeyword)
    ensures Fine(WordKeys(p))
  {
  }

  lemma SetFine(p: Program, nmsgs: nat)
    requires SetOk(p.msgno) && SetOk(p.uid)
    ensures Fine(SetKeys(p, nmsgs))
  {
  }

  lemma AmountsFine(m: Measure, a: nat, k: Measure, b: nat)
    ensures Fine(Amount(m, a) + Amount(k, b))
  {
  }

  lemma FlatFine(p: Program, nmsgs: nat)
    requires FlatOk(p)
    ensures Fine(FlatKeys(p, nmsgs))
  {
    hide Fine, SetKeys, Amount, FlagKeys, WordKeys, DateKeys, TextKeys, EmulatedKeys, HeaderKeys;
    hide SetOk, TextsOk, EmulatedOk, DatesOk, WordsOk, HeadersOk;
    var a := SetKeys(p, nmsgs) + (Amount(Larger, p.larger) + Amount(Smaller, p.smaller));
    var b := a + FlagKeys(p, FLAGS);
    var c := b + WordKeys(p);
    var d := c + DateKeys(p);
    var e := d + (Amount(Older, p.older) + Amount(Younger, p.younger));
    var f := e + TextKeys(p);
    SetFine(p, nmsgs);
    AmountsFine(Larger, p.larger, Smaller, p.smaller);
    FineAppend(SetKeys(p, nmsgs), Amount(Larger, p.larger) + Amount(Smaller, p.smaller));
    FlagsFine(p, FLAGS);
    FineAppend(a, FlagKeys(p, FLAGS));
    WordsFine(p);
    FineAppend(b, WordKeys(p));
    DatesFine(p);
    FineAppend(c, DateKeys(p));
    AmountsFine(Older, p.older, Younger, p.younger);
    FineAppend(d, Amount(Older, p.older) + Amount(Younger, p.younger));
    TextsFine(p);
    FineAppend(e, TextKeys(p));
    EmulatedFine(p);
    FineAppend(f, EmulatedKeys(p));
    HeadersFine(p.header);
    FineAppend(f + EmulatedKeys(p), HeaderKeys(p.header));
  }

  /** A program in parentheses can be told. */
  lemma WholeFine(ks: seq<Key>)
    requires Fine(ks)
    ensures Ok(Group(Whole(ks)))
  {
  }

  lemma {:induction false} FlagsFine(p: Program, fs: seq<Flag>)
    ensures Fine(FlagKeys(p, fs))
  {
    if fs != [] {
      FlagsFine(p, fs[..|fs| - 1]);
    }
  }

  lemma {:induction false} HeadersFine(list: seq<(string, string)>)
    requires HeadersOk(list)
    ensures Fine(HeaderKeys(list))
  {
    if list != [] {
      HeadersFine(list[..|list| - 1]);
    }
  }

  lemma {:induction false} KeysFine(p: Program, nmsgs: nat)
    requires Plain(p)
    ensures Fine(Keys(p, nmsgs))
    decreases p, 1
  {
    hide Fine, FlatKeys, OrKeys, NotKeys, FlatOk;
    FlatFine(p, nmsgs);
    OrsFine(p.ors, nmsgs);
    NotsFine(p.nots, nmsgs);
    FineAppend(FlatKeys(p, nmsgs), OrKeys(p.ors, nmsgs));
    FineAppend(FlatKeys(p, nmsgs) + OrKeys(p.ors, nmsgs), NotKeys(p.nots, nmsgs));
  }

  lemma {:induction false} OrsFine(ors: seq<Choice>, nmsgs: nat)
    requires forall i | 0 <= i < |ors| :: PlainChoice(ors[i])
    ensures Fine(OrKeys(ors, nmsgs))
    decreases ors, 0
  {
    hide Keys, Plain;
    if ors != [] {
      OrsFine(ors[..|ors| - 1], nmsgs);
      ChoiceFine(ors[|ors| - 1], nmsgs);
    }
  }

  lemma {:induction false} ChoiceFine(c: Choice, nmsgs: nat)
    requires PlainChoice(c)
    ensures Ok(ChoiceKey(c, nmsgs))
    decreases c, 0
  {
    hide Keys, Plain, Whole, Fine;
    KeysFine(c.first, nmsgs);
    KeysFine(c.second, nmsgs);
    WholeFine(Keys(c.first, nmsgs));
    WholeFine(Keys(c.second, nmsgs));
  }

  lemma {:induction false} NotsFine(nots: seq<Program>, nmsgs: nat)
    requires forall i | 0 <= i < |nots| :: Plain(nots[i])
    ensures Fine(NotKeys(nots, nmsgs))
    decreases nots, 0
  {
    hide Keys, Plain;
    if nots != [] {
      NotsFine(nots[..|nots| - 1], nmsgs);
      KeysFine(nots[|nots| - 1], nmsgs);
      WholeFine(Keys(nots[|nots| - 1], nmsgs));
    }
  }
}
