/** The search keys of the IMAP SEARCH command (RFC 3501, section 6.4.4), their
    text and its reading by the grammar of section 9. */
module SearchGrammar {
  import opened Sequences
  import opened Calendar
  import opened Texts

  datatype Flag = Answered | Deleted | Draft | Flagged | Recent | Seen
  datatype Relation = Before | On | Since
  datatype Field = Bcc | Cc | From | To | Subject | Body | Text
  datatype Measure = Larger | Smaller | Older | Younger

  /** A calendar date; months count from 1. */
  datatype Date = Date(year: nat, month: nat, day: nat) {
    predicate Valid() {
      1970 <= year < 2098 && 1 <= month <= 12 && 1 <= day <= 31
    }
  }

  datatype Range = One(n: nat) | Span(first: nat, last: nat)

  datatype Key =
    | All
    | Messages(ranges: seq<Range>)
    | Uids(ranges: seq<Range>)
    | Has(flag: Flag)
    | Lacks(flag: Flag)
    | Keyword(word: string)
    | Unkeyword(word: string)
    | Measured(measure: Measure, n: nat)
    | Dated(sent: bool, relation: Relation, date: Date)
    | Contains(field: Field, text: string)
    | Header(name: string, text: string)
    | Or(first: Key, second: Key)
    | Not(key: Key)
    | Group(keys: seq<Key>)

  // ---- Words ----

  /** The word that a key starts with. */
  datatype Word =
    | WAll | WUid | WHas(flag: Flag) | WLacks(flag: Flag) | WKeyword | WUnkeyword | WMeasured(measure: Measure)
    | WDated(sent: bool, relation: Relation) | WContains(field: Field) | WHeader | WOr | WNot | WNone

  function SpellFlag(f: Flag): string {
    match f
    case Answered => "ANSWERED"
    case Deleted => "DELETED"
    case Draft => "DRAFT"
    case Flagged => "FLAGGED"
    case Recent => "RECENT"
    case Seen => "SEEN"
  }

  function SpellLack(f: Flag): string {
    match f
    case Answered => "UNANSWERED"
    case Deleted => "UNDELETED"
    case Draft => "UNDRAFT"
    case Flagged => "UNFLAGGED"
    case Recent => "OLD"
    case Seen => "UNSEEN"
  }

  function SpellDate(sent: bool, r: Relation): string {
    match r
    case Before => if sent then "SENTBEFORE" else "BEFORE"
    case On => if sent then "SENTON" else "ON"
    case Since => if sent then "SENTSINCE" else "SINCE"
  }

  function SpellField(f: Field): string {
    match f
    case Bcc => "BCC"
    case Cc => "CC"
    case From => "FROM"
    case To => "TO"
    case Subject => "SUBJECT"
    case Body => "BODY"
    case Text => "TEXT"
  }

  function SpellMeasure(m: Measure): string {
    match m
    case Larger => "LARGER"
    case Smaller => "SMALLER"
    case Older => "OLDER"
    case Younger => "YOUNGER"
  }

  function Spell(w: Word): string {
    match w
    case WAll => "ALL"
    case WUid => "UID"
    case WHas(f) => SpellFlag(f)
    case WLacks(f) => SpellLack(f)
    case WKeyword => "KEYWORD"
    case WUnkeyword => "UNKEYWORD"
    case WMeasured(m) => SpellMeasure(m)
    case WDated(sent, r) => SpellDate(sent, r)
    case WContains(f) => SpellField(f)
    case WHeader => "HEADER"
    case WOr => "OR"
    case WNot => "NOT"
    case WNone => ""
  }

  function ReadWord(s: string): Word {
    if s == "" then WNone
    else
      match s[0]
      case 'A' => if s == "ALL" then WAll else if s == "ANSWERED" then WHas(Answered) else WNone
      case 'B' =>
        if s == "BCC" then WContains(Bcc) else if s == "BEFORE" then WDated(false, Before)
        else if s == "BODY" then WContains(Body) else WNone
      case 'C' => if s == "CC" then WContains(Cc) else WNone
      case 'D' => if s == "DELETED" then WHas(Deleted) else if s == "DRAFT" then WHas(Draft) else WNone
      case 'F' => if s == "FLAGGED" then WHas(Flagged) else if s == "FROM" then WContains(From) else WNone
      case 'H' => if s == "HEADER" then WHeader else WNone
      case 'K' => if s == "KEYWORD" then WKeyword else WNone
      case 'L' => if s == "LARGER" then WMeasured(Larger) else WNone
      case 'N' => if s == "NOT" then WNot else WNone
      case 'O' =>
        if s == "OLD" then WLacks(Recent) else if s == "OLDER" then WMeasured(Older)
        else if s == "ON" then WDated(false, On) else if s == "OR" then WOr else WNone
      case 'R' => if s == "RECENT" then WHas(Recent) else WNone
      case 'S' =>
        if s == "SEEN" then WHas(Seen) else if s == "SENTBEFORE" then WDated(true, Before)
        else if s == "SENTON" then WDated(true, On) else if s == "SENTSINCE" then WDated(true, Since)
        else if s == "SINCE" then WDated(false, Since) else if s == "SMALLER" then WMeasured(Smaller)
        else if s == "SUBJECT" then WContains(Subject) else WNone
      case 'T' => if s == "TEXT" then WContains(Text) else if s == "TO" then WContains(To) else WNone
      case 'U' =>
        if s == "UID" then WUid else if s == "UNANSWERED" then WLacks(Answered)
        else if s == "UNDELETED" then WLacks(Deleted) else if s == "UNDRAFT" then WLacks(Draft)
        else if s == "UNFLAGGED" then WLacks(Flagged) else if s == "UNKEYWORD" then WUnkeyword
        else if s == "UNSEEN" then WLacks(Seen) else WNone
      case 'Y' => if s == "YOUNGER" then WMeasured(Younger) else WNone
      case _ => WNone
  }

  lemma WordRead(w: Word)
    ensures ReadWord(Spell(w)) == w
  {
    match w
    case WHas(f) => FlagRead(f);
    case WLacks(f) => LackRead(f);
    case WDated(sent, r) => DatedRead(sent, r);
    case WContains(f) => FieldRead(f);
    case WMeasured(m) => MeasureRead(m);
    case _ =>
  }

  lemma FlagRead(f: Flag)
    ensures ReadWord(SpellFlag(f)) == WHas(f)
  {
  }

  lemma MeasureRead(m: Measure)
    ensures ReadWord(SpellMeasure(m)) == WMeasured(m)
  {
  }

  lemma FieldRead(f: Field)
    ensures ReadWord(SpellField(f)) == WContains(f)
  {
  }

  lemma DatedRead(sent: bool, r: Relation)
    ensures ReadWord(SpellDate(sent, r)) == WDated(sent, r)
  {
  }

  lemma LackRead(f: Flag)
    ensures ReadWord(SpellLack(f)) == WLacks(f)
  {
  }

  // ---- Reading ----

  predicate IsLetter(c: char) {
    'A' <= c <= 'Z'
  }

  /** A character of an atom: no control, no space, none of the specials. */
  predicate IsAtomChar(c: char) {
    ' ' < c < 127 as char && c != '(' && c != ')' && c != '{' && c != '%' && c != '*' && c != '"' && c != '\\'
  }

  /** A character that a quoted string holds unescaped. */
  predicate IsQuotedChar(c: char) {
    0 as char < c < 128 as char && c != '\r' && c != '\n' && c != '"' && c != '\\'
  }

  // ---- Sequence sets ----

  function PrintRange(r: Range): string {
    match r
    case One(n) => Decimal(n)
    case Span(a, b) => Decimal(a) + ":" + Decimal(b)
  }

  function PrintSet(rs: seq<Range>): string {
    if |rs| == 0 then "" else if |rs| == 1 then PrintRange(rs[0]) else PrintRange(rs[0]) + "," + PrintSet(rs[1..])
  }

  function ReadRange(s: string): (r: Parsed<Range>)
    ensures r.Read? ==> |r.rest| < |s|
  {
    match ReadNumber(s)
    case Unread => Unread
    case Read(a, rest) =>
      if rest != "" && rest[0] == ':' then
        match ReadNumber(rest[1..])
        case Unread => Unread
        case Read(b, rest') => Read(Span(a, b), rest')
      else Read(One(a), rest)
  }

  function ReadSet(s: string): (r: Parsed<seq<Range>>)
    ensures r.Read? ==> |r.rest| < |s|
    decreases |s|
  {
    match ReadRange(s)
    case Unread => Unread
    case Read(x, rest) =>
      if rest != "" && rest[0] == ',' then
        match ReadSet(rest[1..])
        case Unread => Unread
        case Read(xs, rest') => Read([x] + xs, rest')
      else Read([x], rest)
  }

  predicate EndsSet(tail: string) {
    tail == "" || tail[0] == ' ' || tail[0] == ')'
  }

  lemma RangeRead(r: Range, tail: string)
    requires EndsSet(tail) || tail[0] == ','
    ensures ReadRange(PrintRange(r) + tail) == Read(r, tail)
  {
    hide Decimal, ReadNumber;
    match r {
      case One(n) =>
        NumberRead(n, tail);
      case Span(a, b) =>
        var rest := Decimal(b) + tail;
        NumberRead(b, tail);
        NumberRead(a, ":" + rest);
        Assoc(Decimal(a) + ":", Decimal(b), tail);
        Assoc(Decimal(a), ":", rest);
        Behind(":", rest);
    }
  }

  lemma SetStep(s: string, rest: string, rest': string, x: Range, xs: seq<Range>)
    requires ReadRange(s) == Read(x, rest) && rest != "" && rest[0] == ',' && ReadSet(rest[1..]) == Read(xs, rest')
    ensures ReadSet(s) == Read([x] + xs, rest')
  {
    hide ReadRange;
  }

  lemma {:induction false} SetRead(rs: seq<Range>, tail: string)
    requires rs != [] && EndsSet(tail)
    ensures ReadSet(PrintSet(rs) + tail) == Read(rs, tail)
  {
    hide ReadRange, PrintRange, ReadSet, PrintSet;
    var p := PrintRange(rs[0]);
    if |rs| == 1 {
      RangeRead(rs[0], tail);
      SetLast(p + tail, rs[0], tail);
      PrintSetOne(rs);
    } else {
      var q := PrintSet(rs[1..]);
      SetRead(rs[1..], tail);
      PrintSetMore(rs);
      RangeRead(rs[0], "," + (q + tail));
      SetJoined(rs[0], p, q, tail, rs[1..]);
      assert [rs[0]] + rs[1..] == rs;
    }
  }

  lemma SetLast(s: string, x: Range, tail: string)
    requires ReadRange(s) == Read(x, tail) && EndsSet(tail)
    ensures ReadSet(s) == Read([x], tail)
  {
    hide ReadRange;
  }

  lemma SetJoined(x: Range, p: string, q: string, tail: string, xs: seq<Range>)
    requires ReadRange(p + ("," + (q + tail))) == Read(x, "," + (q + tail)) && ReadSet(q + tail) == Read(xs, tail)
    ensures ReadSet(p + "," + q + tail) == Read([x] + xs, tail)
  {
    hide ReadRange, ReadSet;
    Assoc(p + ",", q, tail);
    Assoc(p, ",", q + tail);
    Behind(",", q + tail);
    SetStep(p + ("," + (q + tail)), "," + (q + tail), tail, x, xs);
  }

  lemma PrintSetOne(rs: seq<Range>)
    requires |rs| == 1
    ensures PrintSet(rs) == PrintRange(rs[0]) && rs == [rs[0]]
  {
  }

  lemma PrintSetMore(rs: seq<Range>)
    requires |rs| > 1
    ensures PrintSet(rs) == PrintRange(rs[0]) + "," + PrintSet(rs[1..])
  {
  }

  // ---- Strings ----

  /** A string that can be sent without a literal. */
  predicate Sendable(s: string) {
    forall i | 0 <= i < |s| :: IsQuotedChar(s[i])
  }

  predicate IsAtom(s: string) {
    s != "" && forall i | 0 <= i < |s| :: IsAtomChar(s[i])
  }

  function PrintString(s: string): string {
    if IsAtom(s) then s else "\"" + s + "\""
  }

  function ReadAtom(s: string): (r: Parsed<string>)
    ensures r.Read? ==> |r.rest| < |s|
  {
    var n := Run(s, IsAtomChar);
    if n == 0 then Unread else Read(s[..n], s[n..])
  }

  function ReadString(s: string): (r: Parsed<string>)
    ensures r.Read? ==> |r.rest| < |s|
  {
    if s != "" && s[0] == '"' then
      var n := Run(s[1..], IsQuotedChar);
      if 1 + n < |s| && s[1 + n] == '"' then Read(s[1..1 + n], s[n + 2..]) else Unread
    else ReadAtom(s)
  }

  lemma AtomRead(w: string, tail: string)
    requires IsAtom(w) && EndsSet(tail)
    ensures ReadAtom(w + tail) == Read(w, tail)
  {
    RunExact(w, tail, IsAtomChar);
  }

  lemma QuotedParts(w: string, tail: string)
    ensures var s := "\"" + w + "\"" + tail;
      s[0] == '"' && s[1..] == w + ("\"" + tail) && s[1..1 + |w|] == w && s[1 + |w|] == '"' && s[|w| + 2..] == tail
  {
  }

  lemma StringRead(w: string, tail: string)
    requires Sendable(w) && EndsSet(tail)
    ensures ReadString(PrintString(w) + tail) == Read(w, tail)
  {
    if IsAtom(w) {
      AtomRead(w, tail);
    } else {
      RunExact(w, "\"" + tail, IsQuotedChar);
      QuotedParts(w, tail);
    }
  }

  // ---- Dates ----

  function MonthOf(s: string): (m: nat)
    ensures m <= 12
  {
    if s == "Jan" then 1 else if s == "Feb" then 2 else if s == "Mar" then 3 else if s == "Apr" then 4
    else if s == "May" then 5 else if s == "Jun" then 6 else if s == "Jul" then 7 else if s == "Aug" then 8
    else if s == "Sep" then 9 else if s == "Oct" then 10 else if s == "Nov" then 11 else if s == "Dec" then 12
    else 0
  }

  lemma MonthRead(m: nat)
    requires 1 <= m <= 12
    ensures MonthOf(MonthName(m)) == m && |MonthName(m)| == 3
  {
  }

  function PrintDate(d: Date): string
    requires d.Valid()
  {
    Decimal(d.day) + "-" + MonthName(d.month) + "-" + Decimal(d.year)
  }

  function ReadDate(s: string): (r: Parsed<Date>)
    ensures r.Read? ==> |r.rest| < |s|
  {
    match ReadNumber(s)
    case Unread => Unread
    case Read(day, rest) =>
      if |rest| < 5 || rest[0] != '-' || MonthOf(rest[1..4]) == 0 || rest[4] != '-' then Unread
      else match ReadNumber(rest[5..])
        case Unread => Unread
        case Read(year, rest') =>
          var d := Date(year, MonthOf(rest[1..4]), day);
          if d.Valid() then Read(d, rest') else Unread
  }

  lemma DateRead(d: Date, tail: string)
    requires d.Valid() && EndsSet(tail)
    ensures ReadDate(PrintDate(d) + tail) == Read(d, tail)
  {
    hide MonthName, MonthOf, Decimal, ReadNumber;
    var m, y := MonthName(d.month), Decimal(d.year);
    NumberRead(d.year, tail);
    MonthRead(d.month);
    Assoc(Decimal(d.day) + "-" + m + "-", y, tail);
    Assoc(Decimal(d.day) + "-" + m, "-", y + tail);
    Assoc(Decimal(d.day) + "-", m, "-" + (y + tail));
    Assoc(Decimal(d.day), "-", m + ("-" + (y + tail)));
    var more := "-" + (m + ("-" + (y + tail)));
    NumberRead(d.day, more);
    DateTail(m, y + tail);
  }

  lemma DateTail(m: string, rest: string)
    requires |m| == 3
    ensures var more := "-" + (m + ("-" + rest));
      |more| >= 5 && more[0] == '-' && more[1..4] == m && more[4] == '-' && more[5..] == rest
  {
  }

  // ---- Keys ----

  /** A key that the grammar can tell. */
  ghost predicate Ok(k: Key) {
    match k
    case Messages(rs) => rs != []
    case Uids(rs) => rs != []
    case Keyword(w) => IsAtom(w)
    case Unkeyword(w) => IsAtom(w)
    case Dated(_, _, d) => d.Valid()
    case Contains(_, t) => Sendable(t)
    case Header(n, t) => Sendable(n) && Sendable(t)
    case Or(a, b) => Ok(a) && Ok(b)
    case Not(a) => Ok(a)
    case Group(ks) => AllOk(ks)
    case _ => true
  }

  ghost predicate AllOk(ks: seq<Key>) {
    ks != [] && forall i | 0 <= i < |ks| :: Ok(ks[i])
  }

  function WordOf(k: Key): Word {
    match k
    case Uids(_) => WUid
    case Has(f) => WHas(f)
    case Lacks(f) => WLacks(f)
    case Keyword(_) => WKeyword
    case Unkeyword(_) => WUnkeyword
    case Measured(m, _) => WMeasured(m)
    case Dated(s, r, _) => WDated(s, r)
    case Contains(f, _) => WContains(f)
    case Header(_, _) => WHeader
    case Or(_, _) => WOr
    case Not(_) => WNot
    case _ => WAll
  }

  ghost function Print(k: Key): string
    requires Ok(k)
    decreases k, 1
  {
    match k
    case Messages(rs) => PrintSet(rs)
    case Group(ks) => "(" + PrintAll(ks) + ")"
    case _ => Spell(WordOf(k)) + PrintArguments(k)
  }

  ghost function PrintArguments(k: Key): string
    requires Ok(k) && !k.Messages? && !k.Group?
    decreases k, 0
  {
    match k
    case Uids(rs) => " " + PrintSet(rs)
    case Keyword(w) => " " + w
    case Unkeyword(w) => " " + w
    case Measured(_, n) => " " + Decimal(n)
    case Dated(_, _, d) => " " + PrintDate(d)
    case Contains(_, t) => " " + PrintString(t)
    case Header(n, t) => " " + (PrintString(n) + (" " + PrintString(t)))
    case Or(a, b) => " " + (Print(a) + (" " + Print(b)))
    case Not(a) => " " + Print(a)
    case _ => ""
  }

  ghost function PrintAll(ks: seq<Key>): string
    requires AllOk(ks)
    decreases ks, 0
  {
    if |ks| == 1 then Print(ks[0]) else Print(ks[0]) + (" " + PrintAll(ks[1..]))
  }

  /** One key from the start of the text. */
  function ReadKey(s: string): (r: Parsed<Key>)
    ensures r.Read? ==> |r.rest| < |s|
    decreases |s|, 1
  {
    if s == "" then Unread
    else if s[0] == '(' then
      match ReadKeys(s[1..])
      case Unread => Unread
      case Read(ks, rest) => if rest != "" && rest[0] == ')' then Read(Group(ks), rest[1..]) else Unread
    else if IsDigit(s[0]) then
      match ReadSet(s)
      case Unread => Unread
      case Read(rs, rest) => Read(Messages(rs), rest)
    else
      var n := Run(s, IsLetter);
      if n == 0 then Unread else ReadArguments(ReadWord(s[..n]), s[n..])
  }

  /** What comes after a space; nothing if there is none. */
  function After(s: string): (r: string)
    ensures |r| <= |s| && (s != "" ==> |r| < |s|)
  {
    if s != "" && s[0] == ' ' then s[1..] else ""
  }

  function ReadArguments(w: Word, s: string): (r: Parsed<Key>)
    ensures r.Read? ==> |r.rest| <= |s|
    decreases |s|, 2
  {
    match w
    case WNone => Unread
    case WAll => Read(All, s)
    case WHas(f) => Read(Has(f), s)
    case WLacks(f) => Read(Lacks(f), s)
    case WUid => (match ReadSet(After(s)) case Unread => Unread case Read(rs, rest) => Read(Uids(rs), rest))
    case WKeyword => (match ReadAtom(After(s)) case Unread => Unread case Read(a, rest) => Read(Keyword(a), rest))
    case WUnkeyword => (match ReadAtom(After(s)) case Unread => Unread case Read(a, rest) => Read(Unkeyword(a), rest))
    case WMeasured(m) =>
      (match ReadNumber(After(s)) case Unread => Unread case Read(n, rest) => Read(Measured(m, n), rest))
    case WDated(sent, r) =>
      (match ReadDate(After(s)) case Unread => Unread case Read(d, rest) => Read(Dated(sent, r, d), rest))
    case WContains(f) =>
      (match ReadString(After(s)) case Unread => Unread case Read(t, rest) => Read(Contains(f, t), rest))
    case WHeader =>
      (match ReadString(After(s))
       case Unread => Unread
       case Read(n, rest) =>
         (match ReadString(After(rest)) case Unread => Unread case Read(t, rest') => Read(Header(n, t), rest')))
    case WNot => (match ReadKey(After(s)) case Unread => Unread case Read(a, rest) => Read(Not(a), rest))
    case WOr =>
      (match ReadKey(After(s))
       case Unread => Unread
       case Read(a, rest) =>
         (match ReadKey(After(rest)) case Unread => Unread case Read(b, rest') => Read(Or(a, b), rest')))
  }

  /** One or more keys with a space between them. */
  function ReadKeys(s: string): (r: Parsed<seq<Key>>)
    ensures r.Read? ==> |r.rest| < |s|
    decreases |s|, 2
  {
    match ReadKey(s)
    case Unread => Unread
    case Read(k, rest) =>
      if rest != "" && rest[0] == ' ' then
        match ReadKeys(rest[1..])
        case Unread => Unread
        case Read(ks, rest') => Read([k] + ks, rest')
      else Read([k], rest)
  }

  /** The keys of a whole command. */
  function Parse(s: string): Parsed<seq<Key>> {
    match ReadKeys(s)
    case Unread => Unread
    case Read(ks, rest) => if rest == "" then Read(ks, "") else Unread
  }

  lemma SpellLetters(w: Word)
    requires !w.WNone?
    ensures |Spell(w)| > 1 && forall i | 0 <= i < |Spell(w)| :: IsLetter(Spell(w)[i])
  {
    hide SpellFlag, SpellLack, SpellDate;
    match w
    case WHas(f) => FlagLetters(f);
    case WLacks(f) => FlagLetters(f);
    case WDated(sent, r) => DateLetters(sent, r);
    case _ =>
  }

  lemma FlagLetters(f: Flag)
    ensures |SpellFlag(f)| > 1 && forall i | 0 <= i < |SpellFlag(f)| :: IsLetter(SpellFlag(f)[i])
    ensures |SpellLack(f)| > 1 && forall i | 0 <= i < |SpellLack(f)| :: IsLetter(SpellLack(f)[i])
  {
  }

  lemma DateLetters(sent: bool, r: Relation)
    ensures |SpellDate(sent, r)| > 1 && forall i | 0 <= i < |SpellDate(sent, r)| :: IsLetter(SpellDate(sent, r)[i])
  {
  }

  /** A key that starts with a word is read by that word. */
  lemma WordStep(w: Word, args: string)
    requires !w.WNone? && (args == "" || !IsLetter(args[0]))
    ensures ReadKey(Spell(w) + args) == ReadArguments(w, args)
  {
    SpellLetters(w);
    WordRead(w);
    hide Spell, ReadWord, ReadArguments, ReadSet, ReadKeys;
    RunExact(Spell(w), args, IsLetter);
    var s := Spell(w) + args;
    assert s[0] == Spell(w)[0] && IsLetter(s[0]);
  }

  lemma AfterSpace(a: string, tail: string)
    ensures After(" " + a + tail) == a + tail && After(" " + (a + tail)) == a + tail
  {
  }

  /** Reading the text of a key gives the key back. */
  lemma {:induction false} KeyRead(k: Key, tail: string)
    requires Ok(k) && EndsSet(tail)
    ensures ReadKey(Print(k) + tail) == Read(k, tail)
    decreases k, 2
  {
    match k {
      case Messages(rs) =>
        SetRead(rs, tail);
        SetStart(rs, tail);
      case Group(ks) =>
        GroupRead(ks, tail);
      case _ =>
        hide Spell, ReadKey, Print, PrintArguments, ReadArguments;
        PrintWord(k);
        Assoc(Spell(WordOf(k)), PrintArguments(k), tail);
        ArgumentsStart(k, tail);
        WordStep(WordOf(k), PrintArguments(k) + tail);
        ArgumentsRead(k, tail);
    }
  }

  lemma PrintWord(k: Key)
    requires Ok(k) && !k.Messages? && !k.Group?
    ensures Print(k) == Spell(WordOf(k)) + PrintArguments(k) && !WordOf(k).WNone?
  {
  }

  lemma ArgumentsStart(k: Key, tail: string)
    requires Ok(k) && !k.Messages? && !k.Group? && EndsSet(tail)
    ensures PrintArguments(k) + tail == "" || !IsLetter((PrintArguments(k) + tail)[0])
  {
  }

  lemma SetStart(rs: seq<Range>, tail: string)
    requires rs != []
    ensures PrintSet(rs) != "" && IsDigit((PrintSet(rs) + tail)[0]) && (PrintSet(rs) + tail)[0] != '('
  {
    match rs[0] {
      case One(n) => DecimalValue(n);
      case Span(a, b) => DecimalValue(a);
    }
  }

  lemma {:induction false} GroupRead(ks: seq<Key>, tail: string)
    requires AllOk(ks) && EndsSet(tail)
    ensures ReadKey("(" + PrintAll(ks) + ")" + tail) == Read(Group(ks), tail)
    decreases ks, 4
  {
    hide ReadKeys, PrintAll;
    KeysRead(ks, ")" + tail);
    Assoc("(" + PrintAll(ks), ")", tail);
    Assoc("(", PrintAll(ks), ")" + tail);
    Behind("(", PrintAll(ks) + (")" + tail));
    Behind(")", tail);
  }

  lemma {:induction false} ArgumentsRead(k: Key, tail: string)
    requires Ok(k) && !k.Messages? && !k.Group? && EndsSet(tail)
    ensures ReadArguments(WordOf(k), PrintArguments(k) + tail) == Read(k, tail)
    decreases k, 1
  {
    hide ReadKey, Print;
    match k {
      case Or(a, b) => OrRead(a, b, tail);
      case Not(a) =>
        AfterSpace(Print(a), tail);
        KeyRead(a, tail);
      case Header(n, t) => HeaderRead(n, t, tail);
      case _ => LeafRead(k, tail);
    }
  }

  lemma LeafRead(k: Key, tail: string)
    requires Ok(k) && !k.Messages? && !k.Group? && !k.Or? && !k.Not? && !k.Header? && EndsSet(tail)
    ensures ReadArguments(WordOf(k), PrintArguments(k) + tail) == Read(k, tail)
  {
    hide ReadArguments, PrintSet, PrintDate, PrintString, Decimal, IsAtom, Sendable;
    match k {
      case Uids(rs) => UidsRead(rs, tail);
      case Keyword(w) => KeywordRead(w, tail);
      case Unkeyword(w) => KeywordRead(w, tail);
      case Measured(m, n) => MeasuredRead(m, n, tail);
      case Dated(s, r, d) => DateKeyRead(s, r, d, tail);
      case Contains(f, t) => ContainsRead(f, t, tail);
      case _ => WordAlone(k, tail);
    }
  }

  lemma UidsRead(rs: seq<Range>, tail: string)
    requires rs != [] && EndsSet(tail)
    ensures ReadArguments(WUid, " " + PrintSet(rs) + tail) == Read(Uids(rs), tail)
  {
    hide ReadSet, PrintSet, After;
    AfterSpace(PrintSet(rs), tail);
    SetRead(rs, tail);
  }

  lemma KeywordRead(w: string, tail: string)
    requires IsAtom(w) && EndsSet(tail)
    ensures ReadArguments(WKeyword, " " + w + tail) == Read(Keyword(w), tail)
    ensures ReadArguments(WUnkeyword, " " + w + tail) == Read(Unkeyword(w), tail)
  {
    hide ReadAtom, After;
    AfterSpace(w, tail);
    AtomRead(w, tail);
  }

  lemma MeasuredRead(m: Measure, n: nat, tail: string)
    requires EndsSet(tail)
    ensures ReadArguments(WMeasured(m), " " + Decimal(n) + tail) == Read(Measured(m, n), tail)
  {
    hide ReadNumber, Decimal, After;
    AfterSpace(Decimal(n), tail);
    NumberRead(n, tail);
  }

  lemma DateKeyRead(sent: bool, r: Relation, d: Date, tail: string)
    requires d.Valid() && EndsSet(tail)
    ensures ReadArguments(WDated(sent, r), " " + PrintDate(d) + tail) == Read(Dated(sent, r, d), tail)
  {
    hide ReadDate, PrintDate, After;
    AfterSpace(PrintDate(d), tail);
    DateRead(d, tail);
  }

  lemma ContainsRead(f: Field, t: string, tail: string)
    requires Sendable(t) && EndsSet(tail)
    ensures ReadArguments(WContains(f), " " + PrintString(t) + tail) == Read(Contains(f, t), tail)
  {
    hide ReadString, PrintString, After;
    AfterSpace(PrintString(t), tail);
    StringRead(t, tail);
  }

  /** The keys that are a word only. */
  lemma WordAlone(k: Key, tail: string)
    requires k.All? || k.Has? || k.Lacks?
    ensures ReadArguments(WordOf(k), PrintArguments(k) + tail) == Read(k, tail)
  {
    assert "" + tail == tail;
  }

  lemma {:induction false} OrRead(a: Key, b: Key, tail: string)
    requires Ok(a) && Ok(b) && EndsSet(tail)
    ensures ReadArguments(WOr, PrintArguments(Or(a, b)) + tail) == Read(Or(a, b), tail)
    decreases Or(a, b), 0
  {
    hide ReadKey, Print;
    var more := " " + (Print(b) + tail);
    Assoc(" ", Print(a) + (" " + Print(b)), tail);
    Assoc(Print(a), " " + Print(b), tail);
    Assoc(" ", Print(b), tail);
    AfterSpace(Print(a), more);
    AfterSpace(Print(b), tail);
    KeyRead(b, tail);
    KeyRead(a, more);
  }

  lemma HeaderRead(n: string, t: string, tail: string)
    requires Sendable(n) && Sendable(t) && EndsSet(tail)
    ensures ReadArguments(WHeader, PrintArguments(Header(n, t)) + tail) == Read(Header(n, t), tail)
  {
    hide ReadString, PrintString;
    var more := " " + (PrintString(t) + tail);
    Assoc(" ", PrintString(n) + (" " + PrintString(t)), tail);
    Assoc(PrintString(n), " " + PrintString(t), tail);
    Assoc(" ", PrintString(t), tail);
    AfterSpace(PrintString(n), more);
    AfterSpace(PrintString(t), tail);
    StringRead(t, tail);
    StringRead(n, more);
  }

  lemma {:induction false} KeysRead(ks: seq<Key>, tail: string)
    requires AllOk(ks) && (tail == "" || tail[0] == ')')
    ensures ReadKeys(PrintAll(ks) + tail) == Read(ks, tail)
    decreases ks, 3
  {
    hide ReadKey, Print;
    if |ks| == 1 {
      KeyRead(ks[0], tail);
      assert [ks[0]] == ks;
    } else {
      var more := " " + (PrintAll(ks[1..]) + tail);
      Assoc(Print(ks[0]), " " + PrintAll(ks[1..]), tail);
      Assoc(" ", PrintAll(ks[1..]), tail);
      KeyRead(ks[0], more);
      KeysRead(ks[1..], tail);
      Behind(" ", PrintAll(ks[1..]) + tail);
      assert [ks[0]] + ks[1..] == ks;
      KeysStep(Print(ks[0]) + more, more, tail, ks[0], ks[1..]);
    }
  }

  lemma KeysStep(s: string, rest: string, rest': string, k: Key, ks: seq<Key>)
    requires ReadKey(s) == Read(k, rest) && rest != "" && rest[0] == ' ' && ReadKeys(rest[1..]) == Read(ks, rest')
    ensures ReadKeys(s) == Read([k] + ks, rest')
  {
  }

  /** The text of a list of keys means that list. */
  lemma ParsePrinted(ks: seq<Key>)
    requires AllOk(ks)
    ensures Parse(PrintAll(ks)) == Read(ks, "")
  {
    KeysRead(ks, "");
    assert PrintAll(ks) + "" == PrintAll(ks);
  }
}
