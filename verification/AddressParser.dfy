/** The parser of address lists. A cursor is the rest of the text, and no cursor is
    the source's NIL. */
module AddressParser {
  import opened Sequences
  import opened Messages
  import opened Texts
  import opened AddressText

  const ESC: char := 27 as char
  const ERRHOST: string := ".SYNTAX-ERROR."
  const MAXGROUPDEPTH: nat := 50

  // ---- White space and comments ----

  predicate White(c: char) {
    c == ' ' || c == '\t' || c == '\r' || c == '\n'
  }

  /** No white space or comment comes first. */
  predicate Solid(s: string) {
    s == "" || (!White(s[0]) && s[0] != '(')
  }

  /** What follows the end of a comment inside of `depth` more of them. */
  function CommentRest(s: string, depth: nat): (r: Option<string>)
    ensures r.Some? ==> |r.value| < |s|
    decreases |s|
  {
    if s == "" then None
    else if s[0] == '(' then CommentRest(s[1..], depth + 1)
    else if s[0] == ')' then if depth == 0 then Some(s[1..]) else CommentRest(s[1..], depth - 1)
    else if s[0] == '\\' then if |s| == 1 then None else CommentRest(s[2..], depth)
    else CommentRest(s[1..], depth)
  }

  /** An inner comment is one by itself. */
  lemma {:induction false} CommentInner(s: string, depth: nat, more: nat)
    ensures CommentRest(s, depth + 1 + more) ==
      if CommentRest(s, depth) == None then None else CommentRest(CommentRest(s, depth).value, more)
    decreases |s|
  {
    if s != "" {
      if s[0] == '(' {
        CommentInner(s[1..], depth + 1, more);
      } else if s[0] == ')' {
        if depth > 0 {
          CommentInner(s[1..], depth - 1, more);
        }
      } else if s[0] == '\\' {
        if |s| > 1 {
          CommentInner(s[2..], depth, more);
        }
      } else {
        CommentInner(s[1..], depth, more);
      }
    }
  }

  lemma RestEnd(s: string)
    ensures s == "" ==> CommentRest(s, 0) == None
  {
  }

  /** The comment from one position on. */
  lemma RestStep(s: string, i: nat)
    requires i < |s|
    ensures s[i] == '(' ==>
      var r := CommentRest(s[i + 1..], 0);
      if r == None then CommentRest(s[i..], 0) == None
      else |r.value| < |s| - i && CommentRest(s[i..], 0) == CommentRest(s[|s| - |r.value|..], 0)
    ensures s[i] == ')' ==> CommentRest(s[i..], 0) == Some(s[i + 1..])
    ensures s[i] == '\\' ==> CommentRest(s[i..], 0) == if i + 1 == |s| then None else CommentRest(s[i + 2..], 0)
    ensures s[i] != '(' && s[i] != ')' && s[i] != '\\' ==> CommentRest(s[i..], 0) == CommentRest(s[i + 1..], 0)
  {
    assert s[i..][1..] == s[i + 1..];
    assert i + 1 < |s| ==> s[i..][2..] == s[i + 2..];
    if s[i] == '(' {
      CommentInner(s[i + 1..], 0, 0);
      RestIsSuffix(s[i + 1..], 0);
    }
  }

  /** rfc822_skip_comment: what follows the comment, and its text; none if it does
      not end. */
  method SkipComment(s: string) returns (r: Option<(string, string)>)
    requires s != "" && s[0] == '('
    ensures if CommentRest(s[1..], 0) == None then r == None else r.Some? && r.value.0 == CommentRest(s[1..], 0).value
    decreases |s|
  {
    var start := 1;
    while start < |s| && s[start] == ' '
      invariant 1 <= start <= |s|
    {
      start := start + 1;
    }
    hide CommentRest;
    var end := start;
    var i := 1;
    while i < |s|
      invariant 1 <= i <= |s| && start <= end <= |s| && CommentRest(s[i..], 0) == CommentRest(s[1..], 0)
    {
      RestStep(s, i);
      if s[i] == '(' {
        assert s[i..][1..] == s[i + 1..];
        var inner := SkipComment(s[i..]);
        if inner == None {
          return None;
        }
        i := |s| - |inner.value.0|;
        end := if i > start then i else start;
      } else if s[i] == ')' {
        return Some((s[i + 1..], s[start..end]));
      } else if s[i] == '\\' {
        i := i + 1;
        if i == |s| {
          return None;
        }
        i := i + 1;
        end := if i > start then i else start;
      } else {
        i := i + 1;
        if s[i - 1] != ' ' {
          end := if i > start then i else start;
        }
      }
    }
    RestEnd(s[|s|..]);
    r := None;
  }

  lemma {:induction false} RestIsSuffix(s: string, depth: nat)
    ensures var r := CommentRest(s, depth); r.Some? ==> r.value == s[|s| - |r.value|..]
    decreases |s|
  {
    if s != "" {
      if s[0] == '(' {
        RestIsSuffix(s[1..], depth + 1);
      } else if s[0] == ')' {
        if depth > 0 {
          RestIsSuffix(s[1..], depth - 1);
        }
      } else if s[0] == '\\' {
        if |s| > 1 {
          RestIsSuffix(s[2..], depth);
        }
      } else {
        RestIsSuffix(s[1..], depth);
      }
    }
  }

  /** The text without the white space and the comments before it; a comment that
      does not end hides the rest. */
  function Bared(s: string): (r: string)
    ensures |r| <= |s| && Solid(r)
    decreases |s|
  {
    if s == "" then ""
    else if White(s[0]) then Bared(s[1..])
    else if s[0] != '(' then s
    else if CommentRest(s[1..], 0) == None then ""
    else Bared(CommentRest(s[1..], 0).value)
  }

  lemma {:induction false} BaredBlanks(s: string)
    ensures Solid(Unspaced(s)) ==> Bared(s) == Unspaced(s)
  {
    if s != "" && s[0] == ' ' {
      BaredBlanks(s[1..]);
    }
  }

  /** rfc822_skipws. */
  method SkipWs(s: string) returns (r: string)
    ensures r == Bared(s) && |r| <= |s|
    ensures Solid(Unspaced(s)) ==> r == Unspaced(s)
  {
    r := s;
    BaredBlanks(s);
    while r != ""
      invariant Bared(r) == Bared(s)
      decreases |r|
    {
      if White(r[0]) {
        r := r[1..];
      } else if r[0] == '(' {
        var c := SkipComment(r);
        if c == None {
          return "";
        }
        r := c.value.0;
      } else {
        return;
      }
    }
  }

  // ---- Words ----

  datatype Kind = InPhrase | InAtom | InLiteral

  predicate Delimits(k: Kind, c: char) {
    if k == InLiteral then c == ']' || c == '\\' else WSpecial(c)
  }

  /** The text ends a word and is not part of one. */
  predicate Ends(tail: string) {
    tail == "" || (WSpecial(tail[0]) && !Special(tail[0]) && tail[0] != ESC)
  }

  /** `x` is a word in quotes, or one without anything special. */
  predicate IsWord(x: string, w: string) {
    x == Quoted(w) || (x == w != "" && !Has(w, WSpecial))
  }

  /** strpbrk: the rest of the text from the first delimiter on. */
  method FindDelimiter(s: string, k: Kind) returns (r: string)
    ensures |r| <= |s| && (r != "" ==> Delimits(k, r[0]))
    ensures s != "" && Delimits(k, s[0]) ==> r == s
    ensures forall w, tail :: s == w + tail && k != InLiteral && !Has(w, WSpecial) && Ends(tail) ==> r == tail
  {
    var i := 0;
    while i < |s| && !Delimits(k, s[i])
      invariant i <= |s| && forall j | 0 <= j < i :: !Delimits(k, s[j])
    {
      i := i + 1;
    }
    r := s[i..];
    forall w, tail | s == w + tail && k != InLiteral && !Has(w, WSpecial) && Ends(tail)
      ensures r == tail
    {
      assert forall j | 0 <= j < |w| :: s[j] == w[j];
      assert tail != "" ==> s[|w|] == tail[0];
      assert i == |w|;
      Behind(w, tail);
    }
  }

  /** After the quote that closes a quoted string. */
  method SkipQuoted(s: string, ghost w: string, ghost tail: string) returns (r: Option<string>)
    ensures r.Some? ==> |r.value| < |s|
    ensures s == Escaped(w) + ("\"" + tail) ==> r == Some(tail)
  {
    var st := s;
    ghost var good, v := s == Escaped(w) + ("\"" + tail), w;
    while st != "" && st[0] != '"'
      invariant |st| <= |s| && (good ==> st == Escaped(v) + ("\"" + tail))
      decreases |st|
    {
      if good {
        EscapedFirst(v, "\"" + tail);
        v := v[1..];
      }
      if st[0] == '\\' {
        st := st[1..];
        if st == "" {
          return None;
        }
      }
      st := st[1..];
    }
    if good {
      EscapedFirst(v, "\"" + tail);
    }
    r := if st == "" then None else Some(st[1..]);
  }

  lemma EscapedFirst(v: string, rest: string)
    ensures v == "" ==> Escaped(v) + rest == rest
    ensures v != "" ==> Escaped(v) + rest == (if Special(v[0]) then "\\" else "") + ([v[0]] + (Escaped(v[1..]) + rest))
  {
    if v != "" {
      var mark, more := if Special(v[0]) then "\\" else "", Escaped(v[1..]);
      assert Escaped(v) == mark + ([v[0]] + more);
      hide Escaped, Special;
      Assoc(mark, [v[0]] + more, rest);
      Assoc([v[0]], more, rest);
    }
  }

  lemma {:induction false} WordSolid(x: string, w: string, tail: string)
    requires IsWord(x, w)
    ensures x != "" && Solid(x + tail) && x[0] != ' '
    ensures x == Quoted(w) ==> x[0] == '"' && (x + tail)[1..] == Escaped(w) + ("\"" + tail)
    ensures x != Quoted(w) ==> x == w && !Has(w, WSpecial) && !WSpecial(x[0])
  {
    if x == Quoted(w) {
      assert x + tail == "\"" + (Escaped(w) + ("\"" + tail));
    } else {
      assert !WSpecial(w[0]);
    }
  }

  /** rfc822_parse_word: what follows the word, if there is one. */
  method ParseWord(s0: string, k: Kind, ghost x: string, ghost w: string, ghost tail: string)
    returns (r: Option<string>)
    ensures r.Some? ==> |r.value| < |s0|
    ensures s0 == x + tail && IsWord(x, w) && Ends(tail) && k != InLiteral ==> r == Some(tail)
    ensures Solid(s0) && Ends(s0) && k != InLiteral ==> r == None
  {
    hide Escaped;
    ghost var good := s0 == x + tail && IsWord(x, w) && Ends(tail) && k != InLiteral;
    ghost var stuck := Solid(s0) && Ends(s0) && k != InLiteral;
    if good {
      WordSolid(x, w, tail);
    }
    if s0 == "" || s0[0] != ' ' {
      UnspacedSolid(s0);
    }
    var s := SkipWs(s0);
    if s == "" {
      return None;
    }
    var str := s;
    while true
      invariant |str| <= |s| <= |s0| && (good ==> s == s0 && (str == s || (str == tail && |tail| < |s|)))
      invariant (stuck ==> str == s == s0)
      decreases |str|
    {
      var st := FindDelimiter(str, k);
      if st == "" {
        return Some("");
      } else if k == InPhrase && st[0] == ESC {
        str := st[1..];
      } else if st[0] == '"' {
        var close := SkipQuoted(st[1..], w, tail);
        if close == None {
          return None;
        }
        str := close.value;
      } else if st[0] == '\\' && |st| > 1 {
        str := st[2..];
      } else {
        return if |st| == |s| then None else Some(st);
      }
    }
  }

  // ---- Phrases ----

  /** `x` is `p` in quotes, or plain words with blanks between them. */
  predicate IsPhrase(x: string, p: string) {
    x == Quoted(p) || (x == p && Words(p))
  }

  /** Neither a blank nor part of a plain word. */
  predicate Stops(c: char) {
    Bracket(c) || Control(c)
  }

  predicate Words(p: string) {
    p != "" && !Has(p, Stops) && p[0] != ' ' && p[|p| - 1] != ' '
  }

  /** After blanks something comes that ends a phrase. */
  predicate EndsPhrase(tail: string) {
    Ends(Unspaced(tail)) && Solid(Unspaced(tail))
  }

  /** The length of the first word. */
  function FirstLength(p: string): (n: nat)
    ensures n <= |p| && (n < |p| ==> p[n] == ' ') && forall i | 0 <= i < n :: p[i] != ' '
  {
    if p == "" || p[0] == ' ' then 0 else 1 + FirstLength(p[1..])
  }

  lemma {:induction false} UnspacedPrefix(a: string, b: string)
    requires Unspaced(a) != ""
    ensures Unspaced(a + b) == Unspaced(a) + b
  {
    assert (a + b)[0] == a[0];
    if a[0] == ' ' {
      assert (a + b)[1..] == a[1..] + b;
      UnspacedPrefix(a[1..], b);
    }
  }

  /** What is left without the blanks is the end of the text. */
  lemma {:induction false} UnspacedSuffix(a: string)
    ensures var u := Unspaced(a); u == a[|a| - |u|..]
    ensures a != "" && a[|a| - 1] != ' ' ==> Unspaced(a) != ""
  {
    if a != "" && a[0] == ' ' {
      UnspacedSuffix(a[1..]);
      assert a[1..][|a| - 1 - |Unspaced(a[1..])|..] == a[|a| - |Unspaced(a)|..];
    }
  }

  /** The first word, and the words after it. */
  lemma PhraseSplit(p: string, tail: string)
    requires Words(p)
    ensures var n := FirstLength(p);
      && n > 0 && p + tail == p[..n] + (p[n..] + tail) && IsWord(p[..n], p[..n])
      && (n < |p| ==> var q := Unspaced(p[n..]);
            Words(q) && |q| < |p| && Unspaced(p[n..] + tail) == q + tail && Solid(q + tail) && Ends(p[n..] + tail))
      && (n == |p| ==> p[n..] + tail == tail)
  {
    var n := FirstLength(p);
    NotSpecialAt(p, 0);
    assert p + tail == p[..n] + (p[n..] + tail);
    forall i | 0 <= i < |p[..n]|
      ensures !WSpecial(p[..n][i])
    {
      NotSpecialAt(p, i);
    }
    if n < |p| {
      var a := p[n..];
      var q := Unspaced(a);
      UnspacedSuffix(a);
      assert a[|a| - 1] == p[|p| - 1];
      UnspacedPrefix(a, tail);
      assert q[|q| - 1] == p[|p| - 1];
      forall i | 0 <= i < |q|
        ensures !Stops(q[i]) && q[i] == p[|p| - |q| + i]
      {
        NotSpecialAt(p, |p| - |q| + i);
      }
      assert q[0] != ' ';
    } else {
      assert p[n..] + tail == tail;
    }
  }

  lemma NotSpecialAt(p: string, i: nat)
    requires !Has(p, Stops) && i < |p|
    ensures !Stops(p[i]) && (p[i] != ' ' ==> !WSpecial(p[i]))
  {
  }

  lemma EndsPhraseEnds(tail: string)
    requires EndsPhrase(tail)
    ensures Ends(tail)
  {
  }

  /** rfc822_parse_phrase: what follows the phrase, if there is one. */
  method ParsePhrase(s: string, ghost x: string, ghost p: string, ghost tail: string) returns (r: Option<string>)
    ensures r.Some? ==> |r.value| < |s|
    ensures s == x + tail && IsPhrase(x, p) && EndsPhrase(tail) ==> r == Some(tail)
    ensures Solid(s) && Ends(s) ==> r == None
    decreases |s|
  {
    hide Stops, WSpecial, Solid, Ends, Words, Quoted, IsWord, Unspaced;
    ghost var good := s == x + tail && IsPhrase(x, p) && EndsPhrase(tail);
    ghost var plain := x == p && Words(p);
    ghost var n := if plain then FirstLength(p) else 0;
    ghost var x1, w1, rest := x, p, tail;
    if good {
      EndsPhraseEnds(tail);
      if plain {
        PhraseSplit(p, tail);
        x1, w1, rest := p[..n], p[..n], p[n..] + tail;
      } else {
        QuotedIsWord(p);
      }
    }
    var curpos := ParseWord(s, InPhrase, x1, w1, rest);
    if curpos == None {
      return None;
    }
    if curpos.value == "" {
      return Some("");
    }
    var t := SkipWs(curpos.value);
    ghost var q := if plain then Unspaced(p[n..]) else "";
    r := ParsePhrase(t, q, q, tail);
    if r == None {
      r := curpos;
    }
  }

  lemma QuotedIsWord(p: string)
    ensures IsWord(Quoted(p), p)
  {
  }

  // ---- Addresses ----

  /** A cursor on what is left, if anything is. */
  function Cursor(t: string): Option<string> {
    if t == "" then None else Some(t)
  }

  /** The end of an address. */
  predicate Closes(tail: string) {
    tail == "" || tail[0] == ',' || tail[0] == ';' || tail[0] == '>'
  }

  /** The end of an element of a list. */
  predicate Separates(tail: string) {
    tail == "" || tail[0] == ',' || tail[0] == ';'
  }

  lemma WordRead(w: string)
    ensures IsWord(Word(w), w) && Unquoted(Word(w)) == w && Word(w) != "" && Word(w)[0] != '[' && Word(w)[0] != '<'
  {
    if Word(w) == w && w != "" {
      if Has(w, WSpecial) {
        UnquoteQuoted(w);
      } else {
        assert !WSpecial(w[0]);
        assert !Has(w, Special);
        UnquotePlain(w);
      }
    }
    UnquoteQuoted(w);
    assert Quoted(w)[0] == '"';
  }

  lemma ClosesFacts(tail: string)
    requires Closes(tail)
    ensures Ends(tail) && Solid(tail) && Unspaced(tail) == tail && EndsPhrase(tail)
    ensures (tail != "" ==> tail[0] != '.' && tail[0] != '@' && tail[0] != '<')
  {
  }

  /** rfc822_parse_domain: the domain and the cursor behind it. */
  method ParseDomain(s0: string, ghost h: string, ghost tail: string) returns (ret: Option<string>, end: Option<string>)
    ensures end.Some? ==> |end.value| <= |s0|
    ensures s0 == Word(h) + tail && Closes(tail) ==> ret == Some(h) && end == Some(tail)
    decreases |s0|
  {
    hide Word, Unquoted, IsWord, Ends, Solid, Unspaced, EndsPhrase, Closes, WSpecial;
    ghost var good := s0 == Word(h) + tail && Closes(tail);
    if good {
      WordRead(h);
      ClosesFacts(tail);
      WordSolid(Word(h), h, tail);
      UnspacedSolid(s0);
      Behind(Word(h), tail);
    }
    var s := SkipWs(s0);
    ret, end := None, Some(s0);
    if s != "" && s[0] == '[' {
      end := ParseWord(s[1..], InLiteral, "", "", "");
      if end.Some? && end.value != "" && end.value[0] == ']' {
        ret, end := Some(s[..|s| - |end.value| + 1]), Some(end.value[1..]);
      }
      return;
    }
    var t := ParseWord(s, InAtom, Word(h), h, tail);
    if t == None {
      return;
    }
    ret, end := Some(Unquoted(s[..|s| - |t.value|])), t;
    var u := SkipWs(t.value);
    while u != "" && u[0] == '.'
      invariant |u| <= |s0| && end.Some? && |end.value| <= |s0| && ret.Some?
      invariant |u| < |s0|
      invariant good ==> u == tail && ret == Some(h) && end == Some(tail)
      decreases |u|
    {
      var next := SkipWs(u[1..]);
      var d, e := ParseDomain(next, "", "");
      if d == None || e == None {
        break;
      }
      ret, end := Some(ret.value + "." + Unquoted(d.value)), e;
      u := SkipWs(e.value);
    }
  }

  /** The domain an address is read with. */
  function HostOf(host: string, default: string): string {
    if Bare(host) then default else host
  }

  function Read(p: Person, default: string): Address {
    Address(None, Some(p.mailbox), Some(HostOf(p.host, default)))
  }

  /** The words of a mailbox before the '@'. */
  method ParseLocal(s: string, ghost m: string, ghost tail: string) returns (mailbox: string, end: Option<string>)
    ensures end.Some? ==> |end.value| < |s|
    ensures s == Word(m) + tail && Ends(tail) && Solid(tail) && (tail != "" ==> tail[0] != '.') ==>
      mailbox == m && end == Some(tail)
  {
    hide Word, Unquoted, IsWord, Ends, WSpecial;
    ghost var good := s == Word(m) + tail && Ends(tail) && Solid(tail) && (tail != "" ==> tail[0] != '.');
    if good {
      WordRead(m);
      Behind(Word(m), tail);
      UnspacedSolid(tail);
    }
    end := ParseWord(s, InAtom, Word(m), m, tail);
    mailbox := "";
    if end == None {
      return;
    }
    mailbox := Unquoted(s[..|s| - |end.value|]);
    var t := SkipWs(end.value);
    while t != "" && t[0] == '.'
      invariant |t| < |s| && end.Some? && |end.value| < |s|
      invariant good ==> t == tail && mailbox == m && end == Some(tail)
      decreases |t|
    {
      var next := SkipWs(t[1..]);
      var e := ParseWord(next, InAtom, "", "", "");
      if e == None {
        break;
      }
      end := e;
      mailbox := mailbox + "." + Unquoted(next[..|next| - |e.value|]);
      t := SkipWs(e.value);
    }
  }

  /** A name in a comment behind the address, and the cursor behind that. */
  method ParseRemark(end: string) returns (personal: Option<string>, rest: Option<string>)
    ensures rest.Some? ==> |rest.value| <= |end|
    ensures Solid(end) ==> personal == None && rest == Cursor(end)
  {
    personal := None;
    var e := end;
    while e != "" && e[0] == ' '
      invariant |e| <= |end| && (Solid(end) ==> e == end)
      decreases |e|
    {
      e := e[1..];
    }
    if e != "" && e[0] == '(' {
      var c := SkipComment(e);
      if c == None {
        e := "";
      } else {
        e := c.value.0;
        if c.value.1 != "" {
          personal := Some(Unquoted(c.value.1));
        }
      }
    }
    if Solid(end) {
      UnspacedSolid(e);
    }
    e := SkipWs(e);
    rest := Cursor(e);
  }

  /** rfc822_parse_addrspec: the address and the cursor behind it. */
  method ParseAddrspec(string0: string, default: string, ghost p: Person, ghost tail: string)
    returns (adr: Option<Address>, rest: Option<string>)
    ensures adr.Some? && rest.Some? ==> |rest.value| < |string0|
    ensures string0 == Spec(p.mailbox, p.host) + tail && Closes(tail) ==>
      adr == Some(Read(p, default)) && rest == Cursor(tail)
  {
    hide Word, Unquoted, IsWord, Ends, EndsPhrase, WSpecial, Unspaced;
    ghost var good := string0 == Spec(p.mailbox, p.host) + tail && Closes(tail);
    ghost var after := (if Bare(p.host) then "" else "@" + Word(p.host)) + tail;
    if good {
      SpecRead(p, tail);
      UnspacedSolid(string0);
    }
    adr, rest := None, None;
    var s := SkipWs(string0);
    if s == "" {
      return;
    }
    var mailbox, t := ParseLocal(s, p.mailbox, after);
    if t == None {
      return;
    }
    if good {
      UnspacedSolid(after);
    }
    var end := t;
    var e := SkipWs(t.value);
    var host := Some(default);
    if e != "" && e[0] == '@' {
      host, end := ParseDomain(e[1..], p.host, tail);
      if host == None {
        host := Some(ERRHOST);
      }
    }
    var personal: Option<string> := None;
    if end.Some? {
      personal, rest := ParseRemark(end.value);
    }
    adr := Some(Address(personal, Some(mailbox), host));
  }

  lemma {:induction false} SpecRead(p: Person, tail: string)
    requires Closes(tail)
    ensures var after := (if Bare(p.host) then "" else "@" + Word(p.host)) + tail;
      && Spec(p.mailbox, p.host) + tail == Word(p.mailbox) + after
      && Ends(after) && Solid(after) && EndsPhrase(after)
      && (after != "" ==> after[0] != '.' && after[0] != ' ' && after[0] != '<')
      && (if Bare(p.host) then after == tail && (after != "" ==> after[0] != '@')
          else after != "" && after[0] == '@' && after[1..] == Word(p.host) + tail)
    ensures Solid(tail) && Solid(Spec(p.mailbox, p.host) + tail)
    ensures var t := Spec(p.mailbox, p.host) + tail; t != "" && t[0] != ' ' && t[0] != '<'
  {
    hide Word, Unquoted, IsWord;
    ClosesFacts(tail);
    WordRead(p.mailbox);
    var after := (if Bare(p.host) then "" else "@" + Word(p.host)) + tail;
    WordSolid(Word(p.mailbox), p.mailbox, after);
    Assoc(Word(p.mailbox), if Bare(p.host) then "" else "@" + Word(p.host), tail);
    UnspacedSolid(after);
  }

  const UNTERMINATED: Address := Address(None, Some("MISSING_MAILBOX_TERMINATOR"), Some(ERRHOST))

  /** rfc822_parse_routeaddr, without at-domain-lists; no address is an error. */
  method ParseRouteaddr(string0: string, default: string, ghost p: Person, ghost tail: string)
    returns (adrs: seq<Address>, rest: Option<string>)
    ensures adrs != [] && rest.Some? ==> |rest.value| < |string0|
    ensures Unspaced(string0) == "<" + (Spec(p.mailbox, p.host) + (">" + tail)) && Separates(tail) ==>
      adrs == [Read(p, default)] && rest == Cursor(tail)
    ensures string0 == "" || (Solid(string0) && string0[0] != '<') ==> adrs == []
  {
    hide Spec, Read;
    ghost var spec := Spec(p.mailbox, p.host);
    ghost var good := Unspaced(string0) == "<" + (spec + (">" + tail)) && Separates(tail);
    adrs, rest := [], None;
    if Solid(string0) {
      UnspacedSolid(string0);
    }
    var s := SkipWs(string0);
    if s == "" || s[0] != '<' {
      return;
    }
    if good {
      assert s[1..] == spec + (">" + tail);
      UnspacedSolid(tail);
      assert (">" + tail)[1..] == tail;
    }
    var adr, end := ParseAddrspec(s[1..], default, p, ">" + tail);
    if adr == None {
      return;
    }
    rest := end;
    if rest.Some? && rest.value != "" && rest.value[0] == '>' {
      var r := SkipWs(rest.value[1..]);
      return [adr.value], Cursor(r);
    }
    adrs := [adr.value, UNTERMINATED];
  }

  // ---- Names ----

  function TrimEnd(p: string): (r: string)
    ensures |r| <= |p| && (r != "" ==> r[|r| - 1] != ' ') && r == p[..|r|] && forall i | |r| <= i < |p| :: p[i] == ' '
  {
    if p != "" && p[|p| - 1] == ' ' then TrimEnd(p[..|p| - 1]) else p
  }

  /** A name without the blanks around it, unless they get quoted. */
  function Core(p: string): string {
    if p == "" || Has(p, RSpecial) then p else TrimEnd(Unspaced(p))
  }

  predicate Blank(s: string) {
    forall i | 0 <= i < |s| :: s[i] == ' '
  }

  lemma {:induction false} UnspacedBlank(gap: string, after: string)
    requires Blank(gap)
    ensures Unspaced(gap + after) == Unspaced(after)
  {
    if gap == "" {
      assert gap + after == after;
    } else {
      assert (gap + after)[1..] == gap[1..] + after;
      UnspacedBlank(gap[1..], after);
    }
  }

  lemma {:induction false} UnspacedNone(p: string)
    requires Unspaced(p) == ""
    ensures Blank(p)
  {
    if p != "" {
      UnspacedNone(p[1..]);
      assert forall i | 0 < i < |p| :: p[i] == p[1..][i - 1];
    }
  }

  /** How a written name is met by the parser: `x` is the phrase, if there is one, and
      `gap` are blanks behind it. */
  lemma PhraseShape(p: string, after: string) returns (x: string, gap: string)
    ensures Unspaced(gap + after) == Unspaced(after)
    ensures x == "" ==> Core(p) == "" && p != "" && Unspaced(Phrase(p) + after) == Unspaced(after)
    ensures x != "" ==>
      Unspaced(Phrase(p) + after) == x + (gap + after) && IsPhrase(x, Core(p)) && Unquoted(x) == Core(p)
    ensures x != "" ==>
      Solid(x + (gap + after)) && x[0] != '<' && x[0] != ':' && x[0] != ' ' && (Core(p) == "" ==> p == "")
  {
    if p == "" || Has(p, RSpecial) {
      x, gap := Quoted(p), "";
      UnquoteQuoted(p);
      QuotedIsWord(p);
      WordSolid(x, p, gap + after);
      assert gap + after == after;
      UnspacedSolid(x + after);
    } else {
      var q := Unspaced(p);
      x := TrimEnd(q);
      gap := q[|x|..];
      UnspacedBlank(gap, after);
      assert q == x + gap;
      if x == "" {
        UnspacedSuffix(p);
        assert q == "";
        UnspacedNone(p);
        UnspacedBlank(p, after);
      } else {
        UnspacedPrefix(p, after);
        Assoc(x, gap, after);
        UnspacedSuffix(p);
        assert x == p[|p| - |q|..|p| - |q| + |x|];
        PlainName(p, x, |p| - |q|);
      }
    }
  }

  lemma PlainName(p: string, x: string, n: nat)
    requires !Has(p, RSpecial) && x != "" && x[0] != ' ' && x[|x| - 1] != ' '
    requires n + |x| <= |p| && x == p[n..n + |x|]
    ensures Words(x) && Unquoted(x) == x && Solid(x) && x[0] != '<' && x[0] != ':'
  {
    forall i | 0 <= i < |x|
      ensures !RSpecial(x[i])
    {
      assert x[i] == p[n + i];
    }
    assert !Has(x, Stops) && !Has(x, Special);
    UnquotePlain(x);
  }

  // ---- Mailboxes ----

  /** The name that is read: none if there are only blanks. */
  function NameOf(personal: Option<string>): Option<string> {
    if personal == None || Core(personal.value) == "" then None else Some(Core(personal.value))
  }

  function ReadPerson(p: Person, default: string): Address {
    Address(NameOf(p.personal), Some(p.mailbox), Some(HostOf(p.host, default)))
  }

  /** rfc822_parse_mailbox, without a parser for phrases only. */
  method ParseMailbox(string0: string, default: string, ghost p: Person, ghost tail: string)
    returns (adrs: seq<Address>, rest: Option<string>)
    ensures adrs != [] && rest.Some? ==> |rest.value| < |string0|
    ensures Unspaced(string0) == Unspaced(PersonText(p) + tail) && Separates(tail) ==>
      adrs == [ReadPerson(p, default)] && rest == Cursor(tail)
  {
    hide Spec, Quoted, IsPhrase, Unspaced, Ends, Closes, EndsPhrase, Phrase, Core, Unquoted, PersonText;
    ghost var good := Unspaced(string0) == Unspaced(PersonText(p) + tail) && Separates(tail);
    ghost var x, w, behind := "", "", "";
    if good {
      x, w, behind := PersonShape(p, tail);
    }
    adrs, rest := [], None;
    var s := SkipWs(string0);
    if s == "" {
      return;
    }
    if s[0] == '<' {
      adrs, rest := ParseRouteaddr(s, default, p, tail);
      return;
    }
    var end := ParsePhrase(s, x, w, behind);
    if end == None {
      return;
    }
    if good {
      Behind(x, behind);
    }
    adrs, rest := ParseRouteaddr(end.value, default, p, tail);
    if adrs != [] {
      adrs := [adrs[0].(personal := Some(Unquoted(s[..|s| - |end.value|])))] + adrs[1..];
    } else {
      var adr;
      adr, rest := ParseAddrspec(s, default, p, tail);
      adrs := if adr == None then [] else [adr.value];
    }
  }

  /** How a written address is met: with a name, `x`; without, the first word of
      the mailbox; or nothing before the '<'. */
  lemma PersonShape(p: Person, tail: string) returns (x: string, w: string, behind: string)
    requires Separates(tail)
    ensures var t, route := Unspaced(PersonText(p) + tail), "<" + (Spec(p.mailbox, p.host) + (">" + tail));
      && t != "" && Solid(t) && Unspaced(t) == t
      && (x == "" ==> t == route && NameOf(p.personal) == None)
      && (x != "" ==> t == x + behind && t[0] != '<' && t[0] != ':' && IsPhrase(x, w) && EndsPhrase(behind))
      && (x != "" && NameOf(p.personal) == None ==>
            && t == Spec(p.mailbox, p.host) + tail
            && (behind == "" || (Solid(behind) && behind[0] != '<' && behind[0] != ':')))
      && (x != "" && NameOf(p.personal).Some? ==> Unspaced(behind) == route && NameOf(p.personal) == Some(Unquoted(x)))
    ensures Closes(tail)
  {
    if p.personal.Some? && p.personal.value != "" {
      x, w, behind := NamedShape(p, tail);
    } else {
      x, w, behind := Word(p.mailbox), p.mailbox, (if Bare(p.host) then "" else "@" + Word(p.host)) + tail;
      SpecRead(p, tail);
      WordRead(p.mailbox);
      WordSolid(x, w, behind);
      WordIsPhrase(p.mailbox);
      UnspacedSolid(x + behind);
    }
  }

  lemma {:induction false} WordIsPhrase(w: string)
    ensures IsPhrase(Word(w), w)
  {
    if Word(w) != Quoted(w) {
      assert !WSpecial(w[0]) && !WSpecial(w[|w| - 1]);
      assert !Has(w, Stops);
    }
  }

  lemma NamedShape(p: Person, tail: string) returns (x: string, w: string, behind: string)
    requires Separates(tail) && p.personal.Some? && p.personal.value != ""
    ensures var t, route := Unspaced(PersonText(p) + tail), "<" + (Spec(p.mailbox, p.host) + (">" + tail));
      && t != "" && Solid(t) && Unspaced(t) == t
      && (x == "" ==> t == route && NameOf(p.personal) == None)
      && (x != "" ==> t == x + behind && t[0] != '<' && t[0] != ':' && IsPhrase(x, w) && EndsPhrase(behind))
      && (x != "" ==> Unspaced(behind) == route && NameOf(p.personal) == Some(Unquoted(x)))
  {
    hide Phrase, Spec, Core, IsPhrase, Unquoted;
    var name, spec := p.personal.value, Spec(p.mailbox, p.host);
    var route := "<" + (spec + (">" + tail));
    var after := " " + route;
    assert PersonText(p) + tail == Phrase(name) + after;
    assert after[1..] == route;
    UnspacedSolid(route);
    var gap;
    x, gap := PhraseShape(name, after);
    w, behind := Core(name), gap + after;
    if x != "" {
      UnspacedSolid(x + behind);
    }
  }

  // ---- Groups and lists ----

  const INVALIDINGROUP: Address := Address(None, Some("INVALID_ADDRESS_IN_GROUP"), Some(ERRHOST))
  const UNEXPECTEDINGROUP: Address := Address(None, Some("UNEXPECTED_DATA_AFTER_ADDRESS_IN_GROUP"), Some(ERRHOST))
  const INVALID: Address := Address(None, Some("INVALID_ADDRESS"), Some(ERRHOST))
  const UNEXPECTED: Address := Address(None, Some("UNEXPECTED_DATA_AFTER_ADDRESS"), Some(ERRHOST))

  function ReadAll(ps: seq<Person>, default: string): (r: seq<Address>) {
    if ps == [] then [] else [ReadPerson(ps[0], default)] + ReadAll(ps[1..], default)
  }

  function ReadElements(i: Item, default: string): seq<Address> {
    match i
    case One(p) => [ReadPerson(p, default)]
    case Group(name, ps) => [Address(None, Some(Core(name)), None)] + (ReadAll(ps, default) + [END])
  }

  function ReadList(items: seq<Item>, default: string): seq<Address> {
    if items == [] then [] else ReadElements(items[0], default) + ReadList(items[1..], default)
  }

  /** The cursor is at the item, up to blanks. */
  predicate At(s: string, i: Item, tail: string) {
    Unspaced(s) == Unspaced(ItemText(i) + tail) && Separates(tail)
  }

  /** Where an item stands, there is something, and it is no delimiter. */
  lemma ItemSolid(i: Item, tail: string)
    requires Separates(tail)
    ensures var t := Unspaced(ItemText(i) + tail); t != "" && Solid(t) && Unspaced(t) == t && t[0] != ',' && t[0] != ';'
  {
    match i
    case One(p) =>
      hide PersonText;
      var x, w, behind := PersonShape(p, tail);
      if x != "" {
        PhraseStart(x, w);
      }
    case Group(name, ps) =>
      hide Phrase, Core, Unquoted;
      var after := ": " + (MembersText(ps) + ";") + tail;
      Assoc(Phrase(name), ": " + (MembersText(ps) + ";"), tail);
      UnspacedSolid(after);
      var x, gap := PhraseShape(name, after);
      if x != "" {
        PhraseStart(x, Core(name));
        UnspacedSolid(x + (gap + after));
      }
  }

  lemma {:induction false} PhraseStart(x: string, p: string)
    requires IsPhrase(x, p)
    ensures x != "" && x[0] != ',' && x[0] != ';' && x[0] != ' '
  {
    if x != Quoted(p) {
      NotSpecialAt(p, 0);
    }
  }

  /** What follows a member of a group. */
  function AfterMember(ps: seq<Person>, tail: string): string {
    if ps == [] then ";" + tail else ", " + (MembersText(ps) + (";" + tail))
  }

  lemma FirstMember(ps: seq<Person>, tail: string)
    requires ps != []
    ensures MembersText(ps) + (";" + tail) == PersonText(ps[0]) + AfterMember(ps[1..], tail)
    ensures Separates(AfterMember(ps[1..], tail))
  {
    hide PersonText;
    var more := MembersText(ps[1..]);
    if |ps| > 1 {
      assert PersonText(ps[0]) + (", " + more) + (";" + tail) == PersonText(ps[0]) + (", " + (more + (";" + tail)));
    } else {
      assert more == "" && PersonText(ps[0]) + ("" + more) == PersonText(ps[0]);
    }
  }

  /** The cursor in a group before the members `ps`. */
  predicate InGroup(cur: Option<string>, ps: seq<Person>, tail: string) {
    && cur.Some?
    && (if ps == [] then cur.value == ";" + tail
        else cur.value != "" && cur.value[0] != ';' && Unspaced(cur.value) == Unspaced(MembersText(ps) + (";" + tail)))
  }

  /** rfc822_parse_address: no address is an error. */
  method ParseAddress(string0: string, default: string, depth: nat, ghost i: Item, ghost tail: string)
    returns (adrs: seq<Address>, rest: Option<string>)
    ensures adrs != [] && rest.Some? ==> |rest.value| < |string0|
    ensures At(string0, i, tail) && (depth == 0 || i.One?) ==>
      adrs == ReadElements(i, default) && (if tail == "" then rest == None || rest == Some("") else rest == Some(tail))
    decreases |string0|, 2
  {
    hide Unspaced, Solid, PersonText, ItemText;
    ghost var good := At(string0, i, tail) && (depth == 0 || i.One?);
    if good {
      ItemSolid(i, tail);
    }
    adrs, rest := [], None;
    var s := SkipWs(string0);
    if s == "" {
      return;
    }
    adrs, rest := ParseGroup(s, default, depth, i, tail);
    if adrs == [] {
      ghost var p := if i.One? then i.person else Person(None, "", "");
      if good {
        ElementsOf(i, default);
        if i.One? {
          OneText(i.person);
        }
      }
      adrs, rest := ParseMailbox(s, default, p, tail);
    }
  }

  lemma OneText(p: Person)
    ensures ItemText(One(p)) == PersonText(p)
  {
  }

  lemma ElementsOf(i: Item, default: string)
    ensures ReadElements(i, default) != []
    ensures i.One? ==> ReadElements(i, default) == [ReadPerson(i.person, default)]
  {
  }

  /** rfc822_parse_group: nothing if there is no group. */
  method ParseGroup(string0: string, default: string, depth: nat, ghost i: Item, ghost tail: string)
    returns (adrs: seq<Address>, rest: Option<string>)
    ensures adrs != [] && rest.Some? ==> |rest.value| < |string0|
    ensures At(string0, i, tail) && i.Group? && depth == 0 ==> adrs == ReadElements(i, default) && rest == Some(tail)
    ensures At(string0, i, tail) && i.One? ==> adrs == []
    decreases |string0|, 1
  {
    adrs, rest := [], None;
    if depth > MAXGROUPDEPTH {
      return;
    }
    ghost var good := At(string0, i, tail) && i.Group? && depth == 0;
    var name, after := GroupName(string0, i, tail);
    if after == None {
      return;
    }
    adrs := [Address(None, Some(name), None)];
    var members;
    members, rest := ParseMembers(after.value, default, depth, if i.Group? then i.members else [], tail);
    adrs := adrs + (members + [END]);
  }

  /** The name of a group and the cursor before its members, if there is a group. */
  method GroupName(string0: string, ghost i: Item, ghost tail: string) returns (name: string, after: Option<string>)
    ensures after.Some? ==> |after.value| < |string0|
    ensures At(string0, i, tail) && i.Group? ==> name == Core(i.name) && InGroup(after, i.members, tail)
    ensures At(string0, i, tail) && i.One? ==> after == None
  {
    hide Unspaced, Solid, PersonText, ItemText, Ends, IsPhrase, Core, Unquoted, InGroup;
    ghost var good := At(string0, i, tail);
    ghost var x, w, behind, colon := "", "", "", "";
    if good {
      ItemSolid(i, tail);
      if i.One? {
        x, w, behind := OneShape(i.person, tail);
      } else {
        x, w, behind, colon := GroupShape(i.name, i.members, tail);
      }
    }
    name, after := "", None;
    var s := SkipWs(string0);
    if s == "" {
      return;
    }
    var p := Some(s);
    if s[0] != ':' {
      p := ParsePhrase(s, x, w, behind);
      if p == None {
        return;
      }
    }
    var d := SkipWs(p.value);
    if d == "" || d[0] != ':' {
      return;
    }
    if good {
      Behind(x, behind);
      assert s[..0] == "";
    }
    name := Unquoted(s[..|s| - |p.value|]);
    var a := SkipWs(d[1..]);
    after := Some(a);
  }

  /** No colon comes after the phrase of a written address. */
  lemma OneShape(p: Person, tail: string) returns (x: string, w: string, behind: string)
    requires Separates(tail)
    ensures var t := Unspaced(ItemText(One(p)) + tail);
      && t != "" && t[0] != ':'
      && (x == "" ==> Ends(t))
      && (x != "" ==>
            && t == x + behind && IsPhrase(x, w) && EndsPhrase(behind)
            && (Unspaced(behind) == "" || Unspaced(behind)[0] != ':'))
  {
    hide PersonText;
    x, w, behind := PersonShape(p, tail);
    if x != "" && NameOf(p.personal) == None && behind != "" {
      UnspacedSolid(behind);
    }
  }

  /** The phrase of a written group, then the colon. */
  lemma GroupShape(name: string, ps: seq<Person>, tail: string)
    returns (x: string, w: string, behind: string, colon: string)
    requires Separates(tail)
    ensures var t := Unspaced(ItemText(Group(name, ps)) + tail);
      && colon == ": " + (MembersText(ps) + (";" + tail)) && Solid(colon)
      && (x == "" ==> t == colon && Core(name) == "" && Unspaced(t) == t)
      && (x != "" ==>
            && t == x + behind && t[0] != ':' && IsPhrase(x, w) && Unquoted(x) == Core(name)
            && EndsPhrase(behind) && Unspaced(behind) == colon)
    ensures InGroup(Some(Unspaced(colon[1..])), ps, tail) && Solid(Unspaced(colon[1..])) && Unquoted("") == ""
  {
    assert Unquoted("") == "";
    colon := ": " + (MembersText(ps) + (";" + tail));
    UnspacedSolid(colon);
    hide Phrase, Core, Unquoted, MembersText, IsPhrase, Unspaced, ItemText;
    GroupText(name, ps, tail);
    var gap;
    x, gap := PhraseShape(name, colon);
    w, behind := Core(name), gap + colon;
    MembersStart(ps, tail);
    ColonRest(MembersText(ps) + (";" + tail));
  }

  lemma CommaRest(t: string)
    ensures (", " + t)[1..] == " " + t
  {
  }

  lemma ColonRest(t: string)
    ensures (": " + t)[1..] == " " + t
  {
  }

  lemma {:induction false} GroupText(name: string, ps: seq<Person>, tail: string)
    ensures ItemText(Group(name, ps)) + tail == Phrase(name) + (": " + (MembersText(ps) + (";" + tail)))
  {
    hide Phrase, MembersText;
    Assoc(MembersText(ps), ";", tail);
    Assoc(": ", MembersText(ps) + ";", tail);
    Assoc(Phrase(name), ": " + (MembersText(ps) + ";"), tail);
  }

  lemma MembersStart(ps: seq<Person>, tail: string)
    requires Separates(tail)
    ensures var u := Unspaced(" " + (MembersText(ps) + (";" + tail))); InGroup(Some(u), ps, tail) && Solid(u)
    ensures ps != [] ==> InGroup(Some(" " + (MembersText(ps) + (";" + tail))), ps, tail)
  {
    hide PersonText;
    var t := MembersText(ps) + (";" + tail);
    assert (" " + t)[1..] == t;
    if ps == [] {
      assert t == ";" + tail;
    } else {
      FirstMember(ps, tail);
      ItemSolid(One(ps[0]), AfterMember(ps[1..], tail));
    }
  }

  /** The members up to the ';', and the cursor behind it. */
  method ParseMembers(s: string, default: string, depth: nat, ghost ps: seq<Person>, ghost tail: string)
    returns (adrs: seq<Address>, rest: Option<string>)
    requires depth <= MAXGROUPDEPTH
    ensures rest.Some? ==> |rest.value| <= |s|
    ensures InGroup(Some(s), ps, tail) && Separates(tail) ==> adrs == ReadAll(ps, default) && rest == Some(tail)
    decreases |s|, 3
  {
    hide Unspaced, Solid, PersonText, MembersText, InGroup, ReadAll;
    ghost var good := InGroup(Some(s), ps, tail) && Separates(tail);
    ghost var left := ps;
    var cur := Some(s);
    adrs := [];
    while cur.Some? && cur.value != "" && cur.value[0] != ';'
      invariant cur.Some? ==> |cur.value| <= |s|
      invariant good ==> cur.Some? && InGroup(cur, left, tail) && adrs + ReadAll(left, default) == ReadAll(ps, default)
      decreases if cur.Some? then |cur.value| + 1 else 0
    {
      if good {
        NextMember(cur, left, tail, default);
        AfterNext(left[1..], tail);
        ElementsOf(One(left[0]), default);
      }
      ghost var p := if left == [] then Person(None, "", "") else left[0];
      ghost var more := if left == [] then [] else left[1..];
      var adr, end := ParseAddress(cur.value, default, depth + 1, One(p), AfterMember(more, tail));
      if adr == [] {
        adrs, cur := adrs + [INVALIDINGROUP], None;
      } else {
        assert good ==> adrs + adr + ReadAll(more, default) == adrs + (adr + ReadAll(more, default));
        adrs, cur := adrs + adr, end;
        if cur.Some? {
          var u := SkipWs(cur.value);
          if u == "" || u[0] == ';' {
            cur := Some(u);
          } else if u[0] == ',' {
            cur := Some(u[1..]);
          } else {
            adrs, cur := adrs + [UNEXPECTEDINGROUP], None;
          }
        }
        left := more;
      }
    }
    if good {
      GroupEnd(cur, left, tail, default);
    }
    if cur.Some? {
      var t := cur.value;
      if t != "" && t[0] == ';' {
        t := t[1..];
      }
      t := SkipWs(t);
      cur := Some(t);
    }
    rest := cur;
  }

  lemma NextMember(cur: Option<string>, ps: seq<Person>, tail: string, default: string)
    requires InGroup(cur, ps, tail) && cur.value != "" && cur.value[0] != ';'
    ensures ps != [] && At(cur.value, One(ps[0]), AfterMember(ps[1..], tail)) && AfterMember(ps[1..], tail) != ""
    ensures ReadAll(ps, default) == ReadElements(One(ps[0]), default) + ReadAll(ps[1..], default)
  {
    hide PersonText, Unspaced;
    FirstMember(ps, tail);
  }

  lemma {:induction false} AfterNext(ps: seq<Person>, tail: string)
    requires Separates(tail)
    ensures var t := AfterMember(ps, tail);
      && t != "" && Solid(t) && Unspaced(t) == t
      && (if ps == [] then t[0] == ';' && InGroup(Some(t), ps, tail)
          else t[0] == ',' && InGroup(Some(t[1..]), ps, tail))
  {
    hide Unspaced, MembersText;
    UnspacedSolid(AfterMember(ps, tail));
    if ps != [] {
      MembersStart(ps, tail);
      CommaRest(MembersText(ps) + (";" + tail));
    }
  }

  lemma {:induction false} GroupEnd(cur: Option<string>, ps: seq<Person>, tail: string, default: string)
    requires InGroup(cur, ps, tail) && (cur.value == "" || cur.value[0] == ';') && Separates(tail)
    ensures ps == [] && cur.value == ";" + tail && ReadAll(ps, default) == [] && Solid(tail) && Unspaced(tail) == tail
  {
    UnspacedSolid(tail);
  }

  /** The cursor in a list before the items. */
  predicate InList(cur: Option<string>, items: seq<Item>) {
    if cur == None then items == []
    else items != [] && cur.value != "" && cur.value[0] != ',' && Unspaced(cur.value) == Unspaced(ListText(items))
  }

  /** What follows an item of a list. */
  function AfterItem(items: seq<Item>): string {
    if items == [] then "" else ", " + ListText(items)
  }

  lemma {:induction false} FirstItem(items: seq<Item>, default: string)
    requires items != []
    ensures ListText(items) == ItemText(items[0]) + AfterItem(items[1..]) && Separates(AfterItem(items[1..]))
    ensures ReadList(items, default) == ReadElements(items[0], default) + ReadList(items[1..], default)
  {
    hide ItemText;
    var more := ListText(items[1..]);
    if |items| == 1 {
      assert more == "" && "" + more == "";
    }
  }

  lemma ListStart(items: seq<Item>)
    ensures items != [] ==> InList(Some(" " + ListText(items)), items)
    ensures items != [] ==> var u := Unspaced(ListText(items)); InList(Some(u), items) && Solid(u)
    ensures items == [] ==> ListText(items) == ""
  {
    assert (" " + ListText(items))[1..] == ListText(items);
    if items != [] {
      FirstItem(items, "");
      ItemSolid(items[0], AfterItem(items[1..]));
    }
  }

  lemma {:induction false} AfterItemFacts(items: seq<Item>)
    ensures var t := AfterItem(items);
      && Solid(t) && Unspaced(t) == t
      && (items != [] ==> t != "" && t[0] == ',' && InList(Some(t[1..]), items))
  {
    UnspacedSolid(AfterItem(items));
    hide Unspaced, ListText;
    if items != [] {
      ListStart(items);
      CommaRest(ListText(items));
    }
  }

  /** rfc822_parse_adrlist, appending to a list: written addresses and groups are read
      as they were, but for their defaults. */
  method ParseAdrlist(lst: seq<Address>, string0: string, default: string, ghost items: seq<Item>)
    returns (list: seq<Address>)
    ensures string0 == ListText(items) ==> list == lst + ReadList(items, default)
  {
    hide Unspaced, Solid, ItemText, ListText, ReadElements, ReadList, Separates;
    ghost var good, left := string0 == ListText(items), items;
    ListStart(items);
    ReadNone(default);
    var s := SkipWs(string0);
    list := lst;
    if s == "" {
      if good {
        EmptyList(items);
      }
      assert lst + [] == lst;
      return;
    }
    var cur := Some(s);
    while cur.Some?
      invariant good ==> InList(cur, left) && list + ReadList(left, default) == lst + ReadList(items, default)
      decreases if cur.Some? then |cur.value| + 1 else 0
    {
      var t := cur.value;
      while t != "" && t[0] == ','
        invariant |t| <= |cur.value| && (good ==> t == cur.value)
        decreases |t|
      {
        t := SkipWs(t[1..]);
      }
      if t == "" {
        cur := None;
      } else {
        ghost var i := if left == [] then One(Person(None, "", "")) else left[0];
        ghost var more := if left == [] then [] else left[1..];
        if good {
          FirstItem(left, default);
          AfterItemFacts(more);
        }
        var adrs, end := ParseAddress(t, default, 0, i, AfterItem(more));
        if adrs == [] {
          list, cur := list + [INVALID], None;
          if good {
            ElementsOf(i, default);
          }
        } else {
          assert good ==> list + adrs + ReadList(more, default) == list + (adrs + ReadList(more, default));
          list, cur := list + adrs, end;
          if cur.Some? {
            var u := SkipWs(cur.value);
            if u == "" {
              cur := None;
            } else if u[0] == ',' {
              cur := Some(u[1..]);
            } else {
              list, cur := list + [UNEXPECTED], None;
            }
          }
          left := more;
        }
      }
    }
    assert list + [] == list;
  }

  lemma ReadNone(default: string)
    ensures ReadList([], default) == []
  {
  }

  lemma EmptyList(items: seq<Item>)
    requires Solid(Unspaced(ListText(items))) ==> Unspaced(ListText(items)) == ""
    ensures items == []
  {
    ListStart(items);
  }

  // ---- Round trip ----

  /** A name that is not lost or trimmed. */
  predicate NameFine(n: string) {
    n == "" || Has(n, RSpecial) || (n[0] != ' ' && n[|n| - 1] != ' ')
  }

  predicate PersonFine(p: Person, default: string) {
    (p.personal.Some? ==> p.personal.value != "" && NameFine(p.personal.value)) && (Bare(p.host) ==> p.host == default)
  }

  predicate ItemFine(i: Item, default: string) {
    match i
    case One(p) => PersonFine(p, default)
    case Group(name, ps) => NameFine(name) && forall p <- ps :: PersonFine(p, default)
  }

  lemma {:induction false} CoreFine(n: string)
    ensures Core(n) == n <==> NameFine(n)
    ensures n != "" && NameFine(n) ==> Core(n) != ""
  {
    if n != "" && !Has(n, RSpecial) {
      if n[0] == ' ' {
        assert |Core(n)| < |n|;
      } else if n[|n| - 1] == ' ' {
        assert Core(n) == TrimEnd(n);
      }
    }
  }

  lemma {:induction false} PersonSame(p: Person, default: string)
    ensures ReadPerson(p, default) == Plain(p) <==> PersonFine(p, default)
  {
    if p.personal.Some? {
      CoreFine(p.personal.value);
    }
  }

  lemma {:induction false} MembersSame(ps: seq<Person>, default: string)
    ensures |ReadAll(ps, default)| == |ps|
    ensures ReadAll(ps, default) == Plains(ps) <==> forall p <- ps :: PersonFine(p, default)
  {
    if ps != [] {
      MembersSame(ps[1..], default);
      PersonSame(ps[0], default);
      hide ReadPerson, PersonFine, Plain;
      SplitEqual([ReadPerson(ps[0], default)], ReadAll(ps[1..], default), [Plain(ps[0])], Plains(ps[1..]));
      assert forall p :: p in ps <==> p == ps[0] || p in ps[1..];
    }
  }

  lemma SplitEqual(a: seq<Address>, b: seq<Address>, c: seq<Address>, d: seq<Address>)
    requires |a| == |c|
    ensures a + b == c + d <==> a == c && b == d
  {
    if a + b == c + d {
      assert a == (a + b)[..|a|] && c == (c + d)[..|c|];
      assert b == (a + b)[|a|..] && d == (c + d)[|c|..];
    }
  }

  lemma ItemSame(i: Item, default: string)
    ensures |ReadElements(i, default)| == |Elements(i)|
    ensures ReadElements(i, default) == Elements(i) <==> ItemFine(i, default)
  {
    match i
    case One(p) =>
      PersonSame(p, default);
    case Group(name, ps) =>
      MembersSame(ps, default);
      CoreFine(name);
      hide ReadAll, Plains, Core;
      SplitEqual(ReadAll(ps, default), [END], Plains(ps), [END]);
      var begun, begun' := [Address(None, Some(Core(name)), None)], [Address(None, Some(name), None)];
      SplitEqual(begun, ReadAll(ps, default) + [END], begun', Plains(ps) + [END]);
  }

  /** Exactly the lists that come back as they were. */
  lemma {:induction false} ListSame(items: seq<Item>, default: string)
    ensures ReadList(items, default) == Flat(items) <==> forall i <- items :: ItemFine(i, default)
  {
    if items != [] {
      ListSame(items[1..], default);
      ItemSame(items[0], default);
      hide ReadElements, Elements, ItemFine;
      SplitEqual(ReadElements(items[0], default), ReadList(items[1..], default), Elements(items[0]), Flat(items[1..]));
      assert forall i :: i in items <==> i == items[0] || i in items[1..];
    }
  }

  /** The blank in front of a name is lost. */
  lemma BlankLost()
    ensures var items := [One(Person(Some(" x"), "box", "host"))];
      ReadList(items, "host") != Flat(items)
  {
    var items := [One(Person(Some(" x"), "box", "host"))];
    NotSpecial();
    assert !NameFine(" x");
    assert items[0] in items && !ItemFine(items[0], "host");
    ListSame(items, "host");
  }

  lemma {:induction false} NotSpecial()
    ensures !Has(" x", RSpecial)
  {
    assert !RSpecial(' ') && !RSpecial('x');
  }

  /** A list that is printed and then parsed: it comes back but for blanks around
      plain names, empty names and domains that are not printed, and unchanged
      exactly if there are none of those. */
  method PrintAndParse(items: seq<Item>, default: string) returns (list: seq<Address>)
    ensures list == ReadList(items, default)
    ensures list == Flat(items) <==> forall i <- items :: ItemFine(i, default)
  {
    hide Out, ListText, ReadList, Flat, ItemFine;
    FlatOut(items);
    ListSame(items, default);
    var out := new Output();
    out.PutList(Flat(items));
    assert "" + ListText(items) == ListText(items);
    list := ParseAdrlist([], out.text, default, items);
    assert [] + ReadList(items, default) == ReadList(items, default);
  }
}
