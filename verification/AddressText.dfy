/** Address lists and how they are written (RFC 2822, section 3.4). */
module AddressText {
  import opened Sequences
  import opened Messages

  /** An element of an address list; a group starts with its name alone, and ends
      with an element of nothing. */
  datatype Address = Address(personal: Option<string>, mailbox: Option<string>, host: Option<string>)

  datatype Person = Person(personal: Option<string>, mailbox: string, host: string)

  datatype Item = One(person: Person) | Group(name: string, members: seq<Person>)

  // ---- Characters ----

  predicate Control(c: char) {
    1 as char <= c <= 31 as char || c == 127 as char
  }

  predicate Bracket(c: char) {
    || c == '(' || c == ')' || c == '<' || c == '>' || c == '@'
    || c == ',' || c == ';' || c == ':' || c == '\\' || c == '"'
    || c == '[' || c == ']'
  }

  /** What ends a word. */
  predicate WSpecial(c: char) {
    c == ' ' || Bracket(c) || Control(c)
  }

  /** What a phrase is quoted for. */
  predicate RSpecial(c: char) {
    c == '.' || Bracket(c) || Control(c)
  }

  predicate Has(s: string, p: char -> bool) {
    exists i :: 0 <= i < |s| && p(s[i])
  }

  predicate TwoDots(s: string) {
    exists i :: 0 <= i < |s| - 1 && s[i] == '.' && s[i + 1] == '.'
  }

  // ---- Quoting ----

  predicate Special(c: char) {
    c == '"' || c == '\\'
  }

  function Escaped(s: string): string {
    if s == "" then "" else (if Special(s[0]) then "\\" else "") + ([s[0]] + Escaped(s[1..]))
  }

  function Quoted(s: string): string {
    "\"" + (Escaped(s) + "\"")
  }

  /** rfc822_quote: takes the quoting away. */
  function Unquoted(s: string): string {
    if s == "" then ""
    else if s[0] == '"' then Unquoted(s[1..])
    else if s[0] == '\\' then if |s| == 1 then "" else [s[1]] + Unquoted(s[2..])
    else [s[0]] + Unquoted(s[1..])
  }

  lemma {:induction false} UnquotePlain(s: string)
    requires !Has(s, Special)
    ensures Unquoted(s) == s
  {
    if s != "" {
      assert !Special(s[0]);
      forall i | 0 <= i < |s[1..]|
        ensures !Special(s[1..][i])
      {
        assert s[1..][i] == s[i + 1];
      }
      UnquotePlain(s[1..]);
    }
  }

  lemma {:induction false} UnquoteEscaped(s: string)
    ensures Unquoted(Escaped(s) + "\"") == s
  {
    if s == "" {
      assert Escaped(s) + "\"" == "\"";
    } else {
      UnquoteEscaped(s[1..]);
      var rest := Escaped(s[1..]) + "\"";
      if Special(s[0]) {
        assert Escaped(s) + "\"" == "\\" + ([s[0]] + rest);
        assert ("\\" + ([s[0]] + rest))[2..] == rest;
      } else {
        assert "" + ([s[0]] + Escaped(s[1..])) == [s[0]] + Escaped(s[1..]);
        assert Escaped(s) + "\"" == [s[0]] + rest;
        assert ([s[0]] + rest)[1..] == rest;
      }
    }
  }

  /** Quoting is undone. */
  lemma UnquoteQuoted(s: string)
    ensures Unquoted(Quoted(s)) == s
  {
    UnquoteEscaped(s);
    assert Quoted(s)[1..] == Escaped(s) + "\"";
  }

  // ---- The text of a list ----

  /** Part of a mailbox or a domain: a dot-atom, or quoted. */
  function Word(w: string): string {
    if w == "" || Has(w, WSpecial) || w[0] == '.' || TwoDots(w) || w[|w| - 1] == '.' then Quoted(w) else w
  }

  function Phrase(p: string): string {
    if p == "" || Has(p, RSpecial) then Quoted(p) else p
  }

  /** The domain is left out if it starts with '@'. */
  predicate Bare(host: string) {
    host != "" && host[0] == '@'
  }

  function Spec(mailbox: string, host: string): string {
    Word(mailbox) + if Bare(host) then "" else "@" + Word(host)
  }

  function PersonText(p: Person): string {
    if p.personal.Some? && p.personal.value != "" then
      Phrase(p.personal.value) + (" <" + (Spec(p.mailbox, p.host) + ">"))
    else Spec(p.mailbox, p.host)
  }

  function MembersText(ps: seq<Person>): string {
    if ps == [] then "" else PersonText(ps[0]) + ((if |ps| > 1 then ", " else "") + MembersText(ps[1..]))
  }

  function ItemText(i: Item): string {
    match i
    case One(p) => PersonText(p)
    case Group(name, ps) => Phrase(name) + (": " + (MembersText(ps) + ";"))
  }

  function ListText(items: seq<Item>): string {
    if items == [] then "" else ItemText(items[0]) + ((if |items| > 1 then ", " else "") + ListText(items[1..]))
  }

  /** The specials of rfc822.c. */
  lemma SpecialsAre(c: char)
    ensures WSpecial(c) <==> c in " ()<>@,;:" + "\\\"[]" || 1 <= c as nat <= 31 || c as nat == 127
    ensures RSpecial(c) <==> c in "()<>@,;:" + "\\\"[]." || 1 <= c as nat <= 31 || c as nat == 127
  {
    var s, t := "()<>@,;:", "\\\"[]";
    assert c in " " + s + t <==> c == ' ' || c in s + t;
    assert s[0] == '(' && s[1] == ')' && s[2] == '<' && s[3] == '>' && s[4] == '@' && s[5] == ',';
    assert s[6] == ';' && s[7] == ':';
    assert t[0] == '\\' && t[1] == '"' && t[2] == '[' && t[3] == ']';
  }

  /** Addresses and groups of plain words as text. */
  lemma PlainSpelled(n: string, m: string, h: string, ps: seq<Person>, p: Person, q: Person, i: Item, j: Item)
    requires n != "" && Phrase(n) == n && Word(m) == m && Word(h) == h && !Bare(h)
    ensures PersonText(Person(Some(n), m, h)) == n + (" <" + (m + ("@" + h) + ">"))
    ensures PersonText(Person(None, m, h)) == m + ("@" + h) == PersonText(Person(Some(""), m, h))
    ensures MembersText([]) == "" && MembersText([p]) == PersonText(p)
    ensures MembersText([p, q]) == PersonText(p) + (", " + PersonText(q))
    ensures ItemText(Group(n, ps)) == n + (": " + (MembersText(ps) + ";"))
    ensures ListText([i, j]) == ItemText(i) + (", " + ItemText(j))
  {
    hide Phrase, Word, PersonText, ItemText;
    assert [p, q][1..] == [q] && [q][1..] == [] && [p][1..] == [];
    assert [i, j][1..] == [j] && [j][1..] == [];
    PersonSpelled(n, m, h);
    GroupSpelled(n, ps);
    NoneAfter(PersonText(p));
    NoneAfter(PersonText(q));
    NoneAfter(ItemText(j));
    assert ListText([]) == "" && ListText([j]) == ItemText(j);
  }

  lemma NoneAfter(s: string)
    ensures s + ("" + "") == s
  {
  }

  lemma PersonSpelled(n: string, m: string, h: string)
    requires n != "" && Phrase(n) == n && Word(m) == m && Word(h) == h && !Bare(h)
    ensures PersonText(Person(Some(n), m, h)) == n + (" <" + (m + ("@" + h) + ">"))
    ensures PersonText(Person(None, m, h)) == m + ("@" + h) == PersonText(Person(Some(""), m, h))
  {
    hide Phrase, Word;
  }

  lemma GroupSpelled(n: string, ps: seq<Person>)
    requires Phrase(n) == n
    ensures ItemText(Group(n, ps)) == n + (": " + (MembersText(ps) + ";"))
  {
    hide Phrase, MembersText;
  }

  /** What is in quotes: a backslash goes before a quote and before a backslash. */
  lemma {:induction false} QuotedSpelled(s: string, c: char)
    ensures Quoted("") == "\"\""
    ensures Quoted(s + [c]) ==
      Quoted(s)[..|Quoted(s)| - 1] + (if c == '"' || c == '\\' then "\\" else "") + [c] + "\""
  {
    EscapedMore(s, c);
    hide Escaped, Special;
    assert Quoted(s)[..|Quoted(s)| - 1] == "\"" + Escaped(s);
  }

  lemma {:induction false} EscapedMore(s: string, c: char)
    ensures Escaped(s + [c]) == Escaped(s) + (if c == '"' || c == '\\' then "\\" else "") + [c] && Escaped("") == ""
  {
    if s != "" {
      assert (s + [c])[1..] == s[1..] + [c];
      EscapedMore(s[1..], c);
    } else {
      assert s + [c] == [c] && [c][1..] == "";
    }
  }

  // ---- The elements of a list ----

  function Plain(p: Person): Address {
    Address(p.personal, Some(p.mailbox), Some(p.host))
  }

  function Plains(ps: seq<Person>): (r: seq<Address>)
    ensures |r| == |ps|
  {
    if ps == [] then [] else [Plain(ps[0])] + Plains(ps[1..])
  }

  const END: Address := Address(None, None, None)

  function Elements(i: Item): seq<Address> {
    match i
    case One(p) => [Plain(p)]
    case Group(name, ps) => [Address(None, Some(name), None)] + (Plains(ps) + [END])
  }

  function Flat(items: seq<Item>): seq<Address> {
    if items == [] then [] else Elements(items[0]) + Flat(items[1..])
  }

  /** No domain without a mailbox. */
  predicate Sound(list: seq<Address>) {
    forall i | 0 <= i < |list| :: list[i].host.Some? ==> list[i].mailbox.Some?
  }

  function AddressOut(a: Address): string
    requires a.host.Some? && a.mailbox.Some?
  {
    PersonText(Person(a.personal, a.mailbox.value, a.host.value))
  }

  /** A comma if an address or a group follows. */
  function Comma(list: seq<Address>): string {
    if list != [] && list[0].mailbox.Some? then ", " else ""
  }

  /** What is written for any list inside of `n` groups. */
  function Out(list: seq<Address>, n: nat): string
    requires Sound(list)
  {
    if list == [] then ""
    else
      var a, rest := list[0], list[1..];
      if a.host.Some? then AddressOut(a) + (Comma(rest) + Out(rest, n))
      else if a.mailbox.Some? then Phrase(a.mailbox.value) + (": " + Out(rest, n + 1))
      else if n > 0 then ";" + ((if n == 1 then Comma(rest) else "") + Out(rest, n - 1))
      else Out(rest, n)
  }

  lemma {:induction false} FlatSound(items: seq<Item>)
    ensures Sound(Flat(items)) && Comma(Flat(items)) == if items == [] then "" else ", "
  {
    if items != [] {
      FlatSound(items[1..]);
      if items[0].Group? {
        PlainsSound(items[0].members);
      }
    }
  }

  lemma {:induction false} PlainsSound(ps: seq<Person>)
    ensures forall i | 0 <= i < |ps| :: Plains(ps)[i] == Plain(ps[i])
  {
    if ps != [] {
      PlainsSound(ps[1..]);
    }
  }

  lemma {:induction false} OutFirst(a: Address, rest: seq<Address>, n: nat)
    requires Sound(rest) && (a.host.Some? ==> a.mailbox.Some?)
    ensures Sound([a] + rest) && Comma([a] + rest) == if a.mailbox.Some? then ", " else ""
    ensures Out([a] + rest, n) ==
      if a.host.Some? then AddressOut(a) + (Comma(rest) + Out(rest, n))
      else if a.mailbox.Some? then Phrase(a.mailbox.value) + (": " + Out(rest, n + 1))
      else if n > 0 then ";" + ((if n == 1 then Comma(rest) else "") + Out(rest, n - 1))
      else Out(rest, n)
  {
    assert ([a] + rest)[1..] == rest;
  }

  lemma Four(a: string, b: string, c: string, d: string)
    ensures a + (b + (c + d)) == a + (b + c) + d
  {
  }

  lemma {:induction false} MembersOut(ps: seq<Person>, rest: seq<Address>)
    requires Sound(rest)
    ensures Sound(Plains(ps) + ([END] + rest))
    ensures Comma(Plains(ps) + ([END] + rest)) == if ps == [] then "" else ", "
    ensures Out(Plains(ps) + ([END] + rest), 1) == MembersText(ps) + (";" + (Comma(rest) + Out(rest, 0)))
  {
    hide Out, PersonText, Phrase, Sound, Comma, AddressOut, MembersText, Plains;
    OutFirst(END, rest, 1);
    if ps == [] {
      NoMembers();
      assert Plains(ps) + ([END] + rest) == [END] + rest;
      assert "" + (";" + (Comma(rest) + Out(rest, 0))) == ";" + (Comma(rest) + Out(rest, 0));
    } else {
      var more := Plains(ps[1..]) + ([END] + rest);
      MembersOut(ps[1..], rest);
      MembersFirst(ps);
      Assoc([Plain(ps[0])], Plains(ps[1..]), [END] + rest);
      OutFirst(Plain(ps[0]), more, 1);
      OutPlain(ps[0]);
      Four(PersonText(ps[0]), Comma(more), MembersText(ps[1..]), ";" + (Comma(rest) + Out(rest, 0)));
    }
  }

  lemma NoMembers()
    ensures Plains([]) == [] && MembersText([]) == ""
  {
  }

  lemma MembersFirst(ps: seq<Person>)
    requires ps != []
    ensures Plains(ps) == [Plain(ps[0])] + Plains(ps[1..])
    ensures MembersText(ps) == PersonText(ps[0]) + ((if ps[1..] == [] then "" else ", ") + MembersText(ps[1..]))
  {
    hide PersonText;
  }

  lemma OutPlain(p: Person)
    ensures AddressOut(Plain(p)) == PersonText(p)
  {
  }

  /** The text of a list of addresses and groups. */
  lemma {:induction false} FlatOut(items: seq<Item>)
    ensures Sound(Flat(items)) && Out(Flat(items), 0) == ListText(items)
  {
    FlatSound(items);
    OutNone();
    hide Out, Sound, Comma, Elements, ItemText;
    if items != [] {
      FlatOut(items[1..]);
      FlatSound(items[1..]);
      ItemOut(items[0], Flat(items[1..]));
    }
  }

  lemma ItemOut(i: Item, rest: seq<Address>)
    requires Sound(rest)
    ensures Sound(Elements(i) + rest) && Out(Elements(i) + rest, 0) == ItemText(i) + (Comma(rest) + Out(rest, 0))
  {
    hide Out, PersonText, Sound, Comma, AddressOut, Plains, MembersText;
    if i.One? {
      OutFirst(Plain(i.person), rest, 0);
      OutPlain(i.person);
    } else {
      GroupOut(i.name, i.members, rest);
      assert Elements(i) + rest == [Address(None, Some(i.name), None)] + (Plains(i.members) + ([END] + rest));
    }
  }

  lemma OutNone()
    ensures Out([], 0) == ""
  {
  }

  lemma GroupOut(name: string, ps: seq<Person>, rest: seq<Address>)
    requires Sound(rest)
    ensures var list := [Address(None, Some(name), None)] + (Plains(ps) + ([END] + rest));
      Sound(list) && Out(list, 0) == ItemText(Group(name, ps)) + (Comma(rest) + Out(rest, 0))
  {
    hide Out, Sound, Comma, AddressOut, Plains, MembersText, Phrase;
    MembersOut(ps, rest);
    OutFirst(Address(None, Some(name), None), Plains(ps) + ([END] + rest), 0);
    var t, more := MembersText(ps), Comma(rest) + Out(rest, 0);
    Assoc(t, ";", more);
    Assoc(": ", t + ";", more);
    Assoc(Phrase(name), ": " + (t + ";"), more);
  }

  // ---- Writing ----

  class Output {
    var text: string

    constructor ()
      ensures text == ""
    {
      text := "";
    }

    method Put(t: string)
      modifies this
      ensures text == old(text) + t
    {
      text := text + t;
    }

    /** Writes a backslash before what has to be escaped. */
    method PutEscaped(src: string)
      modifies this
      ensures text == old(text) + Escaped(src)
    {
      hide Escaped;
      var rest := src;
      ghost var done := "";
      assert done + Escaped(src) == Escaped(src);
      var at := FindSpecial(rest);
      while at < |rest|
        invariant 0 <= at <= |rest| && (at < |rest| ==> Special(rest[at])) && !Has(rest[..at], Special)
        invariant text == old(text) + done && done + Escaped(rest) == Escaped(src)
        decreases |rest|
      {
        EscapedAt(rest, at);
        ghost var more := rest[..at] + ("\\" + [rest[at]]);
        Assoc(done, more, Escaped(rest[at + 1..]));
        PutThree(rest[..at], "\\", [rest[at]]);
        Assoc(old(text), done, more);
        done := done + more;
        rest := rest[at + 1..];
        at := FindSpecial(rest);
      }
      assert rest[..at] == rest;
      EscapedPlain(rest);
      Put(rest);
      Assoc(old(text), done, rest);
    }

    method PutThree(a: string, b: string, c: string)
      modifies this
      ensures text == old(text) + (a + (b + c))
    {
      Put(a);
      Put(b);
      Put(c);
      assert old(text) + a + b + c == old(text) + (a + (b + c));
    }

    /** rfc822_output_cat: with `dots`, as a dot-atom; else as a phrase. */
    method PutCat(src: string, dots: bool)
      modifies this
      ensures text == old(text) + if dots then Word(src) else Phrase(src)
    {
      hide Escaped, Has, TwoDots;
      var quote := NeedsQuotes(src, dots);
      if quote {
        Put("\"");
        PutEscaped(src);
        Put("\"");
        assert old(text) + "\"" + Escaped(src) + "\"" == old(text) + Quoted(src);
      } else {
        Put(src);
      }
    }

    /** rfc822_output_address. */
    method PutSpec(mailbox: string, host: string)
      modifies this
      ensures text == old(text) + Spec(mailbox, host)
    {
      hide Word;
      PutCat(mailbox, true);
      if host == "" || host[0] != '@' {
        Put("@");
        PutCat(host, true);
        assert old(text) + Word(mailbox) + "@" + Word(host) == old(text) + (Word(mailbox) + ("@" + Word(host)));
      } else {
        assert Word(mailbox) + "" == Word(mailbox);
      }
    }

    method PutPerson(p: Person)
      modifies this
      ensures text == old(text) + PersonText(p)
    {
      hide Phrase, Spec;
      if p.personal.Some? && p.personal.value != "" {
        PutCat(p.personal.value, false);
        Put(" <");
        PutSpec(p.mailbox, p.host);
        Put(">");
        var name, spec := Phrase(p.personal.value), Spec(p.mailbox, p.host);
        assert old(text) + name + " <" + spec + ">" == old(text) + (name + (" <" + (spec + ">")));
      } else {
        PutSpec(p.mailbox, p.host);
      }
    }

    /** rfc822_output_address_list, without folding. */
    method PutList(list: seq<Address>)
      requires Sound(list)
      modifies this
      ensures text == old(text) + Out(list, 0)
    {
      hide PersonText, Phrase, Out, AddressOut;
      var n := 0;
      var rest := list;
      while rest != []
        invariant 0 <= n && Sound(rest) && text + Out(rest, n) == old(text) + Out(list, 0)
        decreases |rest|
      {
        OutStep(text, rest, n);
        var a := rest[0];
        rest := rest[1..];
        var comma := if rest != [] && rest[0].mailbox.Some? then ", " else "";
        if a.host.Some? {
          AddressIs(a);
          PutPerson(Person(a.personal, a.mailbox.value, a.host.value));
          Put(comma);
        } else if a.mailbox.Some? {
          PutCat(a.mailbox.value, false);
          Put(": ");
          n := n + 1;
        } else if n > 0 {
          Put(";");
          n := n - 1;
          if n == 0 {
            Put(comma);
          }
        }
      }
      NothingOut(text, rest, n);
    }
  }

  lemma AddressIs(a: Address)
    requires a.host.Some? && a.mailbox.Some?
    ensures AddressOut(a) == PersonText(Person(a.personal, a.mailbox.value, a.host.value))
  {
  }

  lemma NothingOut(text: string, list: seq<Address>, n: nat)
    requires list == []
    ensures text + Out(list, n) == text
  {
  }

  /** What the first address adds to a text. */
  lemma OutStep(text: string, list: seq<Address>, n: nat)
    requires list != [] && Sound(list)
    ensures var a, rest := list[0], list[1..];
      && Sound(rest) && (a.host.Some? ==> a.mailbox.Some?)
      && text + Out(list, n) ==
         if a.host.Some? then text + AddressOut(a) + Comma(rest) + Out(rest, n)
         else if a.mailbox.Some? then text + Phrase(a.mailbox.value) + ": " + Out(rest, n + 1)
         else if n > 1 then text + ";" + Out(rest, n - 1)
         else if n == 1 then text + ";" + Comma(rest) + Out(rest, 0)
         else text + Out(rest, n)
  {
    var a, rest := list[0], list[1..];
    hide AddressOut, Phrase, Comma;
    if a.host.Some? {
      Assoc(text + AddressOut(a), Comma(rest), Out(rest, n));
      Assoc(text, AddressOut(a), Comma(rest) + Out(rest, n));
    } else if a.mailbox.Some? {
      Assoc(text + Phrase(a.mailbox.value), ": ", Out(rest, n + 1));
      Assoc(text, Phrase(a.mailbox.value), ": " + Out(rest, n + 1));
    } else if n == 1 {
      Assoc(text + ";", Comma(rest), Out(rest, 0));
      Assoc(text, ";", Comma(rest) + Out(rest, 0));
    } else if n > 1 {
      assert "" + Out(rest, n - 1) == Out(rest, n - 1);
      Assoc(text, ";", Out(rest, n - 1));
    }
  }

  /** strpbrk for the characters to be escaped. */
  method FindSpecial(s: string) returns (at: nat)
    ensures at <= |s| && (at < |s| ==> Special(s[at])) && !Has(s[..at], Special)
  {
    at := 0;
    while at < |s| && !Special(s[at])
      invariant at <= |s| && forall i | 0 <= i < at :: !Special(s[i])
    {
      at := at + 1;
    }
  }

  method NeedsQuotes(src: string, dots: bool) returns (quote: bool)
    ensures quote <==>
      || src == ""
      || if dots then
           Has(src, WSpecial) || src[0] == '.' || TwoDots(src) || src[|src| - 1] == '.'
         else
           Has(src, RSpecial)
  {
    if src == "" {
      return true;
    }
    quote := dots && (src[0] == '.' || src[|src| - 1] == '.');
    for i := 0 to |src|
      invariant quote <==> (|| (dots && (src[0] == '.' || src[|src| - 1] == '.'))
                            || (exists k :: 0 <= k < i && if dots then WSpecial(src[k]) else RSpecial(src[k]))
                            || (dots && exists k :: 0 <= k < i && k + 1 < |src| && src[k] == '.' && src[k + 1] == '.'))
    {
      if || (if dots then WSpecial(src[i]) else RSpecial(src[i]))
         || (dots && i + 1 < |src| && src[i] == '.' && src[i + 1] == '.') {
        quote := true;
      }
    }
  }

  lemma {:induction false} EscapedPlain(s: string)
    requires !Has(s, Special)
    ensures Escaped(s) == s
  {
    if s != "" {
      assert !Special(s[0]);
      forall i | 0 <= i < |s[1..]|
        ensures !Special(s[1..][i])
      {
        assert s[1..][i] == s[i + 1];
      }
      EscapedPlain(s[1..]);
    }
  }

  lemma {:induction false} EscapedAt(s: string, at: nat)
    requires at < |s| && Special(s[at]) && !Has(s[..at], Special)
    ensures Escaped(s) == s[..at] + ("\\" + [s[at]]) + Escaped(s[at + 1..])
  {
    if at > 0 {
      assert !Special(s[..at][0]);
      var t := s[1..];
      var u := t[..at - 1];
      forall i | 0 <= i < |u|
        ensures !Special(u[i])
      {
        assert u[i] == s[..at][i + 1];
      }
      EscapedAt(t, at - 1);
      assert s[..at] == [s[0]] + t[..at - 1];
      assert t[at..] == s[at + 1..];
    }
  }
}
