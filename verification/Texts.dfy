/** Reading and writing numbers in text. */
module Texts {
  import opened Machine

  /** What was read, and what of the text is left. */
  datatype Parsed<+T> = Read(value: T, rest: string) | Unread

  predicate IsDigit(c: char) {
    '0' <= c <= '9'
  }

  lemma Behind(a: string, b: string)
    ensures (a + b)[|a|..] == b && (a + b)[..|a|] == a
  {
  }

  /** How many characters of the kind the text starts with. */
  function Run(s: string, p: char -> bool): (n: nat)
    ensures n <= |s|
  {
    if s != "" && p(s[0]) then 1 + Run(s[1..], p) else 0
  }

  lemma {:induction false} RunExact(w: string, tail: string, p: char -> bool)
    requires forall i | 0 <= i < |w| :: p(w[i])
    requires tail == "" || !p(tail[0])
    ensures Run(w + tail, p) == |w|
    ensures (w + tail)[..|w|] == w && (w + tail)[|w|..] == tail
  {
    if w == "" {
      assert w + tail == tail;
    } else {
      assert (w + tail)[1..] == w[1..] + tail;
      RunExact(w[1..], tail, p);
    }
  }

  function Digit(d: nat): char
    requires d < 10
  {
    d as char + '0'
  }

  function Decimal(n: nat): string {
    if n < 10 then [Digit(n)] else Decimal(n / 10) + [Digit(n % 10)]
  }

  function Value(s: string): nat {
    if s == "" then 0
    else
      var d := if IsDigit(s[|s| - 1]) then (s[|s| - 1] - '0') as nat else 0;
      Value(s[..|s| - 1]) * 10 + d
  }

  lemma {:induction false} DecimalValue(n: nat)
    ensures Value(Decimal(n)) == n && Decimal(n) != "" && forall i | 0 <= i < |Decimal(n)| :: IsDigit(Decimal(n)[i])
  {
    if n < 10 {
      assert Decimal(n)[..0] == "";
    } else {
      DecimalValue(n / 10);
      assert Decimal(n)[..|Decimal(n)| - 1] == Decimal(n / 10);
    }
  }

  /** The digits are those of base ten. */
  lemma DecimalSpelled(n: nat, d: nat)
    requires d < 10
    ensures Decimal(d) == ["0123456789"[d]] && (n > 0 ==> Decimal(10 * n + d) == Decimal(n) + ["0123456789"[d]])
  {
    assert "0123456789"[d] == Digit(d);
  }

  function ReadNumber(s: string): (r: Parsed<nat>)
    ensures r.Read? ==> |r.rest| < |s|
  {
    var n := Run(s, IsDigit);
    if n == 0 then Unread else Read(Value(s[..n]), s[n..])
  }

  lemma NumberRead(n: nat, tail: string)
    requires tail == "" || !IsDigit(tail[0])
    ensures ReadNumber(Decimal(n) + tail) == Read(n, tail)
  {
    DecimalValue(n);
    RunExact(Decimal(n), tail, IsDigit);
  }

  /** The text without the blanks before it. */
  function Unspaced(s: string): (r: string)
    ensures |r| <= |s| && (r == "" || r[0] != ' ')
  {
    if s != "" && s[0] == ' ' then Unspaced(s[1..]) else s
  }

  lemma UnspacedSolid(s: string)
    requires s == "" || s[0] != ' '
    ensures Unspaced(s) == s
  {
  }

  method SkipBlanks(s: string) returns (t: string)
    ensures t == Unspaced(s)
  {
    t := s;
    while t != "" && t[0] == ' '
      invariant Unspaced(t) == Unspaced(s)
      decreases |t|
    {
      t := t[1..];
    }
  }

  // ---- strtoul ----

  const ULONGMAX: nat := ULONG - 1

  predicate IsSpace(c: char) {
    c == ' ' || '\t' <= c <= '\r'
  }

  function SkipSpaces(t: string): (r: string)
    ensures |r| <= |t|
  {
    if t != "" && IsSpace(t[0]) then SkipSpaces(t[1..]) else t
  }

  /** strtoul in base ten: spaces, a sign and digits, with its overflow and its
      negation; without digits nothing is read. */
  function Strtoul(t: string): (r: (nat, string))
    ensures |r.1| <= |t| && (r.0 > 0 ==> |r.1| < |t|)
  {
    var s := SkipSpaces(t);
    var minus := s != "" && s[0] == '-';
    var d := if s != "" && (s[0] == '-' || s[0] == '+') then s[1..] else s;
    var n := Run(d, IsDigit);
    if n == 0 then (0, t)
    else
      var v := Value(d[..n]);
      (if v > ULONGMAX then ULONGMAX else if minus && v > 0 then ULONGMAX + 1 - v else v, d[n..])
  }

  lemma StrtoulRead(n: nat, tail: string)
    requires n <= ULONGMAX && (tail == "" || !IsDigit(tail[0]))
    ensures Strtoul(Decimal(n) + tail) == (n, tail)
  {
    DecimalValue(n);
    RunExact(Decimal(n), tail, IsDigit);
    assert IsDigit((Decimal(n) + tail)[0]);
  }
}
