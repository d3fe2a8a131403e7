/** Operations on sequences that several parts share. */
module Sequences {
  /** The sequence without the element at one position. */
  function Remove<T>(s: seq<T>, i: nat): (r: seq<T>)
    requires i < |s|
    ensures |r| == |s| - 1
  {
    s[..i] + s[i + 1..]
  }

  lemma Assoc<T>(a: seq<T>, b: seq<T>, c: seq<T>)
    ensures a + b + c == a + (b + c)
  {
  }

  /** Where the element at `n` comes from when the one at `i` was removed, and where it
      goes. */
  function Origin(i: nat, n: nat): nat {
    if n < i then n else n + 1
  }

  function Goal(i: nat, n: nat): nat
    requires n != i
  {
    if n < i then n else n - 1
  }

  lemma RemovedAt<T>(s: seq<T>, i: nat, n: nat)
    requires i < |s| && n < |s| - 1
    ensures Origin(i, n) < |s| && Origin(i, n) != i && Goal(i, Origin(i, n)) == n && Remove(s, i)[n] == s[Origin(i, n)]
  {
  }

  lemma RemovedTo<T>(s: seq<T>, i: nat, n: nat)
    requires i < |s| && n < |s| && n != i
    ensures Goal(i, n) < |s| - 1 && Origin(i, Goal(i, n)) == n && Remove(s, i)[Goal(i, n)] == s[n]
  {
  }
}
