/** Equations between slices of a sequence. */
module Slices {

  lemma SliceOfSuffix<T>(s: seq<T>, a: nat, i: nat, j: nat)
    requires a <= |s| && i <= j <= |s| - a
    ensures s[a..][i..j] == s[a + i..a + j]
    ensures s[a..][i..] == s[a + i..]
    ensures s[a..][..i] == s[a..a + i]
  {
  }

  lemma SliceOfPrefix<T>(s: seq<T>, n: nat, i: nat)
    requires i <= n <= |s|
    ensures s[..n][i..] == s[i..n] == s[i..][..n - i]
    ensures s[..n][..i] == s[..i]
  {
  }

  /** Two adjacent slices. */
  lemma Adjacent<T>(s: seq<T>, i: nat, j: nat, k: nat)
    requires i <= j <= k <= |s|
    ensures s[i..j] + s[j..k] == s[i..k]
    ensures s[i..j] + s[j..] == s[i..]
  {
  }

  lemma Associative<T>(a: seq<T>, b: seq<T>, c: seq<T>)
    ensures a + b + c == a + (b + c)
  {
  }

  /** What a concatenation starts and ends with. */
  lemma Halves<T>(a: seq<T>, b: seq<T>)
    ensures (a + b)[..|a|] == a && (a + b)[|a|..] == b
  {
  }

  lemma Whole<T>(s: seq<T>)
    ensures s[0..] == s && s[..|s|] == s && s + [] == s && [] + s == s
  {
  }
}
