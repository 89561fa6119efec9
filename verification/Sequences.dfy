/** Sequences: repetition and concatenation. */
module Sequences {
  function Held<T>(x: T, n: nat): (s: seq<T>)
    ensures |s| == n && forall i :: 0 <= i < n ==> s[i] == x
  {
    seq(n, _ => x)
  }

  lemma HeldBoth<T>(x: T, m: nat, n: nat)
    ensures Held(x, m) + Held(x, n) == Held(x, m + n)
  {
  }

  lemma Associate<T>(a: seq<T>, b: seq<T>, c: seq<T>)
    ensures a + b + c == a + (b + c)
  {
  }
}
