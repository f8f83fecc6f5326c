/** Facts about sequences that the proofs of several modules share. */
module Seqs {
  lemma Assoc<T>(a: seq<T>, b: seq<T>, c: seq<T>)
    ensures a + (b + c) == a + b + c
  {
  }

  /** The parts of a concatenation. */
  lemma Parts<T>(a: seq<T>, b: seq<T>)
    ensures (a + b)[..|a|] == a
    ensures (a + b)[|a|..] == b
  {
  }

  /** A sequence cut in two. */
  lemma Cut<T>(s: seq<T>, n: nat)
    requires n <= |s|
    ensures s == s[..n] + s[n..]
  {
  }

  /** A prefix that reaches beyond a cut. */
  lemma PrefixBeyond<T>(s: seq<T>, n: nat, q: nat)
    requires n + q <= |s|
    ensures s[..n + q] == s[..n] + s[n..][..q]
  {
  }

  /** The rest of a rest. */
  lemma RestOfRest<T>(s: seq<T>, n: nat, q: nat)
    requires n + q <= |s|
    ensures s[n..][q..] == s[n + q..]
  {
  }

  /** The rest of a prefix. */
  lemma RestOfPrefix<T>(s: seq<T>, n: nat, k: nat)
    requires n <= k <= |s|
    ensures s[..k][n..] == s[n..][..k - n]
  {
  }

  lemma Whole<T>(s: seq<T>)
    ensures s[0..] == s && s[..|s|] == s && [] + s == s && s + [] == s
  {
  }

  function Map<T, U>(f: T -> U, s: seq<T>): seq<U> {
    if s == [] then [] else [f(s[0])] + Map(f, s[1..])
  }

  lemma ConsRest<T>(x: T, s: seq<T>)
    ensures ([x] + s)[1..] == s
  {
  }
}
