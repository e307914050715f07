/** A few facts about slices and concatenations that proofs name instead of rediscovering. */
module Sequences {
  lemma Assoc<T>(s: seq<T>, t: seq<T>, u: seq<T>)
    ensures s + (t + u) == (s + t) + u
  {
  }

  lemma Snoc<T>(s: seq<T>, i: nat)
    requires i < |s|
    ensures s[..i + 1] == s[..i] + [s[i]]
  {
  }

  lemma TakeAll<T>(s: seq<T>)
    ensures s[..|s|] == s
  {
  }

  /** A slice of a slice. */
  lemma Slice<T>(s: seq<T>, from: nat, to: nat, i: nat, j: nat)
    requires from <= to <= |s| && i <= j <= to - from
    ensures s[from..to][i..j] == s[from + i..from + j]
  {
    var u := s[from..to];
    forall k | 0 <= k < j - i
      ensures u[i..j][k] == s[from + i..from + j][k]
    {
      assert u[i..j][k] == u[i + k];
    }
  }
}
