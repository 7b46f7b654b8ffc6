/** Facts about sequences in general, stated once so that proofs about the
    model's own sequences do not have to rediscover them. */
module Seqs {
  lemma AppendAssoc<T>(a: seq<T>, b: seq<T>, c: seq<T>)
    ensures (a + b) + c == a + (b + c)
  {
  }

  lemma SliceSnoc<T>(s: seq<T>, j: nat)
    requires j < |s|
    ensures s[..j + 1] == s[..j] + [s[j]]
  {
  }

  lemma SliceAll<T>(s: seq<T>)
    ensures s[..|s|] == s
  {
  }

  lemma SliceOfLonger<T>(s: seq<T>, j: nat)
    requires j < |s|
    ensures s[..j + 1][..j] == s[..j] && s[..j + 1][j] == s[j]
  {
  }

  lemma PrefixTrans<T>(a: seq<T>, b: seq<T>, c: seq<T>)
    requires |a| <= |b| <= |c| && c[..|b|] == b && b[..|a|] == a
    ensures c[..|a|] == a
  {
    assert c[..|a|] == c[..|b|][..|a|];
  }

  /** A split of what follows one prefix is a split of what follows any other. */
  lemma Reanchor<T>(a: seq<T>, b: seq<T>, whole: seq<T>, first: seq<T>, rest: seq<T>)
    requires a + whole == (a + first) + rest
    ensures b + whole == (b + first) + rest
  {
    AppendAssoc(a, first, rest);
    assert whole == (a + whole)[|a|..];
    assert first + rest == (a + (first + rest))[|a|..];
    AppendAssoc(b, first, rest);
  }

  lemma PrefixOfAppend<T>(a: seq<T>, b: seq<T>)
    ensures (a + b)[..|a|] == a
  {
  }
}
