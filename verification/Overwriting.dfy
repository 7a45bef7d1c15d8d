/** Buffers that a loop overwrites element by element, and the regrouping of their parts. */
module Overwriting {

  /** The buffer s after the first i elements of b were written to it from `at` on. */
  ghost function Overwritten<T>(s: seq<T>, at: nat, b: seq<T>, i: nat): seq<T>
    requires at + |b| <= |s| && i <= |b|
  {
    s[..at] + b[..i] + s[at + i..]
  }

  lemma OverwriteNext<T>(s: seq<T>, at: nat, b: seq<T>, i: nat)
    requires at + |b| <= |s| && i < |b|
    ensures var now := Overwritten(s, at, b, i);
            && |now| == |s| && (forall k :: at + i <= k < |s| ==> now[k] == s[k])
            && now[at + i := b[i]] == Overwritten(s, at, b, i + 1)
  {}

  lemma OverwriteEnds<T>(s: seq<T>, at: nat, b: seq<T>)
    requires at + |b| <= |s|
    ensures Overwritten(s, at, b, 0) == s
    ensures Overwritten(s, at, b, |b|) == s[..at] + b + s[at + |b|..]
  {}

  lemma OverwriteFront<T>(s: seq<T>, b: seq<T>)
    requires |b| <= |s|
    ensures Overwritten(s, 0, b, 0) == s && Overwritten(s, 0, b, |b|) == b + s[|b|..]
  {}

  lemma Associate<T>(a: seq<T>, b: seq<T>, c: seq<T>)
    ensures a + (b + c) == (a + b) + c
  {}
}
