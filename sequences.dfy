/** Facts about sequences shared by the other modules. */
module Sequences {

  /** Taking one more element appends it. */
  lemma TakeOneMore<T>(s: seq<T>, j: nat)
    requires j < |s|
    ensures s[..j + 1] == s[..j] + [s[j]]
  {
  }

  /** A sequence is its prefix, the element at the cut, and the rest. */
  lemma SplitAround<T>(s: seq<T>, j: nat)
    requires j < |s|
    ensures s == s[..j] + [s[j]] + s[j + 1..]
  {
    TakeOneMore(s, j);
    assert s[..j + 1] + s[j + 1..] == s;
  }
}
