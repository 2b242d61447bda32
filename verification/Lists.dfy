/** First matches in a list, and lists with some elements crossed out. */
module Lists {
  /** The position of the first element that satisfies `p`, or the length when none does. */
  function FirstIndex<T>(s: seq<T>, p: T -> bool): (i: nat)
    ensures i <= |s|
    ensures i < |s| ==> p(s[i])
    ensures forall j :: 0 <= j < i ==> !p(s[j])
  {
    if s == [] || p(s[0]) then 0 else 1 + FirstIndex(s[1..], p)
  }

  /** `xs` is what is left of `ys` when some of its elements are crossed out. */
  ghost predicate Subsequence<T>(xs: seq<T>, ys: seq<T>) {
    || xs == []
    || (ys != [] && Subsequence(xs, ys[..|ys| - 1]))
    || (ys != [] && xs[|xs| - 1] == ys[|ys| - 1] && Subsequence(xs[..|xs| - 1], ys[..|ys| - 1]))
  }

  lemma {:induction false} SubsequenceOfItself<T>(s: seq<T>)
    ensures Subsequence(s, s)
  {
    if s != [] {
      SubsequenceOfItself(s[..|s| - 1]);
    }
  }

  lemma {:induction false} SubsequenceTransitive<T>(xs: seq<T>, ys: seq<T>, zs: seq<T>)
    requires Subsequence(xs, ys) && Subsequence(ys, zs)
    ensures Subsequence(xs, zs)
    decreases |ys| + |zs|
  {
    if xs != [] {
      if Subsequence(ys, zs[..|zs| - 1]) {
        SubsequenceTransitive(xs, ys, zs[..|zs| - 1]);
      } else if Subsequence(xs, ys[..|ys| - 1]) {
        SubsequenceTransitive(xs, ys[..|ys| - 1], zs[..|zs| - 1]);
      } else {
        SubsequenceTransitive(xs[..|xs| - 1], ys[..|ys| - 1], zs[..|zs| - 1]);
      }
    }
  }
}
