/** Sequence edits shared by the Convex tables and the page's list editors. */
module Seqs {

  /** `s.filter((_, i) => i !== index)`: drops the element at `index`, and nothing when
      `index` is not a position of `s` (negative, too large). */
  function RemoveAt<T>(s: seq<T>, index: int): (r: seq<T>)
    ensures 0 <= index < |s| ==> r == s[..index] + s[index + 1..]
    ensures !(0 <= index < |s|) ==> r == s
  {
    if |s| == 0 then []
    else
      var last := |s| - 1;
      var kept := RemoveAt(s[..last], index);
      assert s == s[..last] + [s[last]];
      if last == index then kept else kept + [s[last]]
  }

  /** `s.map((x, i) => i === index ? f(x) : x)`: rewrites the element at `index` only. */
  function MapAt<T>(s: seq<T>, index: int, f: T -> T): (r: seq<T>)
    ensures |r| == |s|
    ensures forall k :: 0 <= k < |s| ==> r[k] == (if k == index then f(s[k]) else s[k])
  {
    if |s| == 0 then []
    else
      var last := |s| - 1;
      MapAt(s[..last], index, f) + [if last == index then f(s[last]) else s[last]]
  }

  /** `s.filter(x => x !== v)`. */
  function RemoveAll<T(==)>(s: seq<T>, v: T): (r: seq<T>)
    ensures v !in r
    ensures forall k :: 0 <= k < |r| ==> r[k] in s
    ensures forall k :: 0 <= k < |s| && s[k] != v ==> s[k] in r
    ensures v !in s ==> r == s
  {
    if |s| == 0 then []
    else
      var last := |s| - 1;
      var kept := RemoveAll(s[..last], v);
      assert s == s[..last] + [s[last]];
      if s[last] == v then kept else kept + [s[last]]
  }

  /** Removing every copy of `v` from a concatenation removes it from each part: the kept
      elements stay in their order, and so do their copies. */
  lemma {:induction false} RemoveAllConcat<T>(a: seq<T>, b: seq<T>, v: T)
    ensures RemoveAll(a + b, v) == RemoveAll(a, v) + RemoveAll(b, v)
    decreases |b|
  {
    if |b| == 0 {
      assert a + b == a;
    } else {
      var last := |b| - 1;
      RemoveAllConcat(a, b[..last], v);
      assert (a + b)[..|a + b| - 1] == a + b[..last];
      assert (a + b)[|a + b| - 1] == b[last];
    }
  }

  /** One element is kept exactly when it is not `v`. */
  lemma RemoveAllOne<T>(x: T, v: T)
    ensures RemoveAll([x], v) == if x == v then [] else [x]
  {
    assert [x][..0] == [];
  }

  /** Every copy of `v` goes and every other element keeps its number of copies. */
  lemma {:induction false} RemoveAllCounts<T>(s: seq<T>, v: T)
    ensures multiset(RemoveAll(s, v)) == multiset(s)[v := 0]
  {
    if |s| > 0 {
      var last := |s| - 1;
      RemoveAllCounts(s[..last], v);
      assert s == s[..last] + [s[last]];
    }
  }

  /** `r` is `s` with some elements left out: its elements occur in `s` in the same order. */
  predicate IsSubsequence<T(==)>(r: seq<T>, s: seq<T>) {
    |r| == 0 ||
    (|s| > 0 &&
     ((r[|r| - 1] == s[|s| - 1] && IsSubsequence(r[..|r| - 1], s[..|s| - 1]))
      || IsSubsequence(r, s[..|s| - 1])))
  }

  /** Reading one more element of `s` keeps a subsequence one, whether it is taken or not. */
  lemma SubsequenceExtend<T>(r: seq<T>, s: seq<T>, x: T)
    requires IsSubsequence(r, s)
    ensures IsSubsequence(r, s + [x]) && IsSubsequence(r + [x], s + [x])
  {
    assert (s + [x])[..|s|] == s;
    assert (r + [x])[..|r|] == r;
  }

  /** `s.filter(p)`: the elements satisfying `p`, in order. */
  function Filter<T>(s: seq<T>, p: T -> bool): (r: seq<T>)
    ensures |r| <= |s|
    ensures forall k :: 0 <= k < |r| ==> p(r[k]) && r[k] in s
    ensures forall k :: 0 <= k < |s| && p(s[k]) ==> s[k] in r
  {
    if |s| == 0 then []
    else
      var prefix := s[..|s| - 1];
      assert forall k :: 0 <= k < |prefix| ==> prefix[k] == s[k];
      Filter(prefix, p) + if p(s[|s| - 1]) then [s[|s| - 1]] else []
  }

  /** The pieces `f(x)` of the elements of `s`, concatenated in order: what a `forEach` that
      appends one piece per element builds. */
  function ConcatMap<T, U>(s: seq<T>, f: T -> seq<U>): seq<U> {
    if |s| == 0 then [] else ConcatMap(s[..|s| - 1], f) + f(s[|s| - 1])
  }

  /** Elements whose piece is empty contribute nothing: concatenating over the elements that
      satisfy `p` gives the same result when every other element's piece is empty. */
  lemma {:induction false} ConcatMapFilter<T, U>(s: seq<T>, f: T -> seq<U>, p: T -> bool)
    requires forall x :: !p(x) ==> f(x) == []
    ensures ConcatMap(s, f) == ConcatMap(Filter(s, p), f)
  {
    if |s| > 0 {
      var prefix := s[..|s| - 1];
      var last := s[|s| - 1];
      ConcatMapFilter(prefix, f, p);
      var kept := Filter(prefix, p);
      if p(last) {
        assert (kept + [last])[..|kept + [last]| - 1] == kept;
      } else {
        assert kept + [] == kept;
      }
    }
  }

  /** One more element appends its piece. */
  lemma ConcatMapStep<T, U>(s: seq<T>, i: int, f: T -> seq<U>)
    requires 0 <= i < |s|
    ensures ConcatMap(s[..i + 1], f) == ConcatMap(s[..i], f) + f(s[i])
  {
    assert s[..i + 1][..i] == s[..i];
  }

  /** The loop step of a `forEach` that appends one piece per element to an accumulator. */
  lemma AppendPiece<T, U>(start: seq<U>, acc: seq<U>, s: seq<T>, i: int, f: T -> seq<U>)
    requires 0 <= i < |s|
    requires acc == start + ConcatMap(s[..i], f)
    ensures acc + f(s[i]) == start + ConcatMap(s[..i + 1], f)
  {
    ConcatMapStep(s, i, f);
  }
}
