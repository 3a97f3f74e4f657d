/** Shared value types. */
module Prelude {
  datatype Option<+T> = None | Some(value: T)

  /** A seconds count; the model reads every clock as one real-valued time line. */
  type Time = real

  /** A draw of the random generator. */
  type Draw = x: real | 0.0 <= x

  ghost predicate Distinct<T>(s: seq<T>) {
    forall i, j :: 0 <= i < j < |s| ==> s[i] != s[j]
  }

  /** The set of the first `k` elements of `s`. */
  function First<T(==)>(s: seq<T>, k: nat): set<T>
    requires k <= |s|
  {
    set i | 0 <= i < k :: s[i]
  }

  function Elems<T(==)>(s: seq<T>): set<T> {
    First(s, |s|)
  }

  lemma FirstStep<T>(s: seq<T>, k: nat)
    requires k < |s|
    ensures First(s, k + 1) == First(s, k) + {s[k]}
  {
  }

  /** A sequence without repetition has as many elements as its set. */
  lemma {:induction false} DistinctCard<T>(s: seq<T>, k: nat)
    requires Distinct(s) && k <= |s|
    ensures |First(s, k)| == k
  {
    if k > 0 {
      DistinctCard(s, k - 1);
      FirstStep(s, k - 1);
    }
  }

  lemma {:induction false} SubsetCard<T>(a: set<T>, b: set<T>)
    requires a <= b
    ensures |a| <= |b|
    decreases |a|
  {
    if a != {} {
      var x :| x in a;
      SubsetCard(a - {x}, b - {x});
    }
  }

  lemma UnionCard<T>(a: set<T>, b: set<T>)
    ensures |a + b| <= |a| + |b|
  {
    assert a + b == a + (b - a);
    SubsetCard(b - a, b);
  }
}
