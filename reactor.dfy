/** The part of the reactor pattern all three screens share: folding `reduce` over emitted mutations. */
module Reactor {

  /** The state after `reduce` has been applied to each mutation of `ms`, first to last. */
  function Fold<S, M>(reduce: (S, M) -> S, s: S, ms: seq<M>): S
    decreases |ms|
  {
    if ms == [] then s else Fold(reduce, reduce(s, ms[0]), ms[1..])
  }

  /** Folding one more mutation is one more `reduce` step on the folded state. */
  lemma {:induction false} FoldSnoc<S, M>(reduce: (S, M) -> S, s: S, ms: seq<M>, m: M)
    ensures Fold(reduce, s, ms + [m]) == reduce(Fold(reduce, s, ms), m)
    decreases |ms|
  {
    if ms == [] {
      assert ms + [m] == [m];
    } else {
      assert (ms + [m])[1..] == ms[1..] + [m];
      FoldSnoc(reduce, reduce(s, ms[0]), ms[1..], m);
    }
  }

  /** Folding two batches in turn is folding them concatenated. */
  lemma {:induction false} FoldAppend<S, M>(reduce: (S, M) -> S, s: S, a: seq<M>, b: seq<M>)
    ensures Fold(reduce, s, a + b) == Fold(reduce, Fold(reduce, s, a), b)
    decreases |a|
  {
    if a == [] {
      assert a + b == b;
    } else {
      assert (a + b)[1..] == a[1..] + b;
      FoldAppend(reduce, reduce(s, a[0]), a[1..], b);
    }
  }
}
