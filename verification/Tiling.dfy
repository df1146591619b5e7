/** Strictly increasing sequences of marks over the integers, and the fact that the
    half-open intervals between neighbouring marks overlap nowhere. */
module Tiling {

  ghost predicate Increasing(mark: int -> int) {
    forall i, j {:trigger mark(i), mark(j)} :: i < j ==> mark(i) < mark(j)
  }

  /** Instant `t` lies between mark `i` and its successor. */
  ghost predicate Between(mark: int -> int, i: int, t: int) {
    mark(i) <= t < mark(i + 1)
  }

  lemma {:induction false} StepsIncrease(mark: int -> int, i: int, j: int)
    requires forall k :: i <= k < j ==> Between(mark, k, mark(k))
    requires i < j
    ensures mark(i) < mark(j)
    decreases j - i
  {
    assert Between(mark, j - 1, mark(j - 1));
    if i < j - 1 {
      StepsIncrease(mark, i, j - 1);
    }
  }

  lemma IncreasingFromSteps(mark: int -> int)
    requires forall k :: Between(mark, k, mark(k))
    ensures Increasing(mark)
  {
    forall i, j | i < j ensures mark(i) < mark(j) {
      StepsIncrease(mark, i, j);
    }
  }

  /** No instant lies in two intervals. */
  lemma BetweenUnique(mark: int -> int, t: int, i: int, j: int)
    requires Increasing(mark) && Between(mark, i, t) && Between(mark, j, t)
    ensures i == j
  {
  }
}
