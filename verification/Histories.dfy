/** Statements about the moments of a run. */
module Histories {

  ghost predicate Quiet(clear: int -> bool, i: int, n: int) {
    forall j :: i < j < n ==> !clear(j)
  }

  /** Some moment from `from` on was marked, and none after it was cleared. */
  ghost predicate Since(mark: int -> bool, clear: int -> bool, from: int, n: int) {
    exists i :: from <= i < n && mark(i) && Quiet(clear, i, n)
  }

  lemma SinceStep(mark: int -> bool, clear: int -> bool, mark': int -> bool, clear': int -> bool, from: int, n: int)
    requires from <= n
    requires forall i :: from <= i < n ==> mark(i) == mark'(i)
    requires forall i :: from <= i < n ==> clear(i) == clear'(i)
    ensures Since(mark', clear', from, n + 1) <==> mark'(n) || (Since(mark, clear, from, n) && !clear'(n))
  {
    if mark'(n) {
      assert Quiet(clear', n, n + 1);
    }
    if Since(mark, clear, from, n) && !clear'(n) {
      var i :| from <= i < n && mark(i) && Quiet(clear, i, n);
      assert mark'(i) && Quiet(clear', i, n + 1);
    }
    if Since(mark', clear', from, n + 1) && !mark'(n) {
      var i :| from <= i < n + 1 && mark'(i) && Quiet(clear', i, n + 1);
      assert mark(i) && Quiet(clear, i, n);
    }
  }

  /** The same for one history. */
  lemma SinceNext(mark: int -> bool, clear: int -> bool, from: int, n: int)
    requires from <= n
    ensures Since(mark, clear, from, n + 1) <==> mark(n) || (Since(mark, clear, from, n) && !clear(n))
  {
    SinceStep(mark, clear, mark, clear, from, n);
  }
}
