/** Sums over the keys of a map, which the cache, the planner and the queue all keep. */
module Sums {

  ghost function Sum<T>(m: map<T, int>): int
    decreases |m|
  {
    if m == map[] then 0
    else
      var x :| x in m;
      m[x] + Sum(m - {x})
  }

  /** A sum may be taken apart at any key, whatever key its definition picks. */
  lemma {:induction false} SumSplit<T>(m: map<T, int>, x: T)
    requires x in m
    ensures Sum(m) == m[x] + Sum(m - {x})
    decreases |m|
  {
    var y :| y in m && Sum(m) == m[y] + Sum(m - {y});
    if y != x {
      SumSplit(m - {y}, x);
      SumSplit(m - {x}, y);
      assert m - {y} - {x} == m - {x} - {y};
    }
  }

  /** Without negative entries a sum is not negative, and zero only as a sum of zeroes. */
  lemma {:induction false} SumBounds<T>(m: map<T, int>)
    requires forall x :: x in m ==> m[x] >= 0
    ensures Sum(m) >= 0
    ensures Sum(m) == 0 <==> forall x :: x in m ==> m[x] == 0
    decreases |m|
  {
    if m != map[] {
      var x :| x in m && Sum(m) == m[x] + Sum(m - {x});
      var rest := m - {x};
      SumBounds(rest);
      assert forall y :: y in m <==> y == x || y in rest;
      assert forall y :: y in rest ==> rest[y] == m[y];
    }
  }
}
