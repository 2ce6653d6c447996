/** How many equal slices a namespace quota is cut into (`GetLeastFitSliceNum`). */
module SliceMath {
  import opened Resources

  /** The slice names the quota's resources exactly, is nowhere zero and nowhere exceeds the quota. */
  predicate Sliceable(quota: ResourceList, slice: ResourceList) {
    quota.Keys == slice.Keys && forall k :: k in slice ==> k in quota && 0 < slice[k] <= quota[k]
  }

  /** `n` slices hold the quota in every resource. */
  predicate Covers(n: nat, quota: ResourceList, slice: ResourceList) {
    forall k :: k in quota ==> quota[k] <= n * Amount(slice, k)
  }

  ghost predicate IsLeastCover(n: nat, quota: ResourceList, slice: ResourceList) {
    Covers(n, quota, slice) && forall m: nat :: m < n ==> !Covers(m, quota, slice)
  }

  /** Reference meaning: the least covering number, or nothing when the slice does not fit the quota. */
  ghost function LeastFit(quota: ResourceList, slice: ResourceList): Option<nat> {
    if !Sliceable(quota, slice) then None
    else
      CoverExists(quota, slice);
      var n: nat :| IsLeastCover(n, quota, slice);
      Some(n)
  }

  function CeilDiv(q: nat, v: nat): nat
    requires 0 < v
  {
    (q + v - 1) / v
  }

  lemma CeilDivIsLeast(q: nat, v: nat, n: nat)
    requires 0 < v
    ensures q <= n * v <==> CeilDiv(q, v) <= n
  {
    var c := CeilDiv(q, v);
    assert q <= c * v < q + v;
    if c <= n {
      assert c * v <= n * v;
    } else {
      assert (n + 1) * v <= c * v;
    }
  }

  lemma CoverExists(quota: ResourceList, slice: ResourceList)
    requires Sliceable(quota, slice)
    ensures exists n: nat :: IsLeastCover(n, quota, slice)
  {
    var bound := UpperBound(quota, quota.Keys);
    forall k | k in quota
      ensures quota[k] <= bound * Amount(slice, k)
    {
      assert bound * 1 <= bound * slice[k];
    }
    LeastBelow(quota, slice, bound);
  }

  lemma {:induction false} UpperBound(quota: ResourceList, keys: set<Res>) returns (n: nat)
    requires keys <= quota.Keys
    ensures forall k :: k in keys ==> quota[k] <= n
    decreases keys
  {
    if keys == {} {
      n := 0;
    } else {
      var x :| x in keys;
      var m := UpperBound(quota, keys - {x});
      n := m + quota[x];
    }
  }

  lemma {:induction false} LeastBelow(quota: ResourceList, slice: ResourceList, bound: nat)
    requires Covers(bound, quota, slice)
    ensures exists n: nat :: IsLeastCover(n, quota, slice)
  {
    if m: nat :| m < bound && Covers(m, quota, slice) {
      LeastBelow(quota, slice, m);
    } else {
      assert IsLeastCover(bound, quota, slice);
    }
  }

  lemma LeastFitIs(quota: ResourceList, slice: ResourceList, n: nat)
    requires Sliceable(quota, slice) && IsLeastCover(n, quota, slice)
    ensures LeastFit(quota, slice) == Some(n)
  {
    var m := LeastFit(quota, slice).value;
    assert IsLeastCover(m, quota, slice);
  }

  /** Any larger number of slices covers as well, so the least one is a threshold. */
  lemma CoversFrom(quota: ResourceList, slice: ResourceList, n: nat)
    requires Sliceable(quota, slice)
    ensures Covers(n, quota, slice) <==> LeastFit(quota, slice).value <= n
  {
    var m := LeastFit(quota, slice).value;
    assert IsLeastCover(m, quota, slice);
    if m <= n {
      forall k | k in quota
        ensures quota[k] <= n * Amount(slice, k)
      {
        assert m * Amount(slice, k) <= n * Amount(slice, k);
      }
    }
  }

  /** The loop over the slice's resources, in any order; `more` tracks resources not yet seen. */
  method GetLeastFitSliceNum(quota: ResourceList, quotaSlice: ResourceList) returns (r: Option<nat>)
    ensures r == LeastFit(quota, quotaSlice)
    ensures r.Some? <==> quota.Keys == quotaSlice.Keys && forall k :: k in quotaSlice ==> 0 < quotaSlice[k] <= Amount(quota, k)
    ensures r.Some? ==> forall k :: k in quota ==> quota[k] <= r.value * Amount(quotaSlice, k)
    ensures r.Some? && r.value > 0 ==> exists k :: k in quota && (r.value - 1) * Amount(quotaSlice, k) < quota[k]
  {
    var more := quota.Keys;
    var num: nat := 0;
    var todo := quotaSlice.Keys;
    while todo != {}
      invariant todo <= quotaSlice.Keys
      invariant quotaSlice.Keys - todo <= quota.Keys
      invariant more == quota.Keys - (quotaSlice.Keys - todo)
      invariant forall k :: k in quotaSlice.Keys - todo ==>
                  0 < quotaSlice[k] <= quota[k] && CeilDiv(quota[k], quotaSlice[k]) <= num
      invariant num == 0 || exists k :: k in quotaSlice.Keys - todo && CeilDiv(quota[k], quotaSlice[k]) == num
      decreases todo
    {
      var k :| k in todo;
      todo := todo - {k};
      if k !in quota || quotaSlice[k] == 0 || quota[k] < quotaSlice[k] {
        return None;
      }
      more := more - {k};
      var n := CeilDiv(quota[k], quotaSlice[k]);
      if n > num {
        num := n;
      }
    }
    if more != {} {
      return None;
    }
    LeastFromCeilings(quota, quotaSlice, num);
    LeastFitIs(quota, quotaSlice, num);
    return Some(num);
  }

  lemma LeastFromCeilings(quota: ResourceList, slice: ResourceList, num: nat)
    requires Sliceable(quota, slice)
    requires forall k :: k in slice ==> CeilDiv(quota[k], slice[k]) <= num
    requires num == 0 || exists k :: k in slice && CeilDiv(quota[k], slice[k]) == num
    ensures IsLeastCover(num, quota, slice)
  {
    forall k | k in slice
      ensures quota[k] <= num * slice[k]
    {
      CeilDivIsLeast(quota[k], slice[k], num);
    }
    forall m: nat | m < num
      ensures !Covers(m, quota, slice)
    {
      var k :| k in slice && CeilDiv(quota[k], slice[k]) == num;
      CeilDivIsLeast(quota[k], slice[k], m);
    }
  }
}
