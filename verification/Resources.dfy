/** Quantities, slices and the sums the scheduler cache keeps redundantly. */
module Resources {
  import opened Sums

  datatype Option<+T> = None | Some(value: T)

  type Res = string

  /** A `ResourceList` in whole units; a missing resource reads as the zero quantity. */
  type ResourceList = map<Res, nat>

  function Amount(r: ResourceList, k: Res): nat {
    if k in r then r[k] else 0
  }

  /** The key of a tenant namespace: "owner/name" in the program. */
  datatype NsKey = NsKey(owner: string, name: string)

  datatype Slice = Slice(owner: NsKey, unit: ResourceList, cluster: string)

  /** What each namespace holds: `allocItems` and `provisionItems`. */
  type Items = map<NsKey, seq<Slice>>

  function SumUnits(slices: seq<Slice>, k: Res): nat {
    if slices == [] then 0
    else SumUnits(slices[..|slices| - 1], k) + Amount(slices[|slices| - 1].unit, k)
  }

  function UnitKeys(slices: seq<Slice>): set<Res> {
    set s, k | s in slices && k in s.unit :: k
  }

  function Copies(n: nat, s: Slice): (r: seq<Slice>)
    ensures |r| == n
    ensures forall t :: t in r ==> t == s
  {
    if n == 0 then [] else Copies(n - 1, s) + [s]
  }

  lemma SumUnitsPrefix(slices: seq<Slice>, i: nat, k: Res)
    requires i < |slices|
    ensures SumUnits(slices[..i + 1], k) == SumUnits(slices[..i], k) + Amount(slices[i].unit, k)
  {
    assert slices[..i + 1][..i] == slices[..i];
  }

  lemma {:induction false} SumUnitsMonotone(slices: seq<Slice>, i: nat, k: Res)
    requires i <= |slices|
    ensures SumUnits(slices[..i], k) <= SumUnits(slices, k)
    decreases |slices|
  {
    if i == |slices| {
      assert slices[..i] == slices;
    } else {
      var front := slices[..|slices| - 1];
      SumUnitsMonotone(front, i, k);
      assert front[..i] == slices[..i];
    }
  }

  lemma {:induction false} SumUnitsZero(slices: seq<Slice>, k: Res)
    requires k !in UnitKeys(slices)
    ensures SumUnits(slices, k) == 0
  {
    if slices != [] {
      var n := |slices| - 1;
      assert slices[n] in slices;
      assert forall s :: s in slices[..n] ==> s in slices;
      SumUnitsZero(slices[..n], k);
    }
  }

  lemma {:induction false} SumCopies(n: nat, s: Slice, k: Res)
    ensures SumUnits(Copies(n, s), k) == n * Amount(s.unit, k)
  {
    if n > 0 {
      SumCopies(n - 1, s, k);
      var less := Copies(n - 1, s);
      assert (less + [s])[..n - 1] == less;
      calc {
        SumUnits(less + [s], k);
        SumUnits(less, k) + Amount(s.unit, k);
        (n - 1) * Amount(s.unit, k) + Amount(s.unit, k);
        n * Amount(s.unit, k);
      }
    }
  }

  function HeldUnits(items: Items, k: Res): map<NsKey, int> {
    map x | x in items :: SumUnits(items[x], k)
  }

  /** What the items hold of resource `k` together: the value `alloc[k]` caches. */
  ghost function Total(items: Items, k: Res): nat {
    SumBounds(HeldUnits(items, k));
    Sum(HeldUnits(items, k))
  }

  lemma TotalSplit(items: Items, x: NsKey, k: Res)
    requires x in items
    ensures Total(items, k) == SumUnits(items[x], k) + Total(items - {x}, k)
  {
    SumSplit(HeldUnits(items, k), x);
    assert HeldUnits(items, k) - {x} == HeldUnits(items - {x}, k);
  }

  lemma NoUnits(items: Items, k: Res)
    requires forall x :: x in items ==> SumUnits(items[x], k) == 0
    ensures Total(items, k) == 0
  {
    SumBounds(HeldUnits(items, k));
  }

  lemma TotalAdd(items: Items, x: NsKey, slices: seq<Slice>, k: Res)
    requires x !in items
    ensures Total(items[x := slices], k) == Total(items, k) + SumUnits(slices, k)
  {
    var more := items[x := slices];
    TotalSplit(more, x, k);
    assert more - {x} == items;
  }
}
