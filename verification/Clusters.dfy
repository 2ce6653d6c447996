/**
 A super cluster as the scheduler cache sees it. `alloc` (and `provision`) caches the sum of
 `allocItems` (and `provisionItems`); `addItem` and `removeItem` work on a copy and commit at the end.
 */
module Clusters {
  import opened Resources

  /** Items together with the per-resource sums cached for them. */
  datatype Ledger = Ledger(items: Items, alloc: ResourceList)

  datatype ClusterState = ClusterState(
    name: string,
    capacity: ResourceList,
    shadow: bool,
    booked: Ledger,
    provisioned: Ledger,
    pods: Listing)

  function Zero(capacity: ResourceList): ResourceList {
    map k | k in capacity :: 0
  }

  function NewState(name: string, capacity: ResourceList): ClusterState {
    var empty := Ledger(map[], Zero(capacity));
    ClusterState(name, capacity, false, empty, empty, map[])
  }

  /** All slices belong to this cluster, use resources it knows, and fit under its capacity together. */
  predicate Admits(name: string, capacity: ResourceList, alloc: ResourceList, slices: seq<Slice>) {
    forall i :: 0 <= i < |slices| ==>
      slices[i].cluster == name && FitsUnit(capacity, alloc, slices, slices[i].unit)
  }

  predicate FitsUnit(capacity: ResourceList, alloc: ResourceList, slices: seq<Slice>, unit: ResourceList) {
    forall k :: k in unit ==> k in alloc && k in capacity && alloc[k] + SumUnits(slices, k) <= capacity[k]
  }

  function Grown(alloc: ResourceList, slices: seq<Slice>): ResourceList {
    map k | k in alloc :: alloc[k] + SumUnits(slices, k)
  }

  function AddItem(name: string, capacity: ResourceList, l: Ledger, key: NsKey, slices: seq<Slice>): Option<Ledger> {
    if key in l.items || !Admits(name, capacity, l.alloc, slices) then None
    else Some(Ledger(l.items[key := slices], Grown(l.alloc, slices)))
  }

  predicate Covered(alloc: ResourceList, slices: seq<Slice>) {
    forall k :: k in UnitKeys(slices) ==> SumUnits(slices, k) <= Amount(alloc, k)
  }

  lemma CoveredPrefix(alloc: ResourceList, slices: seq<Slice>, i: nat)
    requires i <= |slices| && Covered(alloc, slices)
    ensures Covered(alloc, slices[..i])
  {
    forall k | k in UnitKeys(slices[..i])
      ensures SumUnits(slices[..i], k) <= Amount(alloc, k)
    {
      SumUnitsMonotone(slices, i, k);
    }
  }

  function Shrunk(alloc: ResourceList, slices: seq<Slice>): ResourceList
    requires Covered(alloc, slices)
  {
    map k | k in alloc.Keys + UnitKeys(slices) ::
      if k in UnitKeys(slices) then Amount(alloc, k) - SumUnits(slices, k) else Amount(alloc, k)
  }

  function RemoveItem(l: Ledger, key: NsKey): Option<Ledger> {
    if key !in l.items then Some(l)
    else if !Covered(l.alloc, l.items[key]) then None
    else Some(Ledger(l.items - {key}, Shrunk(l.alloc, l.items[key])))
  }

  predicate SubFits(alloc: ResourceList, unit: ResourceList) {
    forall k :: k in unit ==> unit[k] <= Amount(alloc, k)
  }

  function Minus(alloc: ResourceList, unit: ResourceList): ResourceList
    requires SubFits(alloc, unit)
  {
    map k | k in alloc.Keys + unit.Keys :: if k in unit then Amount(alloc, k) - unit[k] else Amount(alloc, k)
  }

  /** Takes one unit out, resource by resource in any order, stopping at an underflow. */
  method SubUnit(alloc: ResourceList, unit: ResourceList) returns (r: Option<ResourceList>)
    ensures r.Some? <==> SubFits(alloc, unit)
    ensures r.Some? ==> r.value == Minus(alloc, unit)
  {
    var copy := alloc;
    var todo := unit.Keys;
    while todo != {}
      invariant todo <= unit.Keys && copy.Keys == alloc.Keys + (unit.Keys - todo)
      invariant forall k :: k in unit.Keys - todo ==> unit[k] <= Amount(alloc, k) && copy[k] == Amount(alloc, k) - unit[k]
      invariant forall k :: k in alloc && k !in unit.Keys - todo ==> copy[k] == alloc[k]
      decreases todo
    {
      var k :| k in todo;
      todo := todo - {k};
      if Amount(copy, k) < unit[k] {
        return None;
      }
      copy := copy[k := Amount(copy, k) - unit[k]];
    }
    return Some(copy);
  }

  // ---------- the cached sum agrees with the items ----------

  ghost predicate Balanced(l: Ledger) {
    && (forall key :: key in l.items ==> UnitKeys(l.items[key]) <= l.alloc.Keys)
    && (forall k :: k in l.alloc ==> l.alloc[k] == Total(l.items, k))
  }

  /** Then the sum of any resource, known to the cluster or not, is the total over the items. */
  lemma AmountIsTotal(l: Ledger, k: Res)
    requires Balanced(l)
    ensures Amount(l.alloc, k) == Total(l.items, k)
  {
    if k !in l.alloc {
      forall x | x in l.items
        ensures SumUnits(l.items[x], k) == 0
      {
        SumUnitsZero(l.items[x], k);
      }
      NoUnits(l.items, k);
    }
  }

  lemma EmptyBalanced(capacity: ResourceList)
    ensures Balanced(Ledger(map[], Zero(capacity)))
  {
  }

  lemma AddItemBalanced(name: string, capacity: ResourceList, l: Ledger, key: NsKey, slices: seq<Slice>)
    requires Balanced(l) && AddItem(name, capacity, l, key, slices).Some?
    ensures var m := AddItem(name, capacity, l, key, slices).value;
            Balanced(m) && m.alloc.Keys == l.alloc.Keys && m.items == l.items[key := slices]
  {
    var m := AddItem(name, capacity, l, key, slices).value;
    forall k | k in m.alloc
      ensures m.alloc[k] == Total(m.items, k)
    {
      TotalAdd(l.items, key, slices, k);
    }
  }

  /** With the sums in agreement the underflow error of `removeItem` is unreachable. */
  lemma RemoveItemBalanced(l: Ledger, key: NsKey)
    requires Balanced(l)
    ensures RemoveItem(l, key).Some?
    ensures var m := RemoveItem(l, key).value;
            Balanced(m) && m.alloc.Keys == l.alloc.Keys && m.items == l.items - {key}
  {
    if key in l.items {
      var slices := l.items[key];
      forall k
        ensures Total(l.items, k) == SumUnits(slices, k) + Total(l.items - {key}, k)
      {
        TotalSplit(l.items, key, k);
      }
      forall k | k !in UnitKeys(slices)
        ensures SumUnits(slices, k) == 0
      {
        SumUnitsZero(slices, k);
      }
    } else {
      assert l.items - {key} == l.items;
    }
  }

  lemma BalancedDetermined(l: Ledger, m: Ledger)
    requires Balanced(l) && Balanced(m) && l.items == m.items && l.alloc.Keys == m.alloc.Keys
    ensures l == m
  {
  }

  /** Every resource the slices use is known to the capacity and not over it. */
  predicate WithinCapacity(capacity: ResourceList, alloc: ResourceList, slices: seq<Slice>) {
    forall k :: k in UnitKeys(slices) ==> k in alloc && k in capacity && alloc[k] <= capacity[k]
  }

  /** Taking an item out and putting it back is the identity exactly when the cluster is within capacity. */
  lemma RestoreItem(name: string, capacity: ResourceList, l: Ledger, key: NsKey)
    requires Balanced(l) && key in l.items
    requires forall s :: s in l.items[key] ==> s.cluster == name
    ensures RemoveItem(l, key).Some?
    ensures AddItem(name, capacity, RemoveItem(l, key).value, key, l.items[key])
            == (if WithinCapacity(capacity, l.alloc, l.items[key]) then Some(l) else None)
  {
    RemoveItemBalanced(l, key);
    var slices := l.items[key];
    var m := RemoveItem(l, key).value;
    forall k | k in l.alloc
      ensures m.alloc[k] + SumUnits(slices, k) == l.alloc[k]
    {
      TotalSplit(l.items, key, k);
    }
    if WithinCapacity(capacity, l.alloc, slices) {
      AdmitsWhenWithin(name, capacity, l.alloc, m.alloc, slices);
      var r := AddItem(name, capacity, m, key, slices).value;
      AddItemBalanced(name, capacity, m, key, slices);
      assert r.items == l.items;
      BalancedDetermined(r, l);
    } else {
      RefusedWhenOver(name, capacity, l.alloc, m.alloc, slices);
    }
  }

  /** `less` is `alloc` without the slices. */
  lemma AdmitsWhenWithin(name: string, capacity: ResourceList, alloc: ResourceList, less: ResourceList, slices: seq<Slice>)
    requires alloc.Keys == less.Keys && forall k :: k in alloc ==> less[k] + SumUnits(slices, k) == alloc[k]
    requires WithinCapacity(capacity, alloc, slices) && forall s :: s in slices ==> s.cluster == name
    ensures Admits(name, capacity, less, slices)
  {
    assert forall i, k :: 0 <= i < |slices| && k in slices[i].unit ==> k in UnitKeys(slices);
  }

  lemma RefusedWhenOver(name: string, capacity: ResourceList, alloc: ResourceList, less: ResourceList, slices: seq<Slice>)
    requires alloc.Keys == less.Keys && forall k :: k in alloc ==> less[k] + SumUnits(slices, k) == alloc[k]
    requires !WithinCapacity(capacity, alloc, slices)
    ensures !Admits(name, capacity, less, slices)
  {
    var k :| k in UnitKeys(slices) && !(k in alloc && k in capacity && alloc[k] <= capacity[k]);
    var s :| s in slices && k in s.unit;
    var i :| 0 <= i < |slices| && slices[i] == s;
    assert !FitsUnit(capacity, less, slices, slices[i].unit);
  }

  // ---------- the pods listed under a cluster, by namespace ----------

  type Listing = map<NsKey, set<string>>

  function PodsOf(pods: Listing, key: NsKey): set<string> {
    if key in pods then pods[key] else {}
  }

  function List(pods: Listing, key: NsKey, name: string): Listing {
    pods[key := PodsOf(pods, key) + {name}]
  }

  function Unlist(pods: Listing, key: NsKey, name: string): Listing {
    var left := PodsOf(pods, key) - {name};
    if left == {} then pods - {key} else pods[key := left]
  }

  /** Listing adds the one name, unlisting takes it away, and a namespace without pods has no entry. */
  lemma ListingMeans(pods: Listing, key: NsKey, name: string)
    ensures PodsOf(List(pods, key, name), key) == PodsOf(pods, key) + {name}
    ensures PodsOf(Unlist(pods, key, name), key) == PodsOf(pods, key) - {name}
    ensures key in Unlist(pods, key, name) <==> PodsOf(pods, key) - {name} != {}
    ensures forall other :: other != key ==>
              && PodsOf(List(pods, key, name), other) == PodsOf(pods, other) == PodsOf(Unlist(pods, key, name), other)
              && (other in List(pods, key, name) <==> other in pods) && (other in Unlist(pods, key, name) <==> other in pods)
  {
  }

  /** Unlisting undoes listing. */
  lemma UnlistUndoesList(pods: Listing, key: NsKey, name: string)
    requires name !in PodsOf(pods, key) && (key in pods ==> pods[key] != {})
    ensures Unlist(List(pods, key, name), key, name) == pods
  {
    assert PodsOf(pods, key) + {name} - {name} == PodsOf(pods, key);
    assert key in pods ==> pods[key := pods[key] + {name}][key := pods[key]] == pods;
    assert key !in pods ==> pods[key := {name}] - {key} == pods;
  }

  // ---------- the cluster object ----------

  class Cluster {
    const name: string
    var capacity: ResourceList
    var shadow: bool
    var alloc: ResourceList
    var allocItems: Items
    var pods: Listing
    var provision: ResourceList
    var provisionItems: Items

    ghost function State(): ClusterState
      reads this
    {
      ClusterState(name, capacity, shadow, Ledger(allocItems, alloc), Ledger(provisionItems, provision), pods)
    }

    constructor (name: string, capacity: ResourceList)
      ensures State() == NewState(name, capacity)
    {
      this.name := name;
      this.capacity := capacity;
      shadow := false;
      alloc, provision := Zero(capacity), Zero(capacity);
      allocItems, provisionItems := map[], map[];
      pods := map[];
    }

    /** One slice: adds every resource of `unit`, in any order, stopping at the first that does not fit. */
    method AddUnit(alloc: ResourceList, unit: ResourceList) returns (r: Option<ResourceList>)
      ensures r.Some? <==> forall k :: k in unit ==> k in alloc && k in capacity && alloc[k] + unit[k] <= capacity[k]
      ensures r.Some? ==> r.value == map k | k in alloc :: alloc[k] + Amount(unit, k)
    {
      var copy := alloc;
      var todo := unit.Keys;
      while todo != {}
        invariant todo <= unit.Keys && copy.Keys == alloc.Keys
        invariant forall k :: k in alloc ==> copy[k] == alloc[k] + if k in unit.Keys - todo then unit[k] else 0
        invariant forall k :: k in unit.Keys - todo ==> k in alloc && k in capacity && copy[k] <= capacity[k]
        decreases todo
      {
        var k :| k in todo;
        todo := todo - {k};
        if k !in copy || k !in capacity || capacity[k] < copy[k] + unit[k] {
          return None;
        }
        copy := copy[k := copy[k] + unit[k]];
      }
      return Some(copy);
    }

    /** One turn of the loop of `AddItemTo`. */
    method AddSlice(copy: ResourceList, slices: seq<Slice>, i: nat, ghost alloc: ResourceList) returns (r: Option<ResourceList>)
      requires i < |slices| && copy == Grown(alloc, slices[..i]) && Admits(name, capacity, alloc, slices[..i])
      ensures r.Some? ==> r.value == Grown(alloc, slices[..i + 1]) && Admits(name, capacity, alloc, slices[..i + 1])
      ensures r.None? ==> !Admits(name, capacity, alloc, slices)
    {
      forall k ensures SumUnits(slices[..i + 1], k) == SumUnits(slices[..i], k) + Amount(slices[i].unit, k) {
        SumUnitsPrefix(slices, i, k);
      }
      if slices[i].cluster != name {
        return None;
      }
      r := AddUnit(copy, slices[i].unit);
      if r.None? {
        RefusedSlice(alloc, slices, i);
      } else {
        AdmitsStep(alloc, slices, i);
      }
    }

    method AddItemTo(key: NsKey, items: Items, alloc: ResourceList, slices: seq<Slice>) returns (r: Option<Ledger>)
      ensures r == AddItem(name, capacity, Ledger(items, alloc), key, slices)
    {
      if key in items {
        return None;
      }
      var copy := alloc;
      assert Grown(alloc, slices[..0]) == alloc;
      for i := 0 to |slices|
        invariant copy == Grown(alloc, slices[..i]) && Admits(name, capacity, alloc, slices[..i])
      {
        var u := AddSlice(copy, slices, i, alloc);
        if u.None? {
          return None;
        }
        copy := u.value;
      }
      assert slices[..|slices|] == slices;
      return Some(Ledger(items[key := slices], copy));
    }

    /** A slice that does not fit on top of the ones before it does not fit with all of them. */
    lemma RefusedSlice(alloc: ResourceList, slices: seq<Slice>, i: nat)
      requires i < |slices| && !FitsUnit(capacity, alloc, slices[..i + 1], slices[i].unit)
      ensures !Admits(name, capacity, alloc, slices)
    {
      forall k ensures SumUnits(slices[..i + 1], k) <= SumUnits(slices, k) {
        SumUnitsMonotone(slices, i + 1, k);
      }
      assert !FitsUnit(capacity, alloc, slices, slices[i].unit);
    }

    lemma AdmitsStep(alloc: ResourceList, slices: seq<Slice>, i: nat)
      requires i < |slices| && slices[i].cluster == name
      requires Admits(name, capacity, alloc, slices[..i])
      requires FitsUnit(capacity, alloc, slices[..i + 1], slices[i].unit)
      ensures Admits(name, capacity, alloc, slices[..i + 1])
    {
      var next := slices[..i + 1];
      forall j | 0 <= j < i + 1
        ensures next[j].cluster == name && FitsUnit(capacity, alloc, next, next[j].unit)
      {
        if j < i {
          assert next[j] == slices[..i][j];
          forall k | k in next[j].unit
            ensures k in alloc && k in capacity && alloc[k] + SumUnits(next, k) <= capacity[k]
          {
            SumUnitsPrefix(slices, i, k);
          }
        }
      }
    }

    method RemoveItemFrom(key: NsKey, items: Items, alloc: ResourceList) returns (r: Option<Ledger>)
      ensures r == RemoveItem(Ledger(items, alloc), key)
    {
      if key !in items {
        return Some(Ledger(items, alloc));
      }
      var slices := items[key];
      var copy := alloc;
      assert Shrunk(alloc, slices[..0]) == alloc;
      for i := 0 to |slices|
        invariant Covered(alloc, slices[..i]) && copy == Shrunk(alloc, slices[..i])
      {
        ShrinkCovered(alloc, slices, i);
        var u := SubUnit(copy, slices[i].unit);
        if u.None? {
          return None;
        }
        ShrinkStep(alloc, slices, i);
        copy := u.value;
      }
      assert slices[..|slices|] == slices;
      return Some(Ledger(items - {key}, copy));
    }

    /** How the sums move when the loop takes slice `i`. */
    static lemma PrefixFacts(slices: seq<Slice>, i: nat, k: Res)
      requires i < |slices|
      ensures SumUnits(slices[..i + 1], k) == SumUnits(slices[..i], k) + Amount(slices[i].unit, k)
      ensures SumUnits(slices[..i + 1], k) <= SumUnits(slices, k)
      ensures k !in UnitKeys(slices[..i]) ==> SumUnits(slices[..i], k) == 0
      ensures k in UnitKeys(slices[..i + 1]) <==> k in UnitKeys(slices[..i]) || k in slices[i].unit
      ensures k in UnitKeys(slices[..i + 1]) ==> k in UnitKeys(slices)
    {
      SumUnitsPrefix(slices, i, k);
      SumUnitsMonotone(slices, i + 1, k);
      if k !in UnitKeys(slices[..i]) {
        SumUnitsZero(slices[..i], k);
      }
      assert slices[..i + 1] == slices[..i] + [slices[i]];
    }

    /** Resource `k` of slice `i` can be taken out exactly when the slices up to it are covered in `k`. */
    static lemma ShrinkCoveredAt(alloc: ResourceList, slices: seq<Slice>, i: nat, k: Res)
      requires i < |slices| && Covered(alloc, slices[..i])
      ensures (k in slices[i].unit ==> slices[i].unit[k] <= Amount(Shrunk(alloc, slices[..i]), k)) <==>
              (k in UnitKeys(slices[..i + 1]) ==> SumUnits(slices[..i + 1], k) <= Amount(alloc, k))
    {
      PrefixFacts(slices, i, k);
    }

    static lemma ShrinkCovered(alloc: ResourceList, slices: seq<Slice>, i: nat)
      requires i < |slices| && Covered(alloc, slices[..i])
      ensures SubFits(Shrunk(alloc, slices[..i]), slices[i].unit) <==> Covered(alloc, slices[..i + 1])
      ensures Covered(alloc, slices) ==> Covered(alloc, slices[..i + 1])
    {
      forall k {
        ShrinkCoveredAt(alloc, slices, i, k);
      }
      if Covered(alloc, slices) {
        CoveredPrefix(alloc, slices, i + 1);
      }
    }

    static lemma ShrinkAt(alloc: ResourceList, slices: seq<Slice>, i: nat, k: Res)
      requires i < |slices| && Covered(alloc, slices[..i]) && Covered(alloc, slices[..i + 1])
      ensures var copy, next := Shrunk(alloc, slices[..i]), Shrunk(alloc, slices[..i + 1]);
              && (k in next <==> k in copy || k in slices[i].unit)
              && Amount(next, k) == Amount(copy, k) - Amount(slices[i].unit, k)
    {
      PrefixFacts(slices, i, k);
    }

    /** A list that names what `copy` and `unit` name and holds the differences is the difference. */
    static lemma IsMinus(next: ResourceList, copy: ResourceList, unit: ResourceList)
      requires SubFits(copy, unit)
      requires forall k :: (k in next <==> k in copy || k in unit) && Amount(next, k) == Amount(copy, k) - Amount(unit, k)
      ensures next == Minus(copy, unit)
    {
      var m := Minus(copy, unit);
      forall k | k in next
        ensures k in m && next[k] == m[k]
      {
        assert next[k] == Amount(next, k);
      }
      assert m.Keys == next.Keys;
    }

    static lemma ShrinkStep(alloc: ResourceList, slices: seq<Slice>, i: nat)
      requires i < |slices| && Covered(alloc, slices[..i]) && Covered(alloc, slices[..i + 1])
      requires SubFits(Shrunk(alloc, slices[..i]), slices[i].unit)
      ensures Shrunk(alloc, slices[..i + 1]) == Minus(Shrunk(alloc, slices[..i]), slices[i].unit)
    {
      var copy, next := Shrunk(alloc, slices[..i]), Shrunk(alloc, slices[..i + 1]);
      forall k
        ensures (k in next <==> k in copy || k in slices[i].unit) && Amount(next, k) == Amount(copy, k) - Amount(slices[i].unit, k)
      {
        ShrinkAt(alloc, slices, i, k);
      }
      IsMinus(next, copy, slices[i].unit);
    }

    method AddNamespace(key: NsKey, slices: seq<Slice>) returns (ok: bool)
      modifies `alloc, `allocItems
      ensures var r := AddItem(name, capacity, old(State()).booked, key, slices);
              ok == r.Some? && State() == old(State()).(booked := if ok then r.value else old(State()).booked)
    {
      var r := AddItemTo(key, allocItems, alloc, slices);
      ok := r.Some?;
      if ok {
        allocItems, alloc := r.value.items, r.value.alloc;
      }
    }

    method RemoveNamespace(key: NsKey) returns (ok: bool)
      modifies `alloc, `allocItems
      ensures var r := RemoveItem(old(State()).booked, key);
              ok == r.Some? && State() == old(State()).(booked := if ok then r.value else old(State()).booked)
    {
      var r := RemoveItemFrom(key, allocItems, alloc);
      ok := r.Some?;
      if ok {
        allocItems, alloc := r.value.items, r.value.alloc;
      }
    }

    method AddProvision(key: NsKey, slices: seq<Slice>) returns (ok: bool)
      modifies `provision, `provisionItems
      ensures var r := AddItem(name, capacity, old(State()).provisioned, key, slices);
              ok == r.Some? && State() == old(State()).(provisioned := if ok then r.value else old(State()).provisioned)
    {
      var r := AddItemTo(key, provisionItems, provision, slices);
      ok := r.Some?;
      if ok {
        provisionItems, provision := r.value.items, r.value.alloc;
      }
    }

    method RemoveProvision(key: NsKey) returns (ok: bool)
      modifies `provision, `provisionItems
      ensures var r := RemoveItem(old(State()).provisioned, key);
              ok == r.Some? && State() == old(State()).(provisioned := if ok then r.value else old(State()).provisioned)
    {
      var r := RemoveItemFrom(key, provisionItems, provision);
      ok := r.Some?;
      if ok {
        provisionItems, provision := r.value.items, r.value.alloc;
      }
    }

    /** Only a pod scheduled to this very cluster is listed. */
    method AddPod(key: NsKey, name: string, cluster: string) returns (ok: bool)
      modifies `pods
      ensures ok == (cluster == this.name)
      ensures State() == old(State()).(pods := if ok then List(old(pods), key, name) else old(pods))
      ensures ok ==> PodsOf(pods, key) == PodsOf(old(pods), key) + {name}
    {
      if cluster != this.name {
        return false;
      }
      if key !in pods {
        pods := pods[key := {}];
      }
      pods := pods[key := pods[key] + {name}];
      assert pods == List(old(pods), key, name);
      return true;
    }

    method RemovePod(key: NsKey, name: string)
      modifies `pods
      ensures State() == old(State()).(pods := Unlist(old(pods), key, name))
      ensures PodsOf(pods, key) == PodsOf(old(pods), key) - {name} && (key in pods ==> pods[key] != {})
    {
      if key in pods {
        pods := pods[key := pods[key] - {name}];
      }
      if key !in pods || pods[key] == {} {
        pods := pods - {key};
      }
      assert pods == Unlist(old(pods), key, name);
    }
  }
}
