/** The usage snapshots the engine plans on: copies of the clusters' capacity, alloc and provision. */
module Snapshot {
  import opened Resources
  import opened Clusters

  datatype ClusterUsage = ClusterUsage(capacity: map<Res, int>, alloc: ResourceList, provision: ResourceList)

  type UsageMap = map<string, ClusterUsage>

  function Max(a: nat, b: nat): nat { if a < b then b else a }

  /** The larger of allocation and observed provision, over the resources of the allocation. */
  function MaxAlloc(a: ResourceList, b: ResourceList): ResourceList {
    map k | k in a :: Max(a[k], Amount(b, k))
  }

  method GetMaxAlloc(a: ResourceList, b: ResourceList) returns (r: ResourceList)
    ensures r == MaxAlloc(a, b)
  {
    r := a;
    var todo := a.Keys;
    while todo != {}
      invariant todo <= a.Keys && r.Keys == a.Keys
      invariant forall k :: k in a ==> r[k] == if k in todo then a[k] else Max(a[k], Amount(b, k))
      decreases todo
    {
      var k :| k in todo;
      todo := todo - {k};
      if a[k] < Amount(b, k) {
        r := r[k := b[k]];
      }
    }
  }

  function Plus(alloc: ResourceList, unit: ResourceList): ResourceList {
    map k | k in alloc.Keys + unit.Keys :: Amount(alloc, k) + Amount(unit, k)
  }

  /** One slice added to the snapshot; a resource the cluster does not list is simply created. */
  function AddOne(u: UsageMap, s: Slice): UsageMap {
    if s.cluster !in u then u
    else u[s.cluster := u[s.cluster].(alloc := Plus(u[s.cluster].alloc, s.unit))]
  }

  function AddAll(u: UsageMap, slices: seq<Slice>): UsageMap {
    if slices == [] then u else AddOne(AddAll(u, slices[..|slices| - 1]), slices[|slices| - 1])
  }

  /** How many slices at the front name clusters of the snapshot. */
  function Leading(u: UsageMap, slices: seq<Slice>): (i: nat)
    ensures i <= |slices|
  {
    if slices == [] || slices[0].cluster !in u then 0 else 1 + Leading(u, slices[1..])
  }

  /** One slice taken out; slices of clusters outside the snapshot are skipped. */
  function RemoveOne(u: UsageMap, s: Slice): Option<UsageMap> {
    if s.cluster !in u then Some(u)
    else if !SubFits(u[s.cluster].alloc, s.unit) then None
    else Some(u[s.cluster := u[s.cluster].(alloc := Minus(u[s.cluster].alloc, s.unit))])
  }

  function RemoveAll(u: UsageMap, slices: seq<Slice>): Option<UsageMap> {
    if slices == [] then Some(u)
    else
      var r := RemoveAll(u, slices[..|slices| - 1]);
      if r.None? then None else RemoveOne(r.value, slices[|slices| - 1])
  }

  lemma {:induction false} RemoveAllConcat(u: UsageMap, a: seq<Slice>, b: seq<Slice>)
    requires RemoveAll(u, a).Some?
    ensures RemoveAll(u, a + b) == RemoveAll(RemoveAll(u, a).value, b)
    decreases |b|
  {
    if b == [] {
      assert a + b == a;
    } else {
      var n := |b| - 1;
      assert (a + b)[..|a + b| - 1] == a + b[..n];
      RemoveAllConcat(u, a, b[..n]);
    }
  }

  /** The usage map with cluster `n` reduced by `slices`. */
  function Reduced(u: UsageMap, n: string, slices: seq<Slice>): UsageMap
    requires n in u && Covered(u[n].alloc, slices)
  {
    u[n := u[n].(alloc := Shrunk(u[n].alloc, slices))]
  }

  lemma ReducedStep(u: UsageMap, n: string, slices: seq<Slice>, i: nat)
    requires n in u && i < |slices| && slices[i].cluster == n
    requires Covered(u[n].alloc, slices[..i]) && Covered(u[n].alloc, slices[..i + 1])
    ensures RemoveOne(Reduced(u, n, slices[..i]), slices[i]) == Some(Reduced(u, n, slices[..i + 1]))
  {
    Cluster.ShrinkCovered(u[n].alloc, slices, i);
    Cluster.ShrinkStep(u[n].alloc, slices, i);
    var before, after := Reduced(u, n, slices[..i]), Reduced(u, n, slices[..i + 1]);
    assert before[n := after[n]] == after;
  }

  /** A block of slices of one cluster comes out as its sum. */
  lemma {:induction false} RemoveBlock(u: UsageMap, n: string, slices: seq<Slice>, i: nat)
    requires n in u && i <= |slices| && Covered(u[n].alloc, slices)
    requires forall j :: 0 <= j < |slices| ==> slices[j].cluster == n
    ensures Covered(u[n].alloc, slices[..i])
    ensures RemoveAll(u, slices[..i]) == Some(Reduced(u, n, slices[..i]))
    decreases i
  {
    CoveredPrefix(u[n].alloc, slices, i);
    if i == 0 {
      assert Shrunk(u[n].alloc, slices[..0]) == u[n].alloc;
      assert Reduced(u, n, slices[..0]) == u;
    } else {
      RemoveBlock(u, n, slices, i - 1);
      assert slices[..i][..i - 1] == slices[..i - 1];
      ReducedStep(u, n, slices, i - 1);
    }
  }

  // ---------- what the loops add and take away ----------

  /** How much of resource `k` the slices on cluster `n` ask for together. */
  function OnCluster(slices: seq<Slice>, n: string, k: Res): nat {
    if slices == [] then 0
    else
      var s := slices[|slices| - 1];
      OnCluster(slices[..|slices| - 1], n, k) + if s.cluster == n then Amount(s.unit, k) else 0
  }

  /** The same clusters with the same capacities and provisions. */
  predicate SameClusters(u: UsageMap, v: UsageMap) {
    v.Keys == u.Keys && forall n :: n in u ==> v[n].capacity == u[n].capacity && v[n].provision == u[n].provision
  }

  ghost predicate Raised(u: UsageMap, v: UsageMap, slices: seq<Slice>) {
    SameClusters(u, v) && forall n, k :: n in u ==> Amount(v[n].alloc, k) == Amount(u[n].alloc, k) + OnCluster(slices, n, k)
  }

  ghost predicate Enough(u: UsageMap, slices: seq<Slice>) {
    forall n, k :: n in u ==> OnCluster(slices, n, k) <= Amount(u[n].alloc, k)
  }

  ghost predicate Lowered(u: UsageMap, v: UsageMap, slices: seq<Slice>) {
    SameClusters(u, v) && forall n, k :: n in u ==> Amount(v[n].alloc, k) == Amount(u[n].alloc, k) - OnCluster(slices, n, k)
  }

  lemma {:induction false} AddAllMeans(u: UsageMap, slices: seq<Slice>)
    ensures Raised(u, AddAll(u, slices), slices)
  {
    if slices != [] {
      var m := |slices| - 1;
      AddAllMeans(u, slices[..m]);
      var before, after := AddAll(u, slices[..m]), AddAll(u, slices);
      forall n, k | n in u
        ensures Amount(after[n].alloc, k) == Amount(u[n].alloc, k) + OnCluster(slices, n, k)
      {
        assert Amount(before[n].alloc, k) == Amount(u[n].alloc, k) + OnCluster(slices[..m], n, k);
      }
    }
  }

  lemma MinusMeans(alloc: ResourceList, unit: ResourceList)
    ensures SubFits(alloc, unit) <==> forall k :: Amount(unit, k) <= Amount(alloc, k)
    ensures SubFits(alloc, unit) ==> forall k :: Amount(Minus(alloc, unit), k) == Amount(alloc, k) - Amount(unit, k)
  {
    forall k | k in unit ensures Amount(unit, k) == unit[k] {}
  }

  lemma RemoveOneMeans(u: UsageMap, v: UsageMap, s: Slice, done: seq<Slice>)
    requires Lowered(u, v, done)
    ensures RemoveOne(v, s).Some? <==> forall n, k :: n in u && n == s.cluster ==> OnCluster(done, n, k) + Amount(s.unit, k) <= Amount(u[n].alloc, k)
    ensures RemoveOne(v, s).Some? ==> SameClusters(u, RemoveOne(v, s).value)
    ensures RemoveOne(v, s).Some? ==> forall n, k :: n in u ==>
              Amount(RemoveOne(v, s).value[n].alloc, k) == Amount(v[n].alloc, k) - if n == s.cluster then Amount(s.unit, k) else 0
  {
    if s.cluster in u {
      MinusMeans(v[s.cluster].alloc, s.unit);
      assert forall k :: Amount(v[s.cluster].alloc, k) == Amount(u[s.cluster].alloc, k) - OnCluster(done, s.cluster, k);
    }
  }

  /** The slices come out exactly when no cluster of the snapshot has less than they ask of it; others are passed over. */
  lemma {:induction false} RemoveAllMeans(u: UsageMap, slices: seq<Slice>)
    ensures RemoveAll(u, slices).Some? <==> Enough(u, slices)
    ensures RemoveAll(u, slices).Some? ==> Lowered(u, RemoveAll(u, slices).value, slices)
  {
    if slices != [] {
      var m := |slices| - 1;
      var front, s := slices[..m], slices[m];
      RemoveAllMeans(u, front);
      forall n, k
        ensures OnCluster(slices, n, k) == OnCluster(front, n, k) + if s.cluster == n then Amount(s.unit, k) else 0
      {
      }
      if RemoveAll(u, front).Some? {
        RemoveOneMeans(u, RemoveAll(u, front).value, s, front);
      }
    }
  }

  class NamespaceSchedSnapshot {
    var usage: UsageMap

    constructor ()
      ensures usage == map[]
    {
      usage := map[];
    }

    /** Adds slices until one names a cluster outside the snapshot; those before it stay added. */
    method AddSlices(slices: seq<Slice>) returns (ok: bool)
      modifies this
      ensures ok <==> forall s :: s in slices ==> s.cluster in old(usage)
      ensures usage == AddAll(old(usage), slices[..Leading(old(usage), slices)])
      ensures |slices| == 1 ==> usage == AddOne(old(usage), slices[0])
      ensures ok ==> Raised(old(usage), usage, slices)
    {
      ghost var u0 := usage;
      ok := AddEach(slices);
      AddAllMeans(u0, slices);
    }

    method AddEach(slices: seq<Slice>) returns (ok: bool)
      modifies this
      ensures ok <==> forall s :: s in slices ==> s.cluster in old(usage)
      ensures usage == AddAll(old(usage), slices[..Leading(old(usage), slices)])
      ensures |slices| == 1 ==> usage == AddOne(old(usage), slices[0])
      ensures ok ==> usage == AddAll(old(usage), slices)
    {
      ghost var u0 := usage;
      for i := 0 to |slices|
        invariant usage.Keys == u0.Keys && usage == AddAll(u0, slices[..i])
        invariant forall j :: 0 <= j < i ==> slices[j].cluster in u0
      {
        LeadingStops(u0, slices, i);
        assert slices[..i + 1][..i] == slices[..i];
        var s := slices[i];
        if s.cluster !in usage {
          return false;
        }
        var sum := AddUnits(usage[s.cluster].alloc, s.unit);
        usage := usage[s.cluster := usage[s.cluster].(alloc := sum)];
      }
      LeadingStops(u0, slices, |slices|);
      assert slices[..|slices|] == slices;
      return true;
    }

    static lemma LeadingStops(u: UsageMap, slices: seq<Slice>, i: nat)
      requires i <= |slices| && forall j :: 0 <= j < i ==> slices[j].cluster in u
      ensures i == |slices| || slices[i].cluster !in u ==> Leading(u, slices) == i
      decreases i
    {
      if i > 0 {
        LeadingStops(u, slices[1..], i - 1);
      }
    }

    method AddUnits(alloc: ResourceList, unit: ResourceList) returns (r: ResourceList)
      ensures r == Plus(alloc, unit)
    {
      r := alloc;
      var todo := unit.Keys;
      while todo != {}
        invariant todo <= unit.Keys && r.Keys == alloc.Keys + (unit.Keys - todo)
        invariant forall k :: k in r ==> r[k] == Amount(alloc, k) + if k in todo then 0 else Amount(unit, k)
        decreases todo
      {
        var k :| k in todo;
        todo := todo - {k};
        r := r[k := Amount(r, k) + unit[k]];
      }
    }

    /** On underflow the snapshot is abandoned half-way; the caller drops it. */
    method RemoveSlices(slices: seq<Slice>) returns (ok: bool)
      modifies this
      ensures ok <==> RemoveAll(old(usage), slices).Some?
      ensures ok ==> usage == RemoveAll(old(usage), slices).value
      ensures ok <==> Enough(old(usage), slices)
      ensures ok ==> Lowered(old(usage), usage, slices)
    {
      ghost var u0 := usage;
      RemoveAllMeans(u0, slices);
      for i := 0 to |slices|
        invariant RemoveAll(u0, slices[..i]) == Some(usage)
      {
        assert slices[..i + 1][..i] == slices[..i];
        var s := slices[i];
        if s.cluster in usage {
          var left := SubUnit(usage[s.cluster].alloc, s.unit);
          if left.None? {
            RemoveAllNone(u0, slices, i + 1);
            return false;
          }
          usage := usage[s.cluster := usage[s.cluster].(alloc := left.value)];
        }
      }
      assert slices[..|slices|] == slices;
      return true;
    }

    static lemma {:induction false} RemoveAllNone(u: UsageMap, slices: seq<Slice>, i: nat)
      requires i <= |slices| && RemoveAll(u, slices[..i]).None?
      ensures RemoveAll(u, slices).None?
      decreases |slices| - i
    {
      if i == |slices| {
        assert slices[..i] == slices;
      } else {
        assert slices[..i + 1][..i] == slices[..i];
        RemoveAllNone(u, slices, i + 1);
      }
    }
  }
}
