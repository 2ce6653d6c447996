/**
 What the operations on clusters mean to everyone else: which clusters the next snapshot shows and with
 what, which bookings stay, and what the collector may take.
 */
module ClusterLaws {
  import opened Resources
  import opened Clusters
  import opened CacheModel
  import opened CacheAccounting
  import opened NamespaceSnapshot

  /** Apart from cluster `n` the two caches are the same. */
  predicate OnlyCluster(st: CacheState, after: CacheState, n: string) {
    && after.tenants == st.tenants && after.pods == st.pods && after.namespaces == st.namespaces
    && after.clusters.Keys - {n} == st.clusters.Keys - {n}
    && forall m :: m in st.clusters && m in after.clusters && m != n ==> after.clusters[m] == st.clusters[m]
  }

  /** The cluster takes part in scheduling with this capacity, these provisions and these bookings. */
  ghost predicate TakesPart(cs: ClusterMap, n: string, capacity: ResourceList, provisioned: Items, booked: Items) {
    var u := LiveUsage(cs);
    && n in cs && n in u
    && u[n].capacity == capacity && AddsUp(u[n].provision, provisioned) && AddsUp(u[n].alloc, booked)
    && cs[n].booked.items == booked && cs[n].provisioned.items == provisioned
  }

  // ---------- adding a cluster ----------

  /**
   A known cluster, shadow or not, takes part in scheduling from now on, with the capacity and the provisions
   that are reported and with the bookings and pods it had; the collector never takes it.
   */
  lemma KnownClusterRefreshed(st: CacheState, c: ClusterState, expired: set<string>)
    requires c.name in st.clusters && Balanced(st.clusters[c.name].booked) && Balanced(c.provisioned)
    ensures var after := AddClusterTo(st, c);
            && OnlyCluster(st, after, c.name)
            && TakesPart(after.clusters, c.name, c.capacity, c.provisioned.items, st.clusters[c.name].booked.items)
            && after.clusters[c.name].pods == st.clusters[c.name].pods
            && c.name in CollectGarbage(after, expired).clusters
  {
    LedgerAddsUp(st.clusters[c.name].booked);
    LedgerAddsUp(c.provisioned);
  }

  /** A new cluster takes part with what it brings along. */
  lemma NewClusterTakesPart(st: CacheState, c: ClusterState, expired: set<string>)
    requires c.name !in st.clusters && Balanced(c.booked) && Balanced(c.provisioned)
    ensures var after := AddClusterTo(st, c);
            && OnlyCluster(st, after, c.name)
            && TakesPart(after.clusters, c.name, c.capacity, c.provisioned.items, c.booked.items)
            && after.clusters[c.name].pods == c.pods
            && c.name in CollectGarbage(after, expired).clusters
  {
    LedgerAddsUp(c.booked);
    LedgerAddsUp(c.provisioned);
  }

  /**
   The cluster a placement made up becomes a real one: what was booked on the shadow is still booked when the
   cluster is reported, whatever the collector does then.
   */
  lemma ShadowBecomesReal(st: CacheState, key: NsKey, p: Placement, unit: ResourceList, c: ClusterState, expired: set<string>)
    requires p.num > 0 && p.cluster !in st.clusters && c.name == p.cluster && Balanced(c.provisioned)
    requires Place(st.clusters, key, p, unit).Some?
    ensures var placed := st.(clusters := Place(st.clusters, key, p, unit).value);
            && p.cluster in placed.clusters && p.cluster !in LiveUsage(placed.clusters)
            && var after := CollectGarbage(AddClusterTo(placed, c), expired);
               && TakesPart(after.clusters, c.name, c.capacity, c.provisioned.items, map[key := SlicesFor(key, p, unit)])
               && |SlicesFor(key, p, unit)| == p.num
  {
    var placed := st.(clusters := Place(st.clusters, key, p, unit).value);
    var shadow := Shadow(p.cluster);
    EmptyBalanced(SHADOW_CAPACITY);
    AddItemBalanced(shadow.name, shadow.capacity, shadow.booked, key, SlicesFor(key, p, unit));
    KnownClusterRefreshed(placed, c, expired);
  }

  // ---------- collecting and removing ----------

  /** The collector takes expired shadow clusters and nothing else, so scheduling sees no difference. */
  lemma CollectorIsInvisible(st: CacheState, expired: set<string>)
    ensures var after := CollectGarbage(st, expired);
            && after == st.(clusters := after.clusters)
            && (forall n :: n in after.clusters <==> n in st.clusters && !(st.clusters[n].shadow && n in expired))
            && (forall n :: n in after.clusters ==> after.clusters[n] == st.clusters[n])
            && LiveUsage(after.clusters) == LiveUsage(st.clusters)
  {
  }

  /** A cached cluster leaves, an unknown one is an error; the others, and all else, stay as they are. */
  lemma ClusterRemoved(st: CacheState, n: string)
    ensures var r := RemoveClusterFrom(st, n);
            && (r.ok <==> n in st.clusters) && n !in r.st.clusters
            && OnlyCluster(st, r.st, n)
            && LiveUsage(r.st.clusters) == LiveUsage(st.clusters) - {n}
  {
    assert n !in st.clusters ==> st.clusters.Keys - {n} == st.clusters.Keys;
  }

  // ---------- capacity and provisions ----------

  /** Only the capacity changes, and the next plan is made with it. */
  lemma CapacityUpdated(st: CacheState, n: string, capacity: ResourceList)
    ensures var r := SetCapacity(st, n, capacity);
            && (r.ok <==> n in st.clusters) && (!r.ok ==> r.st == st)
            && (r.ok ==> OnlyCluster(st, r.st, n) && n in r.st.clusters
                         && r.st.clusters[n].capacity == capacity
                         && r.st.clusters[n].(capacity := st.clusters[n].capacity) == st.clusters[n]
                         && (n in LiveUsage(r.st.clusters) ==> LiveUsage(r.st.clusters)[n].capacity == capacity))
  {
    if n in st.clusters {
      assert st.clusters[n := st.clusters[n].(capacity := capacity)].Keys == st.clusters.Keys;
    }
  }

  /** Beside the items, each resource of the unit is known and all the slices fit under the capacity. */
  ghost predicate FitsBeside(capacity: ResourceList, known: set<Res>, items: Items, slices: seq<Slice>, unit: ResourceList) {
    forall k :: k in unit ==> k in known && k in capacity && Total(items, k) + SumUnits(slices, k) <= capacity[k]
  }

  /** Beside what others have provisioned, the slices are the cluster's own and fit under the capacity. */
  ghost predicate ProvisionFits(c: ClusterState, key: NsKey, slices: seq<Slice>) {
    forall i :: 0 <= i < |slices| ==>
      slices[i].cluster == c.name && FitsBeside(c.capacity, c.provisioned.alloc.Keys, c.provisioned.items - {key}, slices, slices[i].unit)
  }

  /** Only what is provisioned on `n` changes, and the next plan is made with it. */
  ghost predicate OnlyProvisions(st: CacheState, after: CacheState, n: string, items: Items) {
    && n in st.clusters && n in after.clusters && OnlyCluster(st, after, n)
    && after.clusters[n] == st.clusters[n].(provisioned := after.clusters[n].provisioned)
    && after.clusters[n].provisioned.items == items
    && (n in LiveUsage(after.clusters) ==> AddsUp(LiveUsage(after.clusters)[n].provision, items))
  }

  lemma FitsUnitIff(capacity: ResourceList, l: Ledger, slices: seq<Slice>, unit: ResourceList)
    requires Balanced(l)
    ensures FitsUnit(capacity, l.alloc, slices, unit) <==> FitsBeside(capacity, l.alloc.Keys, l.items, slices, unit)
  {
    forall k | k in l.alloc ensures l.alloc[k] == Total(l.items, k) {}
  }

  lemma ProvisionOutcome(c: ClusterState, key: NsKey, slices: seq<Slice>)
    requires Balanced(c.provisioned)
    ensures var cleared := RemoveItem(c.provisioned, key);
            && cleared.Some? && Balanced(cleared.value) && cleared.value.items == c.provisioned.items - {key}
            && var added := AddItem(c.name, c.capacity, cleared.value, key, slices);
               && (added.Some? <==> ProvisionFits(c, key, slices))
               && (added.Some? ==> Balanced(added.value) && added.value.items == (c.provisioned.items - {key})[key := slices])
  {
    RemoveItemBalanced(c.provisioned, key);
    var cleared := RemoveItem(c.provisioned, key).value;
    AdmittedIff(c.name, c.capacity, cleared, slices);
    if AddItem(c.name, c.capacity, cleared, key, slices).Some? {
      AddItemBalanced(c.name, c.capacity, cleared, key, slices);
    }
  }

  lemma AdmittedIff(name: string, capacity: ResourceList, l: Ledger, slices: seq<Slice>)
    requires Balanced(l)
    ensures Admits(name, capacity, l.alloc, slices) <==> forall i :: 0 <= i < |slices| ==>
              slices[i].cluster == name && FitsBeside(capacity, l.alloc.Keys, l.items, slices, slices[i].unit)
  {
    forall i | 0 <= i < |slices|
      ensures FitsUnit(capacity, l.alloc, slices, slices[i].unit) <==> FitsBeside(capacity, l.alloc.Keys, l.items, slices, slices[i].unit)
    {
      FitsUnitIff(capacity, l, slices, slices[i].unit);
    }
  }

  /**
   The old provision of the namespace goes first; the new one takes its place exactly when it fits beside the
   others'. If it does not, the old one is gone all the same.
   */
  lemma ProvisionReplaced(st: CacheState, n: string, key: NsKey, slices: seq<Slice>)
    requires AllBalanced(st.clusters)
    ensures var r := AddProvisionTo(st, n, key, slices);
            if n !in st.clusters then !r.ok && r.st == st
            else
              var c := st.clusters[n];
              && (r.ok <==> ProvisionFits(c, key, slices))
              && OnlyProvisions(st, r.st, n, if r.ok then (c.provisioned.items - {key})[key := slices] else c.provisioned.items - {key})
  {
    if n in st.clusters {
      ProvisionOutcome(st.clusters[n], key, slices);
      var r := AddProvisionTo(st, n, key, slices);
      LedgerAddsUp(r.st.clusters[n].provisioned);
      assert r.st.clusters.Keys == st.clusters.Keys;
    }
  }

  lemma ProvisionRemoved(st: CacheState, n: string, key: NsKey)
    requires AllBalanced(st.clusters)
    ensures var r := RemoveProvisionFrom(st, n, key);
            if n !in st.clusters then !r.ok && r.st == st
            else r.ok && OnlyProvisions(st, r.st, n, st.clusters[n].provisioned.items - {key})
  {
    if n in st.clusters {
      RemoveItemBalanced(st.clusters[n].provisioned, key);
      var r := RemoveProvisionFrom(st, n, key);
      LedgerAddsUp(r.st.clusters[n].provisioned);
      assert r.st.clusters.Keys == st.clusters.Keys;
    }
  }
}
