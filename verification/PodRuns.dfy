/** The pod listings of the clusters agree with the pod index over whole runs. */
module PodRuns {
  import opened Resources
  import opened Clusters
  import opened CacheModel
  import opened PodScheduling

  /** Clusters may have appeared without pods; the others list what they listed. */
  predicate SameListings(cs: ClusterMap, ds: ClusterMap) {
    && cs.Keys <= ds.Keys
    && forall n :: n in ds ==> ds[n].pods == if n in cs then cs[n].pods else map[]
  }

  lemma PlaceListings(cs: ClusterMap, key: NsKey, p: Placement, unit: ResourceList)
    ensures Place(cs, key, p, unit).Some? ==> SameListings(cs, Place(cs, key, p, unit).value)
    ensures Unplace(cs, key, p.cluster).Some? ==> SameListings(cs, Unplace(cs, key, p.cluster).value)
  {
  }

  lemma ListingsTrans(cs: ClusterMap, ds: ClusterMap, es: ClusterMap)
    requires SameListings(cs, ds) && SameListings(ds, es)
    ensures SameListings(cs, es)
  {
  }

  lemma {:induction false} PlaceFromListings(cs: ClusterMap, key: NsKey, schedule: seq<Placement>, unit: ResourceList, i: nat)
    requires i <= |schedule|
    ensures SameListings(cs, PlaceFrom(cs, key, schedule, unit, i).cs)
    decreases |schedule| - i
  {
    if i < |schedule| {
      PlaceListings(cs, key, schedule[i], unit);
      var next := Place(cs, key, schedule[i], unit);
      if next.Some? {
        PlaceFromListings(next.value, key, schedule, unit, i + 1);
        ListingsTrans(cs, next.value, PlaceFrom(next.value, key, schedule, unit, i + 1).cs);
      }
    }
  }

  lemma {:induction false} UnplaceFromListings(cs: ClusterMap, key: NsKey, schedule: seq<Placement>, i: nat)
    requires i <= |schedule|
    ensures SameListings(cs, UnplaceFrom(cs, key, schedule, i).cs)
    decreases |schedule| - i
  {
    if i < |schedule| {
      PlaceListings(cs, key, schedule[i], map[]);
      var next := Unplace(cs, key, schedule[i].cluster);
      if next.Some? {
        UnplaceFromListings(next.value, key, schedule, i + 1);
        ListingsTrans(cs, next.value, UnplaceFrom(next.value, key, schedule, i + 1).cs);
      }
    }
  }

  lemma {:induction false} UnplaceBackListings(cs: ClusterMap, key: NsKey, schedule: seq<Placement>, i: nat)
    requires i <= |schedule|
    ensures SameListings(cs, UnplaceBack(cs, key, schedule, i))
    decreases i
  {
    if i > 0 {
      PlaceListings(cs, key, schedule[i - 1], map[]);
      var ds := TakeOff(cs, key, schedule[i - 1].cluster);
      UnplaceBackListings(ds, key, schedule, i - 1);
      ListingsTrans(cs, ds, UnplaceBack(ds, key, schedule, i - 1));
    }
  }

  lemma {:induction false} PlaceBackListings(cs: ClusterMap, key: NsKey, schedule: seq<Placement>, unit: ResourceList, i: nat)
    requires i <= |schedule|
    ensures SameListings(cs, PlaceBack(cs, key, schedule, unit, i))
    decreases i
  {
    if i > 0 {
      PlaceListings(cs, key, schedule[i - 1], unit);
      var ds := PutBack(cs, key, schedule[i - 1], unit);
      PlaceBackListings(ds, key, schedule, unit, i - 1);
      ListingsTrans(cs, ds, PlaceBack(ds, key, schedule, unit, i - 1));
    }
  }

  /** Namespace operations touch neither the listings nor the index. */
  predicate PodsKept(st: CacheState, after: CacheState) {
    SameListings(st.clusters, after.clusters) && after.pods == st.pods
  }

  lemma AddNsPods(st: CacheState, ns: Namespace)
    ensures PodsKept(st, AddNs(st, ns).st)
  {
    var cs := st.clusters;
    PlaceFromListings(cs, ns.Key(), ns.schedule, ns.quotaSlice, 0);
    var p := PlaceFrom(cs, ns.Key(), ns.schedule, ns.quotaSlice, 0);
    UnplaceBackListings(p.cs, ns.Key(), ns.schedule, p.done);
    ListingsTrans(cs, p.cs, UnplaceBack(p.cs, ns.Key(), ns.schedule, p.done));
  }

  lemma RemoveNsPods(st: CacheState, ns: Namespace)
    ensures PodsKept(st, RemoveNs(st, ns).st)
  {
    var cs := st.clusters;
    UnplaceFromListings(cs, ns.Key(), ns.schedule, 0);
    var p := UnplaceFrom(cs, ns.Key(), ns.schedule, 0);
    PlaceBackListings(p.cs, ns.Key(), ns.schedule, ns.quotaSlice, p.done);
    ListingsTrans(cs, p.cs, PlaceBack(p.cs, ns.Key(), ns.schedule, ns.quotaSlice, p.done));
  }

  lemma PodsKeptTrans(a: CacheState, b: CacheState, c: CacheState)
    requires PodsKept(a, b) && PodsKept(b, c)
    ensures PodsKept(a, c)
  {
    ListingsTrans(a.clusters, b.clusters, c.clusters);
  }

  lemma UpdateNsPods(st: CacheState, o: Namespace, n: Namespace)
    ensures PodsKept(st, UpdateNs(st, o, n).st)
  {
    RemoveNsPods(st, o);
    var removed := RemoveNs(st, o).st;
    AddNsPods(removed, n);
    var added := AddNs(removed, n).st;
    PodsKeptTrans(st, removed, added);
    AddNsPods(added, o);
    PodsKeptTrans(st, added, AddNs(added, o).st);
  }

  lemma {:induction false} RemoveEachPods(st: CacheState, nss: seq<Namespace>, i: nat)
    requires i <= |nss|
    ensures PodsKept(st, RemoveEach(st, nss, i).st)
    decreases |nss| - i
  {
    if i < |nss| {
      RemoveNsPods(st, nss[i]);
      var next := RemoveNs(st, nss[i]);
      if next.ok {
        RemoveEachPods(next.st, nss, i + 1);
        PodsKeptTrans(st, next.st, RemoveEach(next.st, nss, i + 1).st);
      }
    }
  }

  lemma {:induction false} AddBackPods(st: CacheState, nss: seq<Namespace>, lo: nat, hi: nat)
    requires lo <= hi <= |nss|
    ensures PodsKept(st, AddBack(st, nss, lo, hi))
    decreases hi
  {
    if lo < hi {
      AddNsPods(st, nss[hi - 1]);
      var next := AddNs(st, nss[hi - 1]).st;
      AddBackPods(next, nss, lo, hi - 1);
      var last := AddBack(next, nss, lo, hi - 1);
      assert AddBack(st, nss, lo, hi) == last;
      PodsKeptTrans(st, next, last);
    }
  }

  lemma RemoveTenantPods(st: CacheState, t: string, nss: seq<Namespace>)
    ensures PodsKept(st, RemoveTenantOf(st, t, nss).st)
  {
    RemoveEachPods(st, nss, 0);
    var p := RemoveEach(st, nss, 0);
    if p.done < |nss| {
      AddBackPods(p.st, nss, 0, p.done);
      PodsKeptTrans(st, p.st, AddBack(p.st, nss, 0, p.done));
    }
  }

  // ---------- every step ----------

  /** A pod is removed from the cluster it is indexed with, and new clusters arrive without pods. */
  predicate PodAllowed(st: CacheState, op: Op) {
    match op
    case RemovePod(pod) => pod.Key() in st.pods ==> st.pods[pod.Key()].cluster == pod.cluster
    case AddCluster(c) => c.name !in st.clusters ==> c.pods == map[]
    case _ => true
  }

  lemma KeptIndexed(st: CacheState, after: CacheState)
    requires PodsIndexed(st.clusters, st.pods) && PodsKept(st, after)
    ensures PodsIndexed(after.clusters, after.pods)
  {
  }

  lemma DetachIndexed(cs: ClusterMap, index: Index, pod: Pod)
    requires PodsIndexed(cs, index) && pod.Key() in index && index[pod.Key()].cluster == pod.cluster && pod.cluster in cs
    ensures DetachPod(cs, pod).Some? && PodsIndexed(DetachPod(cs, pod).value, index - {pod.Key()})
  {
  }

  lemma AttachIndexed(cs: ClusterMap, index: Index, pod: Pod)
    requires PodsIndexed(cs, index) && pod.Key() !in index && AttachPod(cs, pod).Some?
    ensures PodsIndexed(AttachPod(cs, pod).value, index[pod.Key() := pod])
  {
  }

  lemma MoreIndexed(cs: ClusterMap, index: Index, key: PodKey, pod: Pod)
    ensures PodsIndexed(cs, index - {key}) ==> PodsIndexed(cs, index)
    ensures key in index && index[key].cluster == pod.cluster && PodsIndexed(cs, index) ==> PodsIndexed(cs, index[key := pod])
  {
  }

  lemma AddPodIndexed(st: CacheState, pod: Pod)
    requires PodsIndexed(st.clusters, st.pods)
    requires pod.Key() in st.pods ==> st.pods[pod.Key()].Key() == pod.Key()
    ensures PodsIndexed(AddPodTo(st, pod).st.clusters, AddPodTo(st, pod).st.pods)
  {
    var key := pod.Key();
    if key !in st.pods {
      if AttachPod(st.clusters, pod).Some? {
        AttachIndexed(st.clusters, st.pods, pod);
      }
    } else if st.pods[key].cluster == pod.cluster {
      MoreIndexed(st.clusters, st.pods, key, pod);
    } else if st.pods[key].cluster in st.clusters {
      var cur := st.pods[key];
      DetachIndexed(st.clusters, st.pods, cur);
      var ds := DetachPod(st.clusters, cur).value;
      MoreIndexed(ds, st.pods, key, pod);
      if AttachPod(ds, pod).Some? {
        AttachIndexed(ds, st.pods - {key}, pod);
        assert (st.pods - {key})[key := pod] == st.pods[key := pod];
      }
    }
  }

  /** Index entries are filed under their own key. */
  predicate FiledByKey(index: Index) {
    forall key :: key in index ==> index[key].Key() == key
  }

  ghost predicate PodsOk(st: CacheState) {
    PodsIndexed(st.clusters, st.pods) && FiledByKey(st.pods)
  }

  lemma PodStepIndexed(st: CacheState, op: Op)
    requires PodsOk(st) && PodAllowed(st, op) && (op.AddPod? || op.RemovePod?)
    ensures PodsOk(Step(st, op).st)
  {
    if op.AddPod? {
      AddPodIndexed(st, op.pod);
    } else if op.pod.Key() in st.pods && op.pod.cluster in st.clusters {
      DetachIndexed(st.clusters, st.pods, op.pod);
    }
  }

  lemma ClusterStepIndexed(st: CacheState, op: Op)
    requires PodsOk(st) && PodAllowed(st, op)
    requires op.AddCluster? || op.RemoveCluster? || op.GarbageCollection? || op.UpdateClusterCapacity?
             || op.AddProvision? || op.RemoveProvision? || op.AddTenant?
    ensures PodsOk(Step(st, op).st)
  {
    if !op.AddCluster? {
      ListingsKept(st.clusters, Step(st, op).st.clusters, st.pods);
    }
  }

  /** No cluster lists more pods than before. */
  lemma ListingsKept(cs: ClusterMap, ds: ClusterMap, index: Index)
    requires PodsIndexed(cs, index)
    requires forall n :: n in ds ==> n in cs && ds[n].pods == cs[n].pods
    ensures PodsIndexed(ds, index)
  {
  }

  lemma StepIndexed(st: CacheState, op: Op)
    requires PodsOk(st) && PodAllowed(st, op)
    ensures PodsOk(Step(st, op).st)
  {
    match op
    case RemoveTenant(t, order) => RemoveTenantPods(st, t, order); KeptIndexed(st, Step(st, op).st);
    case AddNamespace(ns) =>
      AddNsPods(st, ns);
      if ns.Key() in st.namespaces {
        UpdateNsPods(st, st.namespaces[ns.Key()], ns);
      }
      KeptIndexed(st, Step(st, op).st);
    case UpdateNamespace(o, n) => UpdateNsPods(st, o, n); KeptIndexed(st, Step(st, op).st);
    case RemoveNamespace(ns) => RemoveNsPods(st, ns); KeptIndexed(st, Step(st, op).st);
    case AddPod(pod) => PodStepIndexed(st, op);
    case RemovePod(pod) => PodStepIndexed(st, op);
    case _ => ClusterStepIndexed(st, op);
  }

  ghost predicate PodAllowedRun(st: CacheState, ops: seq<Op>)
    decreases |ops|
  {
    ops == [] || (PodAllowed(st, ops[0]) && PodAllowedRun(Step(st, ops[0]).st, ops[1..]))
  }

  /** The listings agree with the index after every run. */
  lemma {:induction false} RunIndexed(st: CacheState, ops: seq<Op>)
    requires PodsOk(st) && PodAllowedRun(st, ops)
    ensures PodsOk(Run(st, ops))
    decreases |ops|
  {
    if ops != [] {
      StepIndexed(st, ops[0]);
      RunIndexed(Step(st, ops[0]).st, ops[1..]);
    }
  }

  // ---------- exactly when index and lists stay together ----------

  /** Every pod indexed with a cached cluster is listed there: the converse of `PodsIndexed`. */
  predicate PodsListed(cs: ClusterMap, index: Index) {
    forall key :: key in index ==> ListedAt(cs, key, index[key].cluster)
  }

  predicate ListedAt(cs: ClusterMap, key: PodKey, n: string) {
    n in cs ==> key.name in PodsOf(cs[n].pods, key.ns)
  }

  /** The pod would leave a cached cluster for one that does not take it. */
  predicate LosesMove(st: CacheState, pod: Pod) {
    && pod.Key() in st.pods && st.pods[pod.Key()].cluster != pod.cluster
    && st.pods[pod.Key()].cluster in st.clusters
    && !Accepts(st.clusters, pod.cluster)
  }

  lemma DetachListed(cs: ClusterMap, index: Index, pod: Pod)
    requires PodsListed(cs, index) && DetachPod(cs, pod).Some?
    ensures PodsListed(DetachPod(cs, pod).value, index - {pod.Key()})
    ensures !ListedAt(DetachPod(cs, pod).value, pod.Key(), pod.cluster)
  {
    var ds := DetachPod(cs, pod).value;
    forall key | key in index && key != pod.Key()
      ensures ListedAt(ds, key, index[key].cluster)
    {
      assert ListedAt(cs, key, index[key].cluster);
    }
  }

  lemma AttachListed(cs: ClusterMap, index: Index, pod: Pod)
    requires PodsListed(cs, index - {pod.Key()}) && AttachPod(cs, pod).Some?
    ensures PodsListed(AttachPod(cs, pod).value, index[pod.Key() := pod])
  {
    var ds := AttachPod(cs, pod).value;
    forall key | key in index && key != pod.Key()
      ensures ListedAt(ds, key, index[key].cluster)
    {
      assert key in index - {pod.Key()};
      assert ListedAt(cs, key, index[key].cluster);
    }
  }

  lemma MovedListed(st: CacheState, pod: Pod)
    requires PodsListed(st.clusters, st.pods) && FiledByKey(st.pods)
    requires pod.Key() in st.pods && st.pods[pod.Key()].cluster != pod.cluster && st.pods[pod.Key()].cluster in st.clusters
    ensures PodsListed(AddPodTo(st, pod).st.clusters, AddPodTo(st, pod).st.pods) <==> !LosesMove(st, pod)
  {
    var cur := st.pods[pod.Key()];
    DetachListed(st.clusters, st.pods, cur);
    var ds := DetachPod(st.clusters, cur).value;
    assert pod.cluster in ds ==> ds[pod.cluster] == st.clusters[pod.cluster];
    if AttachPod(ds, pod).Some? {
      AttachListed(ds, st.pods, pod);
    }
  }

  /** `AddPod` keeps every indexed pod listed, except for a move from a cached cluster to one that does not take the pod. */
  lemma AddPodListedIff(st: CacheState, pod: Pod)
    requires PodsListed(st.clusters, st.pods) && FiledByKey(st.pods)
    ensures PodsListed(AddPodTo(st, pod).st.clusters, AddPodTo(st, pod).st.pods) <==> !LosesMove(st, pod)
  {
    var key := pod.Key();
    if key !in st.pods {
      if AttachPod(st.clusters, pod).Some? {
        assert st.pods - {key} == st.pods;
        AttachListed(st.clusters, st.pods, pod);
      }
    } else if st.pods[key].cluster == pod.cluster {
      assert ListedAt(st.clusters, key, pod.cluster);
    } else if st.pods[key].cluster in st.clusters {
      MovedListed(st, pod);
    }
  }

  /** The caller names another cached cluster than the one that lists the pod. */
  predicate Dangles(st: CacheState, pod: Pod) {
    && pod.Key() in st.pods && pod.cluster in st.clusters
    && st.pods[pod.Key()].cluster != pod.cluster && st.pods[pod.Key()].cluster in st.clusters
    && pod.name in PodsOf(st.clusters[st.pods[pod.Key()].cluster].pods, pod.NamespaceKey())
  }

  /** `RemovePod` keeps every listed pod indexed, except when it detaches the pod from another cluster than its own. */
  lemma RemovePodIndexedIff(st: CacheState, pod: Pod)
    requires PodsIndexed(st.clusters, st.pods)
    ensures PodsIndexed(RemovePodFrom(st, pod).st.clusters, RemovePodFrom(st, pod).st.pods) <==> !Dangles(st, pod)
  {
    var after := RemovePodFrom(st, pod).st;
    if pod.Key() in st.pods && pod.cluster in st.clusters {
      var n := st.pods[pod.Key()].cluster;
      if Dangles(st, pod) {
        assert after.clusters[n] == st.clusters[n];
        assert pod.name in after.clusters[n].pods[pod.NamespaceKey()];
      } else {
        forall m, key, name | m in after.clusters && key in after.clusters[m].pods && name in after.clusters[m].pods[key]
          ensures PodKey(key, name) in after.pods && after.pods[PodKey(key, name)].cluster == m
        {
          assert key in st.clusters[m].pods && name in st.clusters[m].pods[key];
        }
      }
    }
  }

  /** The other halves hold always: adding keeps listed pods indexed, removing keeps indexed pods listed. */
  lemma OtherHalvesKept(st: CacheState, pod: Pod)
    requires PodsListed(st.clusters, st.pods) && PodsOk(st)
    ensures PodsIndexed(AddPodTo(st, pod).st.clusters, AddPodTo(st, pod).st.pods)
    ensures PodsListed(RemovePodFrom(st, pod).st.clusters, RemovePodFrom(st, pod).st.pods)
  {
    AddPodIndexed(st, pod);
    if pod.Key() in st.pods && pod.cluster in st.clusters {
      DetachListed(st.clusters, st.pods, pod);
    }
  }

  /** What a lost move leaves behind: the pod stays indexed with a cluster that no longer lists it. */
  lemma FailedMoveUnlists(st: CacheState, pod: Pod)
    requires FiledByKey(st.pods) && LosesMove(st, pod)
    ensures var r := AddPodTo(st, pod);
            var cur := st.pods[pod.Key()];
            && !r.ok && r.st.pods == st.pods
            && pod.name !in PodsOf(r.st.clusters[cur.cluster].pods, pod.NamespaceKey())
  {
    var cur := st.pods[pod.Key()];
    assert DetachPod(st.clusters, cur).Some?;
  }

  /** What a mismatched removal leaves behind: the pod is listed where it was, without an index entry. */
  lemma MismatchedRemovalDangles(st: CacheState, pod: Pod)
    requires FiledByKey(st.pods) && Dangles(st, pod)
    ensures var r := RemovePodFrom(st, pod);
            var cur := st.pods[pod.Key()];
            && r.ok && pod.Key() !in r.st.pods && cur.cluster in r.st.clusters
            && pod.name in PodsOf(r.st.clusters[cur.cluster].pods, pod.NamespaceKey())
  {
    var cur := st.pods[pod.Key()];
    assert RemovePodFrom(st, pod).st.clusters[cur.cluster] == st.clusters[cur.cluster];
  }
}
