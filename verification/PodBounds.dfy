/** Pods stay within the slices of their namespace over whole runs, if the engine places them. */
module PodBounds {
  import opened Resources
  import opened Clusters
  import opened CacheModel
  import opened NamespaceSnapshot
  import opened PodScheduling
  import opened PodRuns

  // ---------- the bound ----------

  /** The pods the cluster lists for the namespace. */
  function PodsAt(cs: ClusterMap, key: NsKey, n: string): set<string> {
    if n in cs then PodsOf(cs[n].pods, key) else {}
  }

  /** The cluster is one of the namespace's placements, whose slices cover what the named pods request. */
  ghost predicate Covered(index: Index, ns: Namespace, key: NsKey, names: set<string>, n: string) {
    Within(ns, n, RequestedIn(ns, index, key, names))
  }

  /** So it is in every cluster that lists pods of a cached namespace. */
  ghost predicate Bounded(st: CacheState) {
    forall key, n :: key in st.namespaces && PodsAt(st.clusters, key, n) != {} ==>
      Covered(st.pods, st.namespaces[key], key, PodsAt(st.clusters, key, n), n)
  }

  lemma {:induction false} RequestedShrinks(index: Index, key: NsKey, names: set<string>, fewer: set<string>, k: Res)
    requires fewer <= names
    ensures Requested(index, key, fewer, k) <= Requested(index, key, names, k)
    decreases names
  {
    if fewer != names {
      var x :| x in names && x !in fewer;
      RequestedSplit(index, key, names, x, k);
      RequestedShrinks(index, key, names - {x}, fewer, k);
    }
  }

  /** If the namespace has slices on `n`, there are no fewer of them, in any resource. */
  predicate NotShrunk(before: Namespace, after: Namespace, n: string) {
    forall i :: 0 <= i < |before.schedule| && LastOn(before.schedule, i, n) ==>
      exists j :: 0 <= j < |after.schedule| && LastOn(after.schedule, j, n) &&
        NoFewer(before, before.schedule[i].num, after, after.schedule[j].num)
  }

  predicate NoFewer(before: Namespace, had: int, after: Namespace, has: int) {
    forall k :: k in after.quotaSlice ==> k in before.quotaSlice && had * before.quotaSlice[k] <= has * after.quotaSlice[k]
  }

  /** Fewer pods with the same requests are covered by placements that did not shrink. */
  lemma CoveredKept(index: Index, index': Index, ns: Namespace, ns': Namespace, key: NsKey, names: set<string>, fewer: set<string>, n: string)
    requires Covered(index, ns, key, names, n) && fewer <= names && NotShrunk(ns, ns', n)
    requires forall x :: x in fewer ==> PodKey(key, x) in index && PodKey(key, x) in index' && index[PodKey(key, x)] == index'[PodKey(key, x)]
    ensures Covered(index', ns', key, fewer, n)
  {
    var i :| LastOn(ns.schedule, i, n) && Affords(ns, ns.schedule[i].num, RequestedIn(ns, index, key, names));
    var j :| 0 <= j < |ns'.schedule| && LastOn(ns'.schedule, j, n) && NoFewer(ns, ns.schedule[i].num, ns', ns'.schedule[j].num);
    forall k | k in ns'.quotaSlice
      ensures Requested(index', key, fewer, k) <= ns'.schedule[j].num * ns'.quotaSlice[k]
    {
      RequestedSame(index, index', key, fewer, k);
      RequestedShrinks(index, key, names, fewer, k);
      assert RequestedIn(ns, index, key, names)[k] <= ns.schedule[i].num * ns.quotaSlice[k];
    }
    assert Affords(ns', ns'.schedule[j].num, RequestedIn(ns', index', key, fewer));
  }

  // ---------- steps that list no new pod ----------

  /** Every pod listed afterwards was listed before, with the same index entry. */
  ghost predicate NoNewPods(st: CacheState, after: CacheState) {
    forall key, n :: NoNewAt(st, after, key, n)
  }

  predicate NoNewAt(st: CacheState, after: CacheState, key: NsKey, n: string) {
    && PodsAt(after.clusters, key, n) <= PodsAt(st.clusters, key, n)
    && forall x :: x in PodsAt(after.clusters, key, n) ==>
         PodKey(key, x) in st.pods && PodKey(key, x) in after.pods && st.pods[PodKey(key, x)] == after.pods[PodKey(key, x)]
  }

  /** A namespace with pods was cached before, and where it has pods it did not give up slices. */
  ghost predicate SlicesKept(st: CacheState, after: CacheState) {
    forall key, n :: key in after.namespaces && PodsAt(after.clusters, key, n) != {} ==>
      key in st.namespaces && NotShrunk(st.namespaces[key], after.namespaces[key], n)
  }

  lemma BoundedAtKept(st: CacheState, after: CacheState, key: NsKey, n: string)
    requires Bounded(st) && NoNewAt(st, after, key, n)
    requires key in st.namespaces && key in after.namespaces && NotShrunk(st.namespaces[key], after.namespaces[key], n)
    requires PodsAt(after.clusters, key, n) != {}
    ensures Covered(after.pods, after.namespaces[key], key, PodsAt(after.clusters, key, n), n)
  {
    var names, fewer := PodsAt(st.clusters, key, n), PodsAt(after.clusters, key, n);
    assert names != {};
    CoveredKept(st.pods, after.pods, st.namespaces[key], after.namespaces[key], key, names, fewer, n);
  }

  lemma BoundedKept(st: CacheState, after: CacheState)
    requires Bounded(st) && NoNewPods(st, after) && SlicesKept(st, after)
    ensures Bounded(after)
  {
    forall key, n | key in after.namespaces && PodsAt(after.clusters, key, n) != {}
      ensures Covered(after.pods, after.namespaces[key], key, PodsAt(after.clusters, key, n), n)
    {
      assert NoNewAt(st, after, key, n);
      BoundedAtKept(st, after, key, n);
    }
  }

  lemma KeptIsNoNew(st: CacheState, after: CacheState)
    requires PodsOk(st) && PodsKept(st, after)
    ensures NoNewPods(st, after)
  {
    forall key, n
      ensures NoNewAt(st, after, key, n)
    {
      assert PodsAt(after.clusters, key, n) == PodsAt(st.clusters, key, n);
      ListedIsIndexed(st, key, n);
    }
  }

  lemma ListedIsIndexed(st: CacheState, key: NsKey, n: string)
    requires PodsIndexed(st.clusters, st.pods)
    ensures forall x :: x in PodsAt(st.clusters, key, n) ==> PodKey(key, x) in st.pods && st.pods[PodKey(key, x)].cluster == n
  {
  }

  lemma ClustersNoNew(st: CacheState, after: CacheState)
    requires PodsOk(st) && after.pods == st.pods
    requires forall n :: n in after.clusters ==> after.clusters[n].pods == if n in st.clusters then st.clusters[n].pods else map[]
    ensures NoNewPods(st, after)
  {
    forall key, n
      ensures NoNewAt(st, after, key, n)
    {
      assert PodsAt(after.clusters, key, n) <= PodsAt(st.clusters, key, n);
      ListedIsIndexed(st, key, n);
    }
  }

  /** A pod leaves the cluster it is indexed with. */
  lemma DetachNoNew(st: CacheState, after: CacheState, pod: Pod)
    requires PodsOk(st) && DetachPod(st.clusters, pod).Some? && after.clusters == DetachPod(st.clusters, pod).value
    requires pod.Key() in st.pods && st.pods[pod.Key()].cluster == pod.cluster
    requires after.pods == st.pods || after.pods == st.pods - {pod.Key()}
    ensures NoNewPods(st, after)
  {
    forall key, n
      ensures NoNewAt(st, after, key, n)
    {
      ListedIsIndexed(st, key, n);
      assert PodsAt(after.clusters, key, n) <= PodsAt(st.clusters, key, n);
      assert key == pod.NamespaceKey() ==> pod.name !in PodsAt(after.clusters, key, n);
      assert forall x :: x in PodsAt(after.clusters, key, n) ==> PodKey(key, x) != pod.Key();
    }
  }

  // ---------- a pod that is added ----------

  lemma FailedAddNoNew(st: CacheState, pod: Pod)
    requires PodsOk(st) && !AddPodTo(st, pod).ok
    ensures NoNewPods(st, AddPodTo(st, pod).st)
  {
    var after := AddPodTo(st, pod).st;
    if pod.Key() in st.pods && st.pods[pod.Key()].cluster in st.clusters {
      DetachNoNew(st, after, st.pods[pod.Key()]);
    } else {
      ClustersNoNew(st, after);
    }
  }

  /** Only the pod's own cluster gets a pod it did not list, or a new index entry. */
  lemma ElsewhereNoNew(st: CacheState, pod: Pod, key: NsKey, n: string)
    requires PodsOk(st) && AddPodTo(st, pod).ok
    requires key != pod.NamespaceKey() || n != pod.cluster || pod.name !in PodsAt(AddPodTo(st, pod).st.clusters, key, n)
    ensures NoNewAt(st, AddPodTo(st, pod).st, key, n)
  {
    var after := AddPodTo(st, pod).st;
    AddPodIndexed(st, pod);
    ListedIsIndexed(st, key, n);
    ListedIsIndexed(after, key, n);
    assert PodsAt(after.clusters, key, n) <= PodsAt(st.clusters, key, n);
    assert forall x :: x in PodsAt(after.clusters, key, n) ==> PodKey(key, x) != pod.Key();
  }

  /** The cluster will list the pod, new or moved there, or lists it already. */
  predicate Settles(st: CacheState, pod: Pod) {
    var key := pod.Key();
    if key in st.pods && st.pods[key].cluster == pod.cluster
    then pod.name in PodsAt(st.clusters, pod.NamespaceKey(), pod.cluster)
    else Accepts(st.clusters, pod.cluster) && (key in st.pods ==> st.pods[key].cluster in st.clusters)
  }

  lemma SettlesIff(st: CacheState, pod: Pod)
    ensures Settles(st, pod) <==>
            AddPodTo(st, pod).ok && pod.name in PodsAt(AddPodTo(st, pod).st.clusters, pod.NamespaceKey(), pod.cluster)
  {
    AddPodOkIff(st, pod);
  }

  /** Where the pod settles, it and the pods beside it are covered exactly when it fits beside them. */
  lemma CoveredIffFits(st: CacheState, pod: Pod)
    requires PodsOk(st) && Keyed(st) && pod.NamespaceKey() in st.namespaces && Settles(st, pod)
    ensures var after, key := AddPodTo(st, pod).st, pod.NamespaceKey();
            Covered(after.pods, st.namespaces[key], key, PodsAt(after.clusters, key, pod.cluster), pod.cluster)
            <==> ShareFits(st, pod, pod.cluster)
  {
    SettlesIff(st, pod);
    var after, key := AddPodTo(st, pod).st, pod.NamespaceKey();
    assert PodsAt(after.clusters, key, pod.cluster) == ListedWith(after, pod);
    var ns := st.namespaces[key];
    forall k | k in ns.quotaSlice
      ensures RequestedIn(ns, after.pods, key, ListedWith(after, pod))[k] == Demand(st, ns, pod, pod.cluster)[k]
    {
      RequestedAfter(st, pod, k);
    }
    assert RequestedIn(ns, after.pods, key, ListedWith(after, pod)) == Demand(st, ns, pod, pod.cluster);
  }

  lemma BoundedElsewhere(st: CacheState, pod: Pod, key: NsKey, n: string)
    requires PodsOk(st) && Bounded(st) && AddPodTo(st, pod).ok && key in st.namespaces
    requires key != pod.NamespaceKey() || n != pod.cluster || !Settles(st, pod)
    ensures var after := AddPodTo(st, pod).st;
            PodsAt(after.clusters, key, n) != {} ==> Covered(after.pods, st.namespaces[key], key, PodsAt(after.clusters, key, n), n)
  {
    SettlesIff(st, pod);
    ElsewhereNoNew(st, pod, key, n);
    var after := AddPodTo(st, pod).st;
    if PodsAt(after.clusters, key, n) != {} {
      BoundedAtKept(st, after, key, n);
    }
  }

  /** `AddPod` keeps the bound exactly when a pod of a cached namespace does not settle where it does not fit. */
  lemma AddPodBoundIff(st: CacheState, pod: Pod)
    requires PodsOk(st) && Keyed(st) && Bounded(st)
    ensures Bounded(AddPodTo(st, pod).st) <==>
            (pod.NamespaceKey() in st.namespaces && Settles(st, pod) ==> ShareFits(st, pod, pod.cluster))
  {
    var after, home := AddPodTo(st, pod).st, pod.NamespaceKey();
    SettlesIff(st, pod);
    if !AddPodTo(st, pod).ok {
      FailedAddNoNew(st, pod);
      BoundedKept(st, after);
    } else {
      forall key, n | key in st.namespaces && (key != home || n != pod.cluster || !Settles(st, pod))
        ensures PodsAt(after.clusters, key, n) != {} ==> Covered(after.pods, st.namespaces[key], key, PodsAt(after.clusters, key, n), n)
      {
        BoundedElsewhere(st, pod, key, n);
      }
      if home in st.namespaces && Settles(st, pod) {
        CoveredIffFits(st, pod);
        assert PodsAt(after.clusters, home, pod.cluster) != {};
      }
    }
  }

  // ---------- a pod placed by the engine ----------

  /** What `SchedulePod` hands to `AddPod`; no cluster has the empty name, which stands for no fit. */
  ghost predicate Placed(st: CacheState, pod: Pod) {
    Schedulable(st, pod) && Picked(st, pod, pod.cluster) && "" !in st.clusters
  }

  /** Under the bound, the engine accepts a pod exactly when its namespace is cached. */
  lemma SchedulableIff(st: CacheState, pod: Pod)
    requires PodsOk(st) && Bounded(st)
    ensures Schedulable(st, pod) <==> pod.NamespaceKey() in st.namespaces
  {
    var key := pod.NamespaceKey();
    if key in st.namespaces {
      forall e | e in Others(st.clusters, key, pod.name)
        ensures Countable(st.pods, key, Shares(st.namespaces[key]), e)
      {
        assert e.1 in PodsAt(st.clusters, key, e.0);
        ListedIsIndexed(st, key, e.0);
      }
    }
  }

  lemma PlacedKeepsBound(st: CacheState, pod: Pod)
    requires PodsOk(st) && Keyed(st) && Bounded(st) && Placed(st, pod)
    ensures Bounded(AddPodTo(st, pod).st)
  {
    AddPodBoundIff(st, pod);
  }

  // ---------- namespaces stay filed under their key ----------

  predicate Keyed(st: CacheState) {
    forall key :: key in st.namespaces ==> st.namespaces[key].Key() == key
  }

  lemma AddNsKeyed(st: CacheState, ns: Namespace)
    requires Keyed(st)
    ensures Keyed(AddNs(st, ns).st)
  {
  }

  lemma UpdateNsKeyed(st: CacheState, o: Namespace, n: Namespace)
    requires Keyed(st)
    ensures Keyed(UpdateNs(st, o, n).st)
  {
    var removed := RemoveNs(st, o);
    AddNsKeyed(removed.st, n);
    AddNsKeyed(AddNs(removed.st, n).st, o);
  }

  lemma {:induction false} RemoveEachKeyed(st: CacheState, nss: seq<Namespace>, i: nat)
    requires Keyed(st) && i <= |nss|
    ensures Keyed(RemoveEach(st, nss, i).st)
    decreases |nss| - i
  {
    if i < |nss| && RemoveNs(st, nss[i]).ok {
      RemoveEachKeyed(RemoveNs(st, nss[i]).st, nss, i + 1);
    }
  }

  lemma {:induction false} AddBackKeyed(st: CacheState, nss: seq<Namespace>, lo: nat, hi: nat)
    requires Keyed(st) && lo <= hi <= |nss|
    ensures Keyed(AddBack(st, nss, lo, hi))
    decreases hi
  {
    if lo < hi {
      AddNsKeyed(st, nss[hi - 1]);
      AddBackKeyed(AddNs(st, nss[hi - 1]).st, nss, lo, hi - 1);
    }
  }

  lemma StepKeyed(st: CacheState, op: Op)
    requires Keyed(st)
    ensures Keyed(Step(st, op).st)
  {
    match op
    case RemoveTenant(t, order) =>
      RemoveEachKeyed(st, order, 0);
      var p := RemoveEach(st, order, 0);
      AddBackKeyed(p.st, order, 0, p.done);
    case AddNamespace(ns) =>
      AddNsKeyed(st, ns);
      if ns.Key() in st.namespaces {
        UpdateNsKeyed(st, st.namespaces[ns.Key()], ns);
      }
    case UpdateNamespace(o, n) => UpdateNsKeyed(st, o, n);
    case _ =>
  }

  // ---------- runs ----------

  /** Pods enter through the engine, or are reported again as they are; no namespace gives up slices its pods sit in. */
  ghost predicate Sliced(st: CacheState, op: Op) {
    && PodAllowed(st, op) && SlicesKept(st, Step(st, op).st)
    && (op.AddPod? ==> Placed(st, op.pod) || (op.pod.Key() in st.pods && st.pods[op.pod.Key()] == op.pod))
  }

  lemma NamespaceStepNoNew(st: CacheState, op: Op)
    requires PodsOk(st) && (op.RemoveTenant? || op.AddNamespace? || op.UpdateNamespace? || op.RemoveNamespace?)
    ensures NoNewPods(st, Step(st, op).st)
  {
    match op {
      case RemoveTenant(t, order) => RemoveTenantPods(st, t, order);
      case AddNamespace(ns) =>
        AddNsPods(st, ns);
        if ns.Key() in st.namespaces {
          UpdateNsPods(st, st.namespaces[ns.Key()], ns);
        }
      case UpdateNamespace(o, n) => UpdateNsPods(st, o, n);
      case RemoveNamespace(ns) => RemoveNsPods(st, ns);
    }
    KeptIsNoNew(st, Step(st, op).st);
  }

  lemma RemovePodNoNew(st: CacheState, pod: Pod)
    requires PodsOk(st) && PodAllowed(st, RemovePod(pod))
    ensures NoNewPods(st, RemovePodFrom(st, pod).st)
  {
    var after := RemovePodFrom(st, pod).st;
    if pod.Key() in st.pods && pod.cluster in st.clusters {
      DetachNoNew(st, after, pod);
    } else {
      ClustersNoNew(st, after);
    }
  }

  lemma ClusterStepNoNew(st: CacheState, op: Op)
    requires PodsOk(st) && PodAllowed(st, op)
    requires op.AddCluster? || op.RemoveCluster? || op.GarbageCollection? || op.UpdateClusterCapacity?
             || op.AddProvision? || op.RemoveProvision? || op.AddTenant?
    ensures NoNewPods(st, Step(st, op).st)
  {
    ClustersNoNew(st, Step(st, op).st);
  }

  lemma AgainNothingNew(st: CacheState, pod: Pod)
    requires PodsOk(st) && pod.Key() in st.pods && st.pods[pod.Key()] == pod
    ensures NoNewPods(st, AddPodTo(st, pod).st)
  {
    assert st.pods[pod.Key() := pod] == st.pods;
    ClustersNoNew(st, AddPodTo(st, pod).st);
  }

  lemma StepKeepsBound(st: CacheState, op: Op)
    requires PodsOk(st) && Keyed(st) && Bounded(st) && Sliced(st, op)
    ensures Bounded(Step(st, op).st)
  {
    if op.AddPod? && Placed(st, op.pod) {
      PlacedKeepsBound(st, op.pod);
    } else {
      match op {
        case AddPod(pod) => AgainNothingNew(st, pod);
        case RemovePod(pod) => RemovePodNoNew(st, pod);
        case RemoveTenant(_, _) => NamespaceStepNoNew(st, op);
        case AddNamespace(_) => NamespaceStepNoNew(st, op);
        case UpdateNamespace(_, _) => NamespaceStepNoNew(st, op);
        case RemoveNamespace(_) => NamespaceStepNoNew(st, op);
        case _ => ClusterStepNoNew(st, op);
      }
      BoundedKept(st, Step(st, op).st);
    }
  }

  ghost predicate SlicedRun(st: CacheState, ops: seq<Op>)
    decreases |ops|
  {
    ops == [] || (Sliced(st, ops[0]) && SlicedRun(Step(st, ops[0]).st, ops[1..]))
  }

  /** Over every such run, the pods listed anywhere stay within the slices their namespace has there. */
  lemma {:induction false} RunWithinSlices(st: CacheState, ops: seq<Op>)
    requires PodsOk(st) && Keyed(st) && Bounded(st) && SlicedRun(st, ops)
    ensures PodsOk(Run(st, ops)) && Keyed(Run(st, ops)) && Bounded(Run(st, ops))
    decreases |ops|
  {
    if ops != [] {
      StepIndexed(st, ops[0]);
      StepKeyed(st, ops[0]);
      StepKeepsBound(st, ops[0]);
      RunWithinSlices(Step(st, ops[0]).st, ops[1..]);
    }
  }

  /** From the empty cache: no cluster lists more for a namespace than the slices of its last placement there cover. */
  lemma PodsWithinSlices(ops: seq<Op>, key: NsKey, n: string)
    requires SlicedRun(EMPTY_CACHE, ops)
    ensures var st := Run(EMPTY_CACHE, ops);
            key in st.namespaces && PodsAt(st.clusters, key, n) != {} ==>
              var ns := st.namespaces[key];
              exists j :: LastOn(ns.schedule, j, n) &&
                forall k :: k in ns.quotaSlice ==>
                  Requested(st.pods, key, PodsAt(st.clusters, key, n), k) <= ns.schedule[j].num * ns.quotaSlice[k]
  {
    RunWithinSlices(EMPTY_CACHE, ops);
    var st := Run(EMPTY_CACHE, ops);
    if key in st.namespaces && PodsAt(st.clusters, key, n) != {} {
      var ns, names := st.namespaces[key], PodsAt(st.clusters, key, n);
      var j :| LastOn(ns.schedule, j, n) && Affords(ns, ns.schedule[j].num, RequestedIn(ns, st.pods, key, names));
      assert forall k :: k in ns.quotaSlice ==> RequestedIn(ns, st.pods, key, names)[k] == Requested(st.pods, key, names, k);
    }
  }
}
