/** Pods are placed inside the slices their namespace holds. */
module PodScheduling {
  import opened Sums
  import opened Resources
  import opened Clusters
  import opened CacheModel
  import opened CacheTransactions
  import opened Snapshot
  import opened Algorithm
  import opened NamespaceSnapshot
  import opened SchedulerCaches

  // ---------- the snapshot ----------

  function Scaled(slice: ResourceList, num: int): map<Res, int> {
    map k | k in slice :: slice[k] * num
  }

  /** What a namespace may use in a cluster: its slices there, nothing used yet. */
  function Share(ns: Namespace, num: int): ClusterUsage {
    ClusterUsage(Scaled(ns.quotaSlice, num), Zero(ns.quotaSlice), map[])
  }

  /** One entry per cluster in the schedule; a later placement on the same cluster replaces an earlier one. */
  function Shares(ns: Namespace): UsageMap {
    var m := PlacementMap(ns.schedule);
    map c | c in m :: Share(ns, m[c])
  }

  /** The namespace has slices on `n`, as many as its last placement there says, and `need` is within them. */
  ghost predicate Within(ns: Namespace, n: string, need: map<Res, int>) {
    exists j :: LastOn(ns.schedule, j, n) && Affords(ns, ns.schedule[j].num, need)
  }

  predicate Affords(ns: Namespace, num: int, need: map<Res, int>) {
    forall k :: k in ns.quotaSlice ==> k in need && need[k] <= num * ns.quotaSlice[k]
  }

  /** The snapshot's entry for a cluster offers just that. */
  lemma SharesMean(ns: Namespace, n: string, need: map<Res, int>)
    ensures n in Shares(ns) <==> n in Names(ns.schedule)
    ensures forall j :: LastOn(ns.schedule, j, n) ==> n in Shares(ns) && Offers(ns, Shares(ns)[n], ns.schedule[j].num)
    ensures Within(ns, n, need) <==>
            n in Shares(ns) && forall k :: k in ns.quotaSlice ==> k in need && need[k] <= Shares(ns)[n].capacity[k]
  {
    forall j | LastOn(ns.schedule, j, n)
      ensures n in Shares(ns) && Offers(ns, Shares(ns)[n], ns.schedule[j].num)
    {
      PlacementMapLast(ns.schedule, j, n);
    }
    if n in Names(ns.schedule) {
      var j := SomeLast(ns.schedule, n);
      assert LastOn(ns.schedule, j, n);
    }
  }

  /** Capacity is `num` slices; nothing is used yet. */
  predicate Offers(ns: Namespace, u: ClusterUsage, num: int) {
    && u.capacity.Keys == ns.quotaSlice.Keys && u.alloc.Keys == ns.quotaSlice.Keys && u.provision == map[]
    && forall k :: k in ns.quotaSlice ==> u.capacity[k] == num * ns.quotaSlice[k] && u.alloc[k] == 0
  }

  /** A pod listed under a cluster, by cluster name and pod name. */
  type Entry = (string, string)

  /** All listed pods of a namespace other than the one being scheduled. */
  function Others(cs: ClusterMap, key: NsKey, self: string): set<Entry> {
    set n, name | n in cs && name in PodsOf(cs[n].pods, key) && name != self :: (n, name)
  }

  type Index = map<PodKey, Pod>

  predicate Countable(index: Index, key: NsKey, shares: UsageMap, e: Entry) {
    PodKey(key, e.1) in index && index[PodKey(key, e.1)].cluster in shares
  }

  function Charge(index: Index, key: NsKey, e: Entry, cluster: string, k: Res): nat {
    if PodKey(key, e.1) in index && index[PodKey(key, e.1)].cluster == cluster
    then Amount(index[PodKey(key, e.1)].request, k) else 0
  }

  function Charges(index: Index, key: NsKey, entries: set<Entry>, cluster: string, k: Res): map<Entry, int> {
    map e | e in entries :: Charge(index, key, e, cluster, k)
  }

  /** What the entries are charged to `cluster`, by the cluster their index entry names. */
  ghost function Charged(index: Index, key: NsKey, entries: set<Entry>, cluster: string, k: Res): nat {
    SumBounds(Charges(index, key, entries, cluster, k));
    Sum(Charges(index, key, entries, cluster, k))
  }

  lemma ChargedSplit(index: Index, key: NsKey, entries: set<Entry>, e: Entry, cluster: string, k: Res)
    requires e in entries
    ensures Charged(index, key, entries, cluster, k)
            == Charge(index, key, e, cluster, k) + Charged(index, key, entries - {e}, cluster, k)
  {
    SumSplit(Charges(index, key, entries, cluster, k), e);
    assert Charges(index, key, entries, cluster, k) - {e} == Charges(index, key, entries - {e}, cluster, k);
  }

  ghost predicate Tallied(u: UsageMap, ns: Namespace, index: Index, done: set<Entry>) {
    u.Keys == Shares(ns).Keys && forall c :: c in u ==> TalliedAt(u[c], ns, index, done, c)
  }

  ghost predicate TalliedAt(uc: ClusterUsage, ns: Namespace, index: Index, done: set<Entry>, c: string) {
    && c in Shares(ns) && uc.capacity == Shares(ns)[c].capacity && uc.provision == map[]
    && uc.alloc.Keys == ns.quotaSlice.Keys
    && forall k :: k in ns.quotaSlice ==> uc.alloc[k] == Charged(index, ns.Key(), done, c, k)
  }

  /** One more request; resources the slices do not have are passed over. */
  function Charging(alloc: ResourceList, request: ResourceList): ResourceList {
    map k | k in alloc :: alloc[k] + Amount(request, k)
  }

  /** One more entry, charged to the cluster its index entry names. */
  lemma TalliedOne(uc: ClusterUsage, vc: ClusterUsage, ns: Namespace, index: Index, done: set<Entry>, e: Entry, c: string)
    requires TalliedAt(uc, ns, index, done, c) && e !in done && PodKey(ns.Key(), e.1) in index
    requires var p := index[PodKey(ns.Key(), e.1)];
             vc == if p.cluster == c then uc.(alloc := Charging(uc.alloc, p.request)) else uc
    ensures TalliedAt(vc, ns, index, done + {e}, c)
  {
    forall k | k in ns.quotaSlice
      ensures vc.alloc[k] == Charged(index, ns.Key(), done + {e}, c, k)
    {
      ChargedSplit(index, ns.Key(), done + {e}, e, c, k);
      assert done + {e} - {e} == done;
    }
  }

  method AddRequest(alloc: ResourceList, request: ResourceList) returns (r: ResourceList)
    ensures r == Charging(alloc, request)
  {
    r := alloc;
    var todo := request.Keys;
    while todo != {}
      invariant todo <= request.Keys && r.Keys == alloc.Keys
      invariant forall k :: k in alloc ==> r[k] == alloc[k] + if k in todo then 0 else Amount(request, k)
      decreases todo
    {
      var k :| k in todo;
      todo := todo - {k};
      if k in r {
        r := r[k := r[k] + request[k]];
      }
    }
  }

  lemma TalliedStep(u: UsageMap, v: UsageMap, ns: Namespace, index: Index, done: set<Entry>, e: Entry)
    requires Tallied(u, ns, index, done) && e !in done && Countable(index, ns.Key(), u, e)
    requires var p := index[PodKey(ns.Key(), e.1)];
             v == u[p.cluster := u[p.cluster].(alloc := Charging(u[p.cluster].alloc, p.request))]
    ensures Tallied(v, ns, index, done + {e})
  {
    forall c | c in v
      ensures TalliedAt(v[c], ns, index, done + {e}, c)
    {
      TalliedOne(u[c], v[c], ns, index, done, e, c);
    }
  }

  /** Accumulates the listed pods in any order; one that the index or the schedule does not know is an error. */
  method Accumulate(entries: set<Entry>, ns: Namespace, index: Index) returns (r: Option<UsageMap>)
    ensures r.Some? <==> forall e :: e in entries ==> Countable(index, ns.Key(), Shares(ns), e)
    ensures r.Some? ==> Tallied(r.value, ns, index, entries)
  {
    var u := Shares(ns);
    var todo := entries;
    ghost var done: set<Entry> := {};
    while todo != {}
      invariant todo + done == entries && todo !! done
      invariant Tallied(u, ns, index, done)
      invariant forall e :: e in done ==> Countable(index, ns.Key(), Shares(ns), e)
      decreases todo
    {
      var e :| e in todo;
      todo := todo - {e};
      var key := PodKey(ns.Key(), e.1);
      if key !in index || index[key].cluster !in u {
        return None;
      }
      var p := index[key];
      var sum := AddRequest(u[p.cluster].alloc, p.request);
      var v := u[p.cluster := u[p.cluster].(alloc := sum)];
      TalliedStep(u, v, ns, index, done, e);
      u := v;
      done := done + {e};
    }
    return Some(u);
  }

  /** The nested loops over the clusters and the pods listed in them. */
  method ListedPods(c: SchedulerCache, key: NsKey, self: string, ghost cs: ClusterMap) returns (entries: set<Entry>)
    requires c.Valid() && cs == c.View()
    ensures entries == Others(cs, key, self)
  {
    entries := {};
    var todo := c.clusters.Keys;
    while todo != {}
      invariant todo <= c.clusters.Keys
      invariant forall e: Entry :: e in entries <==>
                  e.0 in cs && e.0 !in todo && e.1 in PodsOf(cs[e.0].pods, key) && e.1 != self
      decreases todo
    {
      var n :| n in todo;
      todo := todo - {n};
      var here := PodsOf(c.clusters[n].pods, key);
      assert cs[n] == c.clusters[n].State();
      entries := entries + set name | name in here && name != self :: (n, name);
    }
    assert forall e: Entry :: e in entries <==> e in Others(cs, key, self);
  }

  method SnapshotForPodSched(c: SchedulerCache, pod: Pod, ghost st: CacheState) returns (r: Option<UsageMap>)
    requires c.Valid() && st == c.State()
    ensures var key := pod.NamespaceKey();
            r.Some? <==>
              && key in st.namespaces
              && forall e :: e in Others(st.clusters, key, pod.name) ==> Countable(st.pods, key, Shares(st.namespaces[key]), e)
    ensures r.Some? ==> Tallied(r.value, st.namespaces[pod.NamespaceKey()], st.pods, Others(st.clusters, pod.NamespaceKey(), pod.name))
    ensures r.Some? ==> SliceCapacities(st.namespaces[pod.NamespaceKey()], r.value)
  {
    var key := pod.NamespaceKey();
    if key !in c.namespaces {
      return None;
    }
    var ns := c.namespaces[key];
    assert ns.Key() == key;
    var entries := ListedPods(c, key, pod.name, st.clusters);
    r := Accumulate(entries, ns, c.pods);
    if r.Some? {
      TalliedCapacities(ns, c.pods, entries, r.value);
    }
  }

  /** One entry for each cluster in the schedule, with the capacity of the slices the last placement there asks for. */
  ghost predicate SliceCapacities(ns: Namespace, u: UsageMap) {
    && u.Keys == Names(ns.schedule)
    && forall j, n :: LastOn(ns.schedule, j, n) ==> n in u && HasCapacity(ns, u[n], ns.schedule[j].num)
  }

  predicate HasCapacity(ns: Namespace, u: ClusterUsage, num: int) {
    u.capacity.Keys == ns.quotaSlice.Keys && forall k :: k in ns.quotaSlice ==> u.capacity[k] == num * ns.quotaSlice[k]
  }

  lemma TalliedCapacities(ns: Namespace, index: Index, done: set<Entry>, u: UsageMap)
    requires Tallied(u, ns, index, done)
    ensures SliceCapacities(ns, u)
  {
    forall j, n | LastOn(ns.schedule, j, n)
      ensures n in u && HasCapacity(ns, u[n], ns.schedule[j].num)
    {
      SharesMean(ns, n, map[]);
    }
  }

  /** First fit; when nothing fits the shadowed error variable makes the answer the empty name. */
  method FirstFit(pod: Pod, u: UsageMap) returns (name: string)
    ensures (name in u && Fits(pod.request, u[name])) || (name == "" && forall n :: n in u ==> !Fits(pod.request, u[n]))
  {
    var todo := u.Keys;
    while todo != {}
      invariant todo <= u.Keys
      invariant forall n :: n in u && n !in todo ==> !Fits(pod.request, u[n])
      decreases todo
    {
      var n :| n in todo;
      todo := todo - {n};
      var ok := FitSlice(pod.request, u[n]);
      if ok {
        return n;
      }
    }
    return "";
  }

  // ---------- the bound ----------

  /** Every pod listed under a cluster is indexed with that cluster. */
  predicate PodsIndexed(cs: ClusterMap, index: Index) {
    forall n, key, name :: n in cs && key in cs[n].pods && name in cs[n].pods[key] ==>
      PodKey(key, name) in index && index[PodKey(key, name)].cluster == n
  }

  function RequestOf(index: Index, key: PodKey, k: Res): nat {
    if key in index then Amount(index[key].request, k) else 0
  }

  function RequestsOf(index: Index, key: NsKey, names: set<string>, k: Res): map<string, int> {
    map x | x in names :: RequestOf(index, PodKey(key, x), k)
  }

  /** The summed requests of the named pods of one namespace. */
  ghost function Requested(index: Index, key: NsKey, names: set<string>, k: Res): nat {
    SumBounds(RequestsOf(index, key, names, k));
    Sum(RequestsOf(index, key, names, k))
  }

  lemma RequestedSplit(index: Index, key: NsKey, names: set<string>, x: string, k: Res)
    requires x in names
    ensures Requested(index, key, names, k) == RequestOf(index, PodKey(key, x), k) + Requested(index, key, names - {x}, k)
  {
    SumSplit(RequestsOf(index, key, names, k), x);
    assert RequestsOf(index, key, names, k) - {x} == RequestsOf(index, key, names - {x}, k);
  }

  function NamesAt(entries: set<Entry>, n: string): set<string> {
    set e | e in entries && e.0 == n :: e.1
  }

  /** With the index in agreement, the charge to a cluster is the sum over the pods listed there. */
  lemma {:induction false} ChargedIsRequested(index: Index, key: NsKey, entries: set<Entry>, n: string, k: Res)
    requires forall e :: e in entries ==> PodKey(key, e.1) in index && index[PodKey(key, e.1)].cluster == e.0
    ensures Charged(index, key, entries, n, k) == Requested(index, key, NamesAt(entries, n), k)
    decreases entries
  {
    if entries == {} {
      assert NamesAt(entries, n) == {};
    } else {
      var e :| e in entries;
      var rest := entries - {e};
      ChargedSplit(index, key, entries, e, n, k);
      ChargedIsRequested(index, key, rest, n, k);
      if e.0 == n {
        assert e.1 !in NamesAt(rest, n) by {
          assert forall f :: f in rest && f.0 == n && f.1 == e.1 ==> f == e;
        }
        assert NamesAt(entries, n) - {e.1} == NamesAt(rest, n);
        RequestedSplit(index, key, NamesAt(entries, n), e.1, k);
      } else {
        assert NamesAt(entries, n) == NamesAt(rest, n);
      }
    }
  }

  lemma RequestedSame(index: Index, index': Index, key: NsKey, names: set<string>, k: Res)
    requires forall x :: x in names ==> RequestOf(index, PodKey(key, x), k) == RequestOf(index', PodKey(key, x), k)
    ensures Requested(index, key, names, k) == Requested(index', key, names, k)
  {
    assert RequestsOf(index, key, names, k) == RequestsOf(index', key, names, k);
  }

  /** After `AddPod`, the pod and the pods listed beside it request what the others were charged, and the pod's own. */
  lemma RequestedAfter(st: CacheState, pod: Pod, k: Res)
    requires PodsIndexed(st.clusters, st.pods) && AddPodTo(st, pod).ok
    ensures var after, key := AddPodTo(st, pod).st, pod.NamespaceKey();
            Requested(after.pods, key, ListedWith(after, pod), k)
            == Charged(st.pods, key, Others(st.clusters, key, pod.name), pod.cluster, k) + Amount(pod.request, k)
  {
    var after, key := AddPodTo(st, pod).st, pod.NamespaceKey();
    var others := NamesAt(Others(st.clusters, key, pod.name), pod.cluster);
    ChargedIsRequested(st.pods, key, Others(st.clusters, key, pod.name), pod.cluster, k);
    ListedAfter(st, pod);
    assert ListedWith(after, pod) - {pod.name} == others;
    RequestedSplit(after.pods, key, ListedWith(after, pod), pod.name, k);
    RequestedSame(st.pods, after.pods, key, others, k);
  }

  /** After `AddPod`, the pods listed in the chosen cluster and the new one stay within the slices placed there. */
  lemma WithinSlices(st: CacheState, ns: Namespace, pod: Pod, u: UsageMap)
    requires PodsIndexed(st.clusters, st.pods) && ns.Key() == pod.NamespaceKey()
    requires Tallied(u, ns, st.pods, Others(st.clusters, ns.Key(), pod.name))
    requires pod.cluster in u && Fits(pod.request, u[pod.cluster]) && AddPodTo(st, pod).ok
    ensures var after := AddPodTo(st, pod).st;
            exists j :: LastOn(ns.schedule, j, pod.cluster) &&
              forall k :: k in ns.quotaSlice ==>
                Requested(after.pods, ns.Key(), ListedWith(after, pod), k) <= ns.schedule[j].num * ns.quotaSlice[k]
  {
    var after := AddPodTo(st, pod).st;
    var need := RequestedIn(ns, after.pods, ns.Key(), ListedWith(after, pod));
    forall k | k in ns.quotaSlice
      ensures need[k] <= Shares(ns)[pod.cluster].capacity[k]
    {
      FitsWithinCapacity(u[pod.cluster], pod.request, k);
      RequestedAfter(st, pod, k);
    }
    SharesMean(ns, pod.cluster, need);
  }

  /** The summed requests, for each resource of the namespace's slice. */
  ghost function RequestedIn(ns: Namespace, index: Index, key: NsKey, names: set<string>): map<Res, int> {
    map k | k in ns.quotaSlice :: Requested(index, key, names, k)
  }

  /** The pod and the pods of its namespace listed in its cluster. */
  function ListedWith(st: CacheState, pod: Pod): set<string> {
    (if pod.cluster in st.clusters then PodsOf(st.clusters[pod.cluster].pods, pod.NamespaceKey()) else {}) + {pod.name}
  }

  lemma ListedAfter(st: CacheState, pod: Pod)
    requires AddPodTo(st, pod).ok
    ensures ListedWith(AddPodTo(st, pod).st, pod) - {pod.name}
            == NamesAt(Others(st.clusters, pod.NamespaceKey(), pod.name), pod.cluster)
  {
    var after := AddPodTo(st, pod).st;
    var key := pod.NamespaceKey();
    if pod.cluster in st.clusters {
      assert NamesAt(Others(st.clusters, key, pod.name), pod.cluster)
             == PodsOf(st.clusters[pod.cluster].pods, key) - {pod.name} by {
        forall x | x in PodsOf(st.clusters[pod.cluster].pods, key) && x != pod.name
          ensures x in NamesAt(Others(st.clusters, key, pod.name), pod.cluster)
        {
          assert (pod.cluster, x) in Others(st.clusters, key, pod.name);
        }
      }
    } else {
      assert NamesAt(Others(st.clusters, key, pod.name), pod.cluster) == {};
    }
  }

  // ---------- the operation ----------

  /** The snapshot is accepted: the namespace is cached, and its listed pods are indexed with one of its placements. */
  predicate Schedulable(st: CacheState, pod: Pod) {
    var key := pod.NamespaceKey();
    && key in st.namespaces
    && forall e :: e in Others(st.clusters, key, pod.name) ==> Countable(st.pods, key, Shares(st.namespaces[key]), e)
  }

  /** What the namespace's other pods are charged on `n`, and the pod's request. */
  ghost function Demand(st: CacheState, ns: Namespace, pod: Pod, n: string): map<Res, int> {
    map k | k in ns.quotaSlice ::
      Charged(st.pods, ns.Key(), Others(st.clusters, pod.NamespaceKey(), pod.name), n, k) + Amount(pod.request, k)
  }

  /** The slices placed on `n` have room for the pod beside the namespace's other pods. */
  ghost predicate ShareFits(st: CacheState, pod: Pod, n: string)
    requires pod.NamespaceKey() in st.namespaces
  {
    var ns := st.namespaces[pod.NamespaceKey()];
    Within(ns, n, Demand(st, ns, pod, n))
  }

  lemma FitsIsShareFits(st: CacheState, pod: Pod, u: UsageMap, n: string)
    requires pod.NamespaceKey() in st.namespaces
    requires Tallied(u, st.namespaces[pod.NamespaceKey()], st.pods, Others(st.clusters, pod.NamespaceKey(), pod.name))
    ensures n in u && Fits(pod.request, u[n]) <==> ShareFits(st, pod, n)
  {
    var ns := st.namespaces[pod.NamespaceKey()];
    SharesMean(ns, n, Demand(st, ns, pod, n));
    if n in u {
      TalliedFits(u[n], ns, st.pods, Others(st.clusters, pod.NamespaceKey(), pod.name), n, pod.request);
    }
  }

  lemma TalliedFits(uc: ClusterUsage, ns: Namespace, index: Index, done: set<Entry>, n: string, request: ResourceList)
    requires TalliedAt(uc, ns, index, done, n)
    ensures Fits(request, uc) <==> forall k :: k in ns.quotaSlice ==>
              Charged(index, ns.Key(), done, n, k) + Amount(request, k) <= Shares(ns)[n].capacity[k]
  {
    assert uc.capacity.Keys == ns.quotaSlice.Keys;
    forall k | k in ns.quotaSlice
      ensures Amount(MaxAlloc(uc.alloc, uc.provision), k) == Charged(index, ns.Key(), done, n, k)
    {
    }
  }

  /** A placement that fits, or the empty name if there is none. */
  ghost predicate Picked(st: CacheState, pod: Pod, name: string)
    requires pod.NamespaceKey() in st.namespaces
  {
    ShareFits(st, pod, name) || (name == "" && forall n :: !ShareFits(st, pod, n))
  }

  /** The cluster takes pods scheduled to it. */
  predicate Accepts(cs: ClusterMap, n: string) {
    n in cs && cs[n].name == n
  }

  /** `AddPod` succeeds when nothing changes, or when the old cluster, if any, is cached and the new one takes the pod. */
  lemma AddPodOkIff(st: CacheState, pod: Pod)
    ensures var key := pod.Key();
            AddPodTo(st, pod).ok <==>
              || (key in st.pods && st.pods[key].cluster == pod.cluster)
              || (Accepts(st.clusters, pod.cluster) && (key in st.pods ==> st.pods[key].cluster in st.clusters))
  {
  }

  /**
   `RemovePod` succeeds for a pod that is not indexed, without any change, and otherwise exactly when the cluster
   the caller names is cached; that cluster then no longer lists the pod, and its index entry is gone.
   */
  lemma RemovePodOutcome(st: CacheState, pod: Pod)
    ensures var r := RemovePodFrom(st, pod);
            && (pod.Key() !in st.pods ==> r == Outcome(st, true))
            && (pod.Key() in st.pods && pod.cluster !in st.clusters ==> r == Outcome(st, false))
            && (pod.Key() in st.pods && pod.cluster in st.clusters ==>
                  && r.ok && r.st.pods == st.pods - {pod.Key()} && r.st.clusters.Keys == st.clusters.Keys
                  && r.st.namespaces == st.namespaces && r.st.tenants == st.tenants
                  && PodsOf(r.st.clusters[pod.cluster].pods, pod.NamespaceKey()) == PodsOf(st.clusters[pod.cluster].pods, pod.NamespaceKey()) - {pod.name}
                  && forall n :: n in st.clusters && n != pod.cluster ==> r.st.clusters[n] == st.clusters[n])
  {
  }

  /** Nothing fits and no cluster has the empty name: a pod that was running somewhere is unlisted there. */
  lemma NoFitUnlists(st: CacheState, pod: Pod)
    requires pod.Key() in st.pods && st.pods[pod.Key()].Key() == pod.Key()
    requires st.pods[pod.Key()].cluster in st.clusters && "" !in st.clusters
    ensures var r := AddPodTo(st, pod.(cluster := ""));
            var n := st.pods[pod.Key()].cluster;
            !r.ok && r.st.pods == st.pods && n in r.st.clusters && pod.name !in PodsOf(r.st.clusters[n].pods, pod.NamespaceKey())
  {
    assert pod.(cluster := "").Key() == pod.Key();
  }

  /** Where the pod ends up, and within which bounds. */
  ghost predicate PodScheduled(st: CacheState, pod: Pod, result: Pod, after: Outcome)
    requires Schedulable(st, pod)
  {
    var ns := st.namespaces[pod.NamespaceKey()];
    && Picked(st, pod, result.cluster) && after == AddPodTo(st, result)
    && (after.ok && PodsIndexed(st.clusters, st.pods) && result.cluster != "" ==>
          exists j :: LastOn(ns.schedule, j, result.cluster) &&
            forall k :: k in ns.quotaSlice ==>
              Requested(after.st.pods, pod.NamespaceKey(), ListedWith(after.st, result), k) <= ns.schedule[j].num * ns.quotaSlice[k])
  }

  lemma PickedIsBounded(st: CacheState, pod: Pod, u: UsageMap, result: Pod)
    requires Schedulable(st, pod) && result == pod.(cluster := result.cluster)
    requires st.namespaces[pod.NamespaceKey()].Key() == pod.NamespaceKey()
    requires Tallied(u, st.namespaces[pod.NamespaceKey()], st.pods, Others(st.clusters, pod.NamespaceKey(), pod.name))
    requires (result.cluster in u && Fits(pod.request, u[result.cluster])) ||
             (result.cluster == "" && forall n :: n in u ==> !Fits(pod.request, u[n]))
    ensures PodScheduled(st, pod, result, AddPodTo(st, result))
  {
    var ns, name := st.namespaces[pod.NamespaceKey()], result.cluster;
    forall n
      ensures n in u && Fits(pod.request, u[n]) <==> ShareFits(st, pod, n)
    {
      FitsIsShareFits(st, pod, u, n);
    }
    if AddPodTo(st, result).ok && PodsIndexed(st.clusters, st.pods) && name != "" {
      WithinSlices(st, ns, result, u);
    }
  }

  /** Some placement fits, all placements are on clusters that take pods, and an old cluster is cached. */
  ghost predicate PodAssured(st: CacheState, pod: Pod) {
    && Schedulable(st, pod) && (exists n :: ShareFits(st, pod, n))
    && (forall n :: n in Names(st.namespaces[pod.NamespaceKey()].schedule) ==> Accepts(st.clusters, n))
    && (pod.Key() in st.pods ==> st.pods[pod.Key()].cluster in st.clusters)
  }

  lemma AssuredPodIsAdded(st: CacheState, pod: Pod, result: Pod)
    requires PodAssured(st, pod) && Picked(st, pod, result.cluster) && result == pod.(cluster := result.cluster)
    ensures AddPodTo(st, result).ok
  {
    var n :| ShareFits(st, pod, n);
    AddPodOkIff(st, result);
  }

  /** Snapshot and first fit; the cache is only read. */
  method ChooseCluster(c: SchedulerCache, pod: Pod, ghost st: CacheState) returns (r: Option<Pod>)
    requires c.Valid() && st == c.State()
    ensures r.Some? <==> Schedulable(st, pod)
    ensures r.Some? ==>
              r.value == pod.(cluster := r.value.cluster) && PodScheduled(st, pod, r.value, AddPodTo(st, r.value))
    ensures PodAssured(st, pod) ==> r.Some? && AddPodTo(st, r.value).ok
  {
    var u := SnapshotForPodSched(c, pod, st);
    if u.None? {
      return None;
    }
    var name := FirstFit(pod, u.value);
    var result := pod.(cluster := name);
    assert st.namespaces[pod.NamespaceKey()].Key() == pod.NamespaceKey();
    PickedIsBounded(st, pod, u.value, result);
    if PodAssured(st, pod) {
      AssuredPodIsAdded(st, pod, result);
    }
    return Some(result);
  }

  /** The engine's `SchedulePod`. */
  method SchedulePod(c: SchedulerCache, pod: Pod, ghost st: CacheState) returns (result: Pod, ok: bool)
    requires c.Valid() && st == c.State()
    modifies c, c.Objects()
    ensures c.Valid() && result == pod.(cluster := result.cluster)
    ensures !Schedulable(st, pod) ==> !ok && result == pod && c.State() == st
    ensures Schedulable(st, pod) ==> PodScheduled(st, pod, result, Outcome(c.State(), ok))
    ensures PodAssured(st, pod) ==> ok
  {
    var chosen := ChooseCluster(c, pod, st);
    if chosen.None? {
      return pod, false;
    }
    result := chosen.value;
    ok := c.AddPod(result);
  }
}
