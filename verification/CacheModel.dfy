/**
 The scheduler cache as values: what each cache operation does to the tenants, clusters, pods and
 namespaces, including the hand-written rollback loops. `SchedulerCache` in SchedulerCache.dfy is
 the object that runs these operations in place.
 */
module CacheModel {
  import opened Resources
  import opened SliceMath
  import opened Clusters

  datatype Placement = Placement(cluster: string, num: int)

  datatype Namespace = Namespace(
    owner: string, name: string, quota: ResourceList, quotaSlice: ResourceList, schedule: seq<Placement>)
  {
    function Key(): NsKey { NsKey(owner, name) }
  }

  datatype PodKey = PodKey(ns: NsKey, name: string)

  datatype Pod = Pod(owner: string, namespace: string, name: string, request: ResourceList, cluster: string)
  {
    function NamespaceKey(): NsKey { NsKey(owner, namespace) }
    function Key(): PodKey { PodKey(NamespaceKey(), name) }
  }

  type ClusterMap = map<string, ClusterState>

  datatype CacheState = CacheState(
    tenants: set<string>, clusters: ClusterMap, pods: map<PodKey, Pod>, namespaces: map<NsKey, Namespace>)

  const SHADOW_CAPACITY: ResourceList := map["cpu" := 0x7FFF_FFFF, "memory" := 0x7FFF_FFFF * 0x4000_0000]

  function Shadow(name: string): ClusterState {
    NewState(name, SHADOW_CAPACITY).(shadow := true)
  }

  function SlicesFor(key: NsKey, p: Placement, unit: ResourceList): seq<Slice> {
    Copies(if p.num > 0 then p.num else 0, Slice(key, unit, p.cluster))
  }

  function SumNum(schedule: seq<Placement>): int {
    if schedule == [] then 0 else SumNum(schedule[..|schedule| - 1]) + schedule[|schedule| - 1].num
  }

  /** `addNamespaceToCluster`: a missing cluster is created as a shadow, but only kept on success. */
  function Place(cs: ClusterMap, key: NsKey, p: Placement, unit: ResourceList): Option<ClusterMap> {
    if p.num == 0 then Some(cs)
    else
      var c := if p.cluster in cs then cs[p.cluster] else Shadow(p.cluster);
      var r := AddItem(c.name, c.capacity, c.booked, key, SlicesFor(key, p, unit));
      if r.None? then None else Some(cs[p.cluster := c.(booked := r.value)])
  }

  /** `removeNamespaceFromCluster` */
  function Unplace(cs: ClusterMap, key: NsKey, cluster: string): Option<ClusterMap> {
    if cluster !in cs then None
    else
      var r := RemoveItem(cs[cluster].booked, key);
      if r.None? then None else Some(cs[cluster := cs[cluster].(booked := r.value)])
  }

  /** Where a loop over the schedule stopped: placements before `done` went through. */
  datatype Progress = Progress(cs: ClusterMap, done: nat)

  function PlaceFrom(cs: ClusterMap, key: NsKey, schedule: seq<Placement>, unit: ResourceList, i: nat): (r: Progress)
    requires i <= |schedule|
    ensures i <= r.done <= |schedule|
    decreases |schedule| - i
  {
    if i == |schedule| then Progress(cs, i)
    else
      var next := Place(cs, key, schedule[i], unit);
      if next.None? then Progress(cs, i) else PlaceFrom(next.value, key, schedule, unit, i + 1)
  }

  function UnplaceFrom(cs: ClusterMap, key: NsKey, schedule: seq<Placement>, i: nat): (r: Progress)
    requires i <= |schedule|
    ensures i <= r.done <= |schedule|
    decreases |schedule| - i
  {
    if i == |schedule| then Progress(cs, i)
    else
      var next := Unplace(cs, key, schedule[i].cluster);
      if next.None? then Progress(cs, i) else UnplaceFrom(next.value, key, schedule, i + 1)
  }

  /** One placement taken out, an error ignored. */
  function TakeOff(cs: ClusterMap, key: NsKey, cluster: string): ClusterMap {
    var next := Unplace(cs, key, cluster);
    if next.Some? then next.value else cs
  }

  /** One placement put back, an error ignored. */
  function PutBack(cs: ClusterMap, key: NsKey, p: Placement, unit: ResourceList): ClusterMap {
    var next := Place(cs, key, p, unit);
    if next.Some? then next.value else cs
  }

  /** The rollback of a failed addition: placements i-1 down to 0 are removed, errors ignored. */
  function UnplaceBack(cs: ClusterMap, key: NsKey, schedule: seq<Placement>, i: nat): ClusterMap
    requires i <= |schedule|
    decreases i
  {
    if i == 0 then cs else UnplaceBack(TakeOff(cs, key, schedule[i - 1].cluster), key, schedule, i - 1)
  }

  /** The rollback of a failed removal: placements i-1 down to 0 are added again, errors ignored. */
  function PlaceBack(cs: ClusterMap, key: NsKey, schedule: seq<Placement>, unit: ResourceList, i: nat): ClusterMap
    requires i <= |schedule|
    decreases i
  {
    if i == 0 then cs else PlaceBack(PutBack(cs, key, schedule[i - 1], unit), key, schedule, unit, i - 1)
  }

  datatype Outcome = Outcome(st: CacheState, ok: bool)

  /** The number of scheduled slices is what the quota asks for. */
  ghost predicate CountsMatch(ns: Namespace) {
    var need := LeastFit(ns.quota, ns.quotaSlice);
    need.Some? && need.value == SumNum(ns.schedule)
  }

  /** `addNamespaceWithoutLock` */
  ghost function AddNs(st: CacheState, ns: Namespace): Outcome {
    var key := ns.Key();
    if key in st.namespaces || !CountsMatch(ns) then Outcome(st, false)
    else
      var p := PlaceFrom(st.clusters, key, ns.schedule, ns.quotaSlice, 0);
      if p.done == |ns.schedule|
      then Outcome(st.(clusters := p.cs, namespaces := st.namespaces[key := ns]), true)
      else Outcome(st.(clusters := UnplaceBack(p.cs, key, ns.schedule, p.done)), false)
  }

  /** `removeNamespaceWithoutLock`: the schedule walked is the caller's, not the cached one. */
  function RemoveNs(st: CacheState, ns: Namespace): Outcome {
    var key := ns.Key();
    if key !in st.namespaces then Outcome(st, false)
    else
      var p := UnplaceFrom(st.clusters, key, ns.schedule, 0);
      if p.done == |ns.schedule|
      then Outcome(st.(clusters := p.cs, namespaces := st.namespaces - {key}), true)
      else Outcome(st.(clusters := PlaceBack(p.cs, key, ns.schedule, ns.quotaSlice, p.done)), false)
  }

  /** `updateNamespaceWithoutLock` */
  ghost function UpdateNs(st: CacheState, oldNs: Namespace, newNs: Namespace): Outcome {
    if oldNs.Key() != newNs.Key() then Outcome(st, false)
    else
      var removed := RemoveNs(st, oldNs);
      if !removed.ok then removed
      else
        var added := AddNs(removed.st, newNs);
        if added.ok then added else Outcome(AddNs(added.st, oldNs).st, false)
  }

  /** The removal loop of `RemoveTenant` over the namespaces it collected. */
  datatype TenantProgress = TenantProgress(st: CacheState, done: nat)

  function RemoveEach(st: CacheState, nss: seq<Namespace>, i: nat): (r: TenantProgress)
    requires i <= |nss|
    ensures i <= r.done <= |nss|
    decreases |nss| - i
  {
    if i == |nss| then TenantProgress(st, i)
    else
      var next := RemoveNs(st, nss[i]);
      if next.ok then RemoveEach(next.st, nss, i + 1) else TenantProgress(next.st, i)
  }

  /** The outer rollback: namespaces hi-1 down to lo are added again, errors ignored. */
  ghost function AddBack(st: CacheState, nss: seq<Namespace>, lo: nat, hi: nat): CacheState
    requires lo <= hi <= |nss|
    decreases hi
  {
    if hi == lo then st else AddBack(AddNs(st, nss[hi - 1]).st, nss, lo, hi - 1)
  }

  /** `nss` lists the cached namespaces of tenant `t`, each once, in the map's arbitrary order. */
  ghost predicate Collects(st: CacheState, t: string, nss: seq<Namespace>) {
    && (forall ns :: ns in nss <==> exists key :: key in st.namespaces && st.namespaces[key] == ns && ns.owner == t)
    && (forall i, j :: 0 <= i < j < |nss| ==> nss[i].Key() != nss[j].Key())
  }

  ghost function RemoveTenantOf(st: CacheState, t: string, nss: seq<Namespace>): Outcome {
    var p := RemoveEach(st, nss, 0);
    if p.done == |nss| then Outcome(p.st.(tenants := p.st.tenants - {t}), true)
    else Outcome(AddBack(p.st, nss, 0, p.done), false)
  }

  // ---------- pods ----------

  /** `addPod` without the index: the target cluster must be cached (and carry its own name). */
  function AttachPod(cs: ClusterMap, pod: Pod): Option<ClusterMap> {
    if pod.cluster !in cs || cs[pod.cluster].name != pod.cluster then None
    else Some(cs[pod.cluster := cs[pod.cluster].(pods := List(cs[pod.cluster].pods, pod.NamespaceKey(), pod.name))])
  }

  function DetachPod(cs: ClusterMap, pod: Pod): Option<ClusterMap> {
    if pod.cluster !in cs then None
    else Some(cs[pod.cluster := cs[pod.cluster].(pods := Unlist(cs[pod.cluster].pods, pod.NamespaceKey(), pod.name))])
  }

  datatype Relisting = Relisting(cs: ClusterMap, ok: bool)

  /** A move: out of the old cluster, then into the new one; the first half is not undone. */
  function MovePod(cs: ClusterMap, cur: Pod, pod: Pod): Relisting {
    var detached := DetachPod(cs, cur);
    if detached.None? then Relisting(cs, false) else NewPod(detached.value, pod)
  }

  function NewPod(cs: ClusterMap, pod: Pod): Relisting {
    var attached := AttachPod(cs, pod);
    if attached.None? then Relisting(cs, false) else Relisting(attached.value, true)
  }

  function RelistPod(cs: ClusterMap, index: map<PodKey, Pod>, pod: Pod): Relisting {
    var key := pod.Key();
    if key !in index then NewPod(cs, pod)
    else if index[key].cluster == pod.cluster then Relisting(cs, true)
    else MovePod(cs, index[key], pod)
  }

  /** `AddPod`: if a move fails half-way, the index entry stays. */
  function AddPodTo(st: CacheState, pod: Pod): Outcome {
    var r := RelistPod(st.clusters, st.pods, pod);
    Outcome(st.(clusters := r.cs, pods := if r.ok then st.pods[pod.Key() := pod] else st.pods), r.ok)
  }

  /** `RemovePod`: detaches from the caller's cluster, whatever the index says. */
  function RemovePodFrom(st: CacheState, pod: Pod): Outcome {
    var key := pod.Key();
    if key !in st.pods then Outcome(st, true)
    else
      var detached := DetachPod(st.clusters, pod);
      if detached.None? then Outcome(st, false)
      else Outcome(st.(clusters := detached.value, pods := st.pods - {key}), true)
  }

  // ---------- clusters ----------

  /** `AddCluster`: a known cluster takes the new capacity and provision and stops being a shadow. */
  function AddClusterTo(st: CacheState, c: ClusterState): CacheState {
    var entry := if c.name in st.clusters
                 then st.clusters[c.name].(capacity := c.capacity, shadow := false, provisioned := c.provisioned)
                 else c.(shadow := false);
    st.(clusters := st.clusters[c.name := entry])
  }

  function RemoveClusterFrom(st: CacheState, name: string): Outcome {
    if name in st.clusters then Outcome(st.(clusters := st.clusters - {name}), true) else Outcome(st, false)
  }

  /** `GarbageCollection`: `expired` are the clusters whose last update is more than five minutes old. */
  function CollectGarbage(st: CacheState, expired: set<string>): CacheState {
    st.(clusters := map n | n in st.clusters && !(st.clusters[n].shadow && n in expired) :: st.clusters[n])
  }

  function AddProvisionTo(st: CacheState, cluster: string, key: NsKey, slices: seq<Slice>): Outcome {
    if cluster !in st.clusters then Outcome(st, false)
    else
      var c := st.clusters[cluster];
      var cleared := RemoveItem(c.provisioned, key);
      if cleared.None? then Outcome(st, false)
      else
        var added := AddItem(c.name, c.capacity, cleared.value, key, slices);
        var final := if added.Some? then added.value else cleared.value;
        Outcome(st.(clusters := st.clusters[cluster := c.(provisioned := final)]), added.Some?)
  }

  function RemoveProvisionFrom(st: CacheState, cluster: string, key: NsKey): Outcome {
    if cluster !in st.clusters then Outcome(st, false)
    else
      var c := st.clusters[cluster];
      var cleared := RemoveItem(c.provisioned, key);
      if cleared.None? then Outcome(st, false)
      else Outcome(st.(clusters := st.clusters[cluster := c.(provisioned := cleared.value)]), true)
  }

  function SetCapacity(st: CacheState, cluster: string, capacity: ResourceList): Outcome {
    if cluster !in st.clusters then Outcome(st, false)
    else Outcome(st.(clusters := st.clusters[cluster := st.clusters[cluster].(capacity := capacity)]), true)
  }

  // ---------- runs ----------

  datatype Op =
    | AddTenant(tenant: string)
    | RemoveTenant(tenant: string, order: seq<Namespace>)
    | AddNamespace(ns: Namespace)
    | UpdateNamespace(oldNs: Namespace, newNs: Namespace)
    | RemoveNamespace(ns: Namespace)
    | AddPod(pod: Pod)
    | RemovePod(pod: Pod)
    | AddCluster(cluster: ClusterState)
    | RemoveCluster(name: string)
    | GarbageCollection(expired: set<string>)
    | AddProvision(name: string, key: NsKey, slices: seq<Slice>)
    | RemoveProvision(name: string, key: NsKey)
    | UpdateClusterCapacity(name: string, capacity: ResourceList)

  /** One public cache call; each holds the cache lock from start to end. */
  ghost function Step(st: CacheState, op: Op): Outcome {
    match op
    case AddTenant(t) => Outcome(st.(tenants := st.tenants + {t}), true)
    case RemoveTenant(t, order) => RemoveTenantOf(st, t, order)
    case AddNamespace(ns) =>
      if ns.owner !in st.tenants then Outcome(st, true)
      else if ns.Key() in st.namespaces then UpdateNs(st, st.namespaces[ns.Key()], ns)
      else AddNs(st, ns)
    case UpdateNamespace(o, n) => if o.owner !in st.tenants then Outcome(st, true) else UpdateNs(st, o, n)
    case RemoveNamespace(ns) => RemoveNs(st, ns)
    case AddPod(pod) => AddPodTo(st, pod)
    case RemovePod(pod) => RemovePodFrom(st, pod)
    case AddCluster(c) => Outcome(AddClusterTo(st, c), true)
    case RemoveCluster(n) => RemoveClusterFrom(st, n)
    case GarbageCollection(expired) => Outcome(CollectGarbage(st, expired), true)
    case AddProvision(n, key, slices) => AddProvisionTo(st, n, key, slices)
    case RemoveProvision(n, key) => RemoveProvisionFrom(st, n, key)
    case UpdateClusterCapacity(n, capacity) => SetCapacity(st, n, capacity)
  }

  ghost function Run(st: CacheState, ops: seq<Op>): CacheState
    decreases |ops|
  {
    if ops == [] then st else Run(Step(st, ops[0]).st, ops[1..])
  }

  const EMPTY_CACHE: CacheState := CacheState({}, map[], map[], map[])
}
