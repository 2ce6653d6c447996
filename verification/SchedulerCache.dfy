/** The scheduler cache object. Every method is atomic: the program holds the cache lock throughout. */
module SchedulerCaches {
  import opened Resources
  import opened SliceMath
  import opened Clusters
  import opened CacheModel

  class SchedulerCache {
    var tenants: set<string>
    var clusters: map<string, Cluster>
    var pods: map<PodKey, Pod>
    var namespaces: map<NsKey, Namespace>

    /** The cache owns its cluster objects (they are copies), and files namespaces under their own key. */
    ghost predicate Valid()
      reads `clusters, `namespaces
    {
      && this !in Objects()
      && (forall m, n :: m in clusters && n in clusters && m != n ==> clusters[m] != clusters[n])
      && (forall key :: key in namespaces ==> namespaces[key].Key() == key)
    }

    ghost function Objects(): set<object>
      reads `clusters
    {
      set n | n in clusters :: clusters[n]
    }

    ghost function View(): ClusterMap
      reads `clusters, Objects()
    {
      map n | n in clusters :: clusters[n].State()
    }

    ghost function State(): CacheState
      reads this, Objects()
    {
      CacheState(tenants, View(), pods, namespaces)
    }

    constructor ()
      ensures Valid() && State() == EMPTY_CACHE && Objects() == {}
    {
      tenants, clusters, pods, namespaces := {}, map[], map[], map[];
    }

    method AddTenant(n: string)
      requires Valid()
      modifies `tenants
      ensures Valid() && State() == old(State()).(tenants := old(tenants) + {n})
    {
      tenants := tenants + {n};
    }

    // ---------- namespaces ----------

    /** What happened to one cluster object is what happened to its entry in the view. */
    twostate lemma OneChanged(cluster: string)
      requires old(Valid()) && clusters == old(clusters) && cluster in clusters
      requires forall n :: n in clusters && n != cluster ==> unchanged(clusters[n])
      ensures View() == old(View())[cluster := clusters[cluster].State()]
    {
    }

    method BuildSlices(cluster: string, key: NsKey, num: int, slice: ResourceList) returns (slices: seq<Slice>)
      ensures slices == SlicesFor(key, Placement(cluster, num), slice)
    {
      slices := [];
      for i := 0 to if num > 0 then num else 0
        invariant slices == Copies(i, Slice(key, slice, cluster))
      {
        slices := slices + [Slice(key, slice, cluster)];
      }
    }

    method AddToKnown(cluster: string, key: NsKey, slices: seq<Slice>) returns (ok: bool)
      requires Valid() && cluster in clusters
      modifies Objects()
      ensures Valid()
      ensures var c := old(View())[cluster];
              var r := AddItem(c.name, c.capacity, c.booked, key, slices);
              ok == r.Some? && View() == if ok then old(View())[cluster := c.(booked := r.value)] else old(View())
    {
      ok := clusters[cluster].AddNamespace(key, slices);
      OneChanged(cluster);
      assert !ok ==> View() == old(View());
    }

    /** A placement on an unknown cluster: the shadow is stored only if the slices fit. */
    method AddToShadow(cluster: string, key: NsKey, slices: seq<Slice>) returns (ok: bool)
      requires Valid() && cluster !in clusters
      modifies `clusters
      ensures Valid() && fresh(Objects() - old(Objects()))
      ensures var c := Shadow(cluster);
              var r := AddItem(c.name, c.capacity, c.booked, key, slices);
              ok == r.Some? && View() == if ok then old(View())[cluster := c.(booked := r.value)] else old(View())
    {
      var c := new Cluster(cluster, SHADOW_CAPACITY);
      c.shadow := true;
      assert c.State() == Shadow(cluster);
      ok := c.AddNamespace(key, slices);
      assert View() == old(View());
      if ok {
        Store(cluster, c);
      }
    }

    method Store(cluster: string, c: Cluster)
      requires Valid() && cluster !in clusters && c !in Objects()
      modifies `clusters
      ensures Valid() && Objects() <= old(Objects()) + {c}
      ensures View() == old(View())[cluster := c.State()]
    {
      clusters := clusters[cluster := c];
      assert View() == old(View())[cluster := c.State()];
    }

    method AddNamespaceToCluster(cluster: string, key: NsKey, num: int, slice: ResourceList) returns (ok: bool)
      requires Valid()
      modifies `clusters, Objects()
      ensures Valid() && fresh(Objects() - old(Objects()))
      ensures var r := Place(old(View()), key, Placement(cluster, num), slice);
              ok == r.Some? && View() == if ok then r.value else old(View())
    {
      if num == 0 {
        return true;
      }
      var slices := BuildSlices(cluster, key, num, slice);
      if cluster in clusters {
        ok := AddToKnown(cluster, key, slices);
      } else {
        ok := AddToShadow(cluster, key, slices);
      }
    }

    method RemoveNamespaceFromCluster(cluster: string, key: NsKey) returns (ok: bool)
      requires Valid()
      modifies Objects()
      ensures Valid()
      ensures var r := Unplace(old(View()), key, cluster);
              ok == r.Some? && View() == if ok then r.value else old(View())
    {
      if cluster !in clusters {
        return false;
      }
      var c := clusters[cluster];
      ok := c.RemoveNamespace(key);
      OneChanged(cluster);
    }

    method AddNamespaceWithoutLock(ns: Namespace) returns (ok: bool)
      requires Valid()
      modifies `clusters, `namespaces, Objects()
      ensures Valid() && fresh(Objects() - old(Objects()))
      ensures AddNs(old(State()), ns) == Outcome(State(), ok)
    {
      var key := ns.Key();
      if key in namespaces {
        return false;
      }
      var matches := CheckCounts(ns);
      if !matches {
        return false;
      }
      ok := PlaceOrRollback(ns, View());
      if ok {
        File(ns);
      }
    }

    method File(ns: Namespace)
      requires Valid()
      modifies `namespaces
      ensures Valid() && View() == old(View()) && namespaces == old(namespaces)[ns.Key() := ns]
    {
      namespaces := namespaces[ns.Key() := ns];
    }

    /** All placements, or none of them. */
    method PlaceOrRollback(ns: Namespace, ghost view: ClusterMap) returns (ok: bool)
      requires Valid() && view == View()
      modifies `clusters, Objects()
      ensures Valid() && fresh(Objects() - old(Objects()))
      ensures var p := PlaceFrom(view, ns.Key(), ns.schedule, ns.quotaSlice, 0);
              && ok == (p.done == |ns.schedule|)
              && View() == if ok then p.cs else UnplaceBack(p.cs, ns.Key(), ns.schedule, p.done)
    {
      var done := PlaceAll(ns);
      ok := done == |ns.schedule|;
      if !ok {
        RollbackAdd(ns, done);
      }
    }

    method CheckCounts(ns: Namespace) returns (ok: bool)
      ensures ok == CountsMatch(ns)
    {
      var need := GetLeastFitSliceNum(ns.quota, ns.quotaSlice);
      if need.None? {
        return false;
      }
      var sched := SumSchedule(ns.schedule);
      return need.value == sched;
    }

    method PlaceAll(ns: Namespace) returns (done: nat)
      requires Valid()
      modifies `clusters, Objects()
      ensures Valid() && fresh(Objects() - old(Objects()))
      ensures PlaceFrom(old(View()), ns.Key(), ns.schedule, ns.quotaSlice, 0) == Progress(View(), done)
    {
      done := 0;
      while done < |ns.schedule|
        invariant done <= |ns.schedule| && Valid() && fresh(Objects() - old(Objects()))
        invariant PlaceFrom(old(View()), ns.Key(), ns.schedule, ns.quotaSlice, 0) ==
                  PlaceFrom(View(), ns.Key(), ns.schedule, ns.quotaSlice, done)
      {
        var p := ns.schedule[done];
        var placed := AddNamespaceToCluster(p.cluster, ns.Key(), p.num, ns.quotaSlice);
        if !placed {
          return;
        }
        done := done + 1;
      }
    }

    method SumSchedule(schedule: seq<Placement>) returns (sum: int)
      ensures sum == SumNum(schedule)
    {
      sum := 0;
      for i := 0 to |schedule|
        invariant sum == SumNum(schedule[..i])
      {
        assert schedule[..i + 1][..i] == schedule[..i];
        sum := sum + schedule[i].num;
      }
      assert schedule[..|schedule|] == schedule;
    }

    method RollbackAdd(ns: Namespace, done: nat)
      requires Valid() && done <= |ns.schedule|
      modifies Objects()
      ensures Valid()
      ensures View() == UnplaceBack(old(View()), ns.Key(), ns.schedule, done)
    {
      var i := done;
      while i > 0
        invariant 0 <= i <= done && Valid()
        invariant UnplaceBack(old(View()), ns.Key(), ns.schedule, done) ==
                  UnplaceBack(View(), ns.Key(), ns.schedule, i)
      {
        var _ := RemoveNamespaceFromCluster(ns.schedule[i - 1].cluster, ns.Key());
        i := i - 1;
      }
    }

    method RemoveNamespaceWithoutLock(ns: Namespace) returns (ok: bool)
      requires Valid()
      modifies `clusters, `namespaces, Objects()
      ensures Valid() && fresh(Objects() - old(Objects()))
      ensures RemoveNs(old(State()), ns) == Outcome(State(), ok)
    {
      var key := ns.Key();
      if key !in namespaces {
        return false;
      }
      var done := UnplaceAll(ns);
      if done < |ns.schedule| {
        RollbackRemove(ns, done, View());
        ok := false;
      } else {
        namespaces := namespaces - {key};
        ok := true;
      }
    }

    method UnplaceAll(ns: Namespace) returns (done: nat)
      requires Valid()
      modifies Objects()
      ensures Valid()
      ensures UnplaceFrom(old(View()), ns.Key(), ns.schedule, 0) == Progress(View(), done)
    {
      done := 0;
      while done < |ns.schedule|
        invariant done <= |ns.schedule| && Valid()
        invariant UnplaceFrom(old(View()), ns.Key(), ns.schedule, 0) == UnplaceFrom(View(), ns.Key(), ns.schedule, done)
      {
        var removed := RemoveNamespaceFromCluster(ns.schedule[done].cluster, ns.Key());
        if !removed {
          return;
        }
        done := done + 1;
      }
    }

    method RollbackRemove(ns: Namespace, done: nat, ghost view: ClusterMap)
      requires Valid() && done <= |ns.schedule| && view == View()
      modifies `clusters, Objects()
      ensures Valid() && fresh(Objects() - old(Objects()))
      ensures View() == PlaceBack(view, ns.Key(), ns.schedule, ns.quotaSlice, done)
    {
      var i := done;
      ghost var last := PlaceBack(view, ns.Key(), ns.schedule, ns.quotaSlice, done);
      while i > 0
        invariant 0 <= i <= done && Valid() && fresh(Objects() - old(Objects()))
        invariant Ends(View(), ns, i, last)
      {
        TurnBack(ns, i, last);
        i := i - 1;
      }
    }

    /** Putting back placements `i - 1` down to 0 from `now` ends in `last`. */
    static predicate Ends(now: ClusterMap, ns: Namespace, i: nat, last: ClusterMap) {
      i <= |ns.schedule| && PlaceBack(now, ns.Key(), ns.schedule, ns.quotaSlice, i) == last
    }

    /** One turn of the rollback. */
    method TurnBack(ns: Namespace, i: nat, ghost last: ClusterMap)
      requires Valid() && 0 < i && Ends(View(), ns, i, last)
      modifies `clusters, Objects()
      ensures Valid() && fresh(Objects() - old(Objects())) && Ends(View(), ns, i - 1, last)
    {
      AddAgain(ns, ns.schedule[i - 1], View());
    }

    /** One placement is added again; if it does not fit, nothing changes. */
    method AddAgain(ns: Namespace, p: Placement, ghost view: ClusterMap)
      requires Valid() && view == View()
      modifies `clusters, Objects()
      ensures Valid() && fresh(Objects() - old(Objects()))
      ensures View() == PutBack(view, ns.Key(), p, ns.quotaSlice)
    {
      var _ := AddNamespaceToCluster(p.cluster, ns.Key(), p.num, ns.quotaSlice);
    }

    method UpdateNamespaceWithoutLock(oldNs: Namespace, newNs: Namespace) returns (ok: bool)
      requires Valid()
      modifies `clusters, `namespaces, Objects()
      ensures Valid() && fresh(Objects() - old(Objects()))
      ensures UpdateNs(old(State()), oldNs, newNs) == Outcome(State(), ok)
    {
      if oldNs.Key() != newNs.Key() {
        return false;
      }
      ok := RemoveNamespaceWithoutLock(oldNs);
      if !ok {
        return false;
      }
      ok := AddNamespaceWithoutLock(newNs);
      if !ok {
        var _ := AddNamespaceWithoutLock(oldNs);
      }
    }

    method AddNamespace(ns: Namespace) returns (ok: bool)
      requires Valid()
      modifies `clusters, `namespaces, Objects()
      ensures Valid() && fresh(Objects() - old(Objects()))
      ensures Step(old(State()), Op.AddNamespace(ns)) == Outcome(State(), ok)
    {
      if ns.owner !in tenants {
        return true;
      }
      if ns.Key() in namespaces {
        ok := UpdateNamespaceWithoutLock(namespaces[ns.Key()], ns);
      } else {
        ok := AddNamespaceWithoutLock(ns);
      }
    }

    method UpdateNamespace(oldNs: Namespace, newNs: Namespace) returns (ok: bool)
      requires Valid()
      modifies `clusters, `namespaces, Objects()
      ensures Valid() && fresh(Objects() - old(Objects()))
      ensures Step(old(State()), Op.UpdateNamespace(oldNs, newNs)) == Outcome(State(), ok)
    {
      if oldNs.owner !in tenants {
        return true;
      }
      ok := UpdateNamespaceWithoutLock(oldNs, newNs);
    }

    method RemoveNamespace(ns: Namespace) returns (ok: bool)
      requires Valid()
      modifies `clusters, `namespaces, Objects()
      ensures Valid() && fresh(Objects() - old(Objects()))
      ensures Step(old(State()), Op.RemoveNamespace(ns)) == Outcome(State(), ok)
    {
      ok := RemoveNamespaceWithoutLock(ns);
    }

    // ---------- tenants ----------

    method CollectNamespaces(n: string) returns (nss: seq<Namespace>)
      requires Valid()
      ensures Collects(State(), n, nss)
    {
      nss := [];
      var todo := namespaces.Keys;
      while todo != {}
        invariant todo <= namespaces.Keys
        invariant forall i :: 0 <= i < |nss| ==>
                    nss[i].Key() in namespaces && nss[i].Key() !in todo && namespaces[nss[i].Key()] == nss[i] && nss[i].owner == n
        invariant forall key :: key in namespaces && key !in todo && namespaces[key].owner == n ==> namespaces[key] in nss
        invariant forall i, j :: 0 <= i < j < |nss| ==> nss[i].Key() != nss[j].Key()
        decreases todo
      {
        var key :| key in todo;
        todo := todo - {key};
        if namespaces[key].owner == n {
          nss := nss + [namespaces[key]];
        }
      }
    }

    method RemoveTenant(n: string, ghost st: CacheState) returns (ok: bool, ghost order: seq<Namespace>)
      requires Valid() && st == State()
      modifies `tenants, `clusters, `namespaces, Objects()
      ensures Valid() && fresh(Objects() - old(Objects()))
      ensures Collects(st, n, order)
      ensures RemoveTenantOf(st, n, order) == Outcome(State(), ok)
    {
      var nss := CollectNamespaces(n);
      order := nss;
      ok := RemoveOrRollback(nss, st);
      if ok {
        DropTenant(n, State());
      }
    }

    method DropTenant(n: string, ghost st: CacheState)
      requires Valid() && st == State()
      modifies `tenants
      ensures Valid() && State() == st.(tenants := st.tenants - {n})
    {
      tenants := tenants - {n};
    }

    /** All listed namespaces, or none of them. */
    method RemoveOrRollback(nss: seq<Namespace>, ghost st: CacheState) returns (ok: bool)
      requires Valid() && st == State()
      modifies `clusters, `namespaces, Objects()
      ensures Valid() && fresh(Objects() - old(Objects()))
      ensures var p := RemoveEach(st, nss, 0);
              ok == (p.done == |nss|) && State() == if ok then p.st else AddBack(p.st, nss, 0, p.done)
    {
      var done := RemoveListed(nss);
      ok := done == |nss|;
      if !ok {
        RollbackTenant(nss, done);
      }
    }

    method RemoveListed(nss: seq<Namespace>) returns (done: nat)
      requires Valid()
      modifies `clusters, `namespaces, Objects()
      ensures Valid() && fresh(Objects() - old(Objects()))
      ensures RemoveEach(old(State()), nss, 0) == TenantProgress(State(), done)
    {
      done := 0;
      while done < |nss|
        invariant done <= |nss| && Valid() && fresh(Objects() - old(Objects()))
        invariant RemoveEach(old(State()), nss, 0) == RemoveEach(State(), nss, done)
      {
        var removed := RemoveNamespaceWithoutLock(nss[done]);
        if !removed {
          return;
        }
        done := done + 1;
      }
    }

    method RollbackTenant(nss: seq<Namespace>, done: nat)
      requires Valid() && done <= |nss|
      modifies `clusters, `namespaces, Objects()
      ensures Valid() && fresh(Objects() - old(Objects()))
      ensures State() == AddBack(old(State()), nss, 0, done)
    {
      var i := done;
      while i > 0
        invariant 0 <= i <= done && Valid() && fresh(Objects() - old(Objects()))
        invariant AddBack(old(State()), nss, 0, done) == AddBack(State(), nss, 0, i)
      {
        var _ := AddNamespaceWithoutLock(nss[i - 1]);
        i := i - 1;
      }
    }

    // ---------- pods ----------

    method AttachPodTo(pod: Pod) returns (ok: bool)
      requires Valid()
      modifies Objects()
      ensures Valid() && CacheModel.NewPod(old(View()), pod) == Relisting(View(), ok)
    {
      if pod.cluster !in clusters {
        return false;
      }
      var c := clusters[pod.cluster];
      ok := c.AddPod(pod.NamespaceKey(), pod.name, pod.cluster);
      OneChanged(pod.cluster);
      assert !ok ==> View() == old(View());
    }

    method DetachPodFrom(pod: Pod) returns (ok: bool)
      requires Valid()
      modifies Objects()
      ensures Valid()
      ensures var r := DetachPod(old(View()), pod); ok == r.Some? && View() == if ok then r.value else old(View())
    {
      if pod.cluster !in clusters {
        return false;
      }
      var c := clusters[pod.cluster];
      c.RemovePod(pod.NamespaceKey(), pod.name);
      OneChanged(pod.cluster);
      ok := true;
    }

    /** The pod's scheduling result changed: out of the old cluster, then into the new one. */
    method MoveToCluster(cur: Pod, pod: Pod) returns (ok: bool)
      requires Valid()
      modifies Objects()
      ensures Valid() && CacheModel.MovePod(old(View()), cur, pod) == Relisting(View(), ok)
    {
      ok := DetachPodFrom(cur);
      if ok {
        ok := AttachPodTo(pod);
      }
    }

    method Relist(pod: Pod) returns (ok: bool)
      requires Valid()
      modifies Objects()
      ensures Valid() && RelistPod(old(View()), pods, pod) == Relisting(View(), ok)
    {
      var key := pod.Key();
      ok := true;
      if key !in pods {
        ok := AttachPodTo(pod);
      } else if pods[key].cluster != pod.cluster {
        ok := MoveToCluster(pods[key], pod);
      }
    }

    method AddPod(pod: Pod) returns (ok: bool)
      requires Valid()
      modifies `pods, Objects()
      ensures Valid()
      ensures AddPodTo(old(State()), pod) == Outcome(State(), ok)
    {
      ok := Relist(pod);
      if ok {
        pods := pods[pod.Key() := pod];
      }
    }

    method RemovePod(pod: Pod) returns (ok: bool)
      requires Valid()
      modifies `pods, Objects()
      ensures Valid()
      ensures RemovePodFrom(old(State()), pod) == Outcome(State(), ok)
    {
      if pod.Key() !in pods {
        return true;
      }
      ok := DetachPodFrom(pod);
      if ok {
        pods := pods - {pod.Key()};
      }
    }

    // ---------- clusters ----------

    method RefreshCluster(cluster: Cluster)
      requires Valid() && cluster.name in clusters
      modifies Objects()
      ensures Valid()
      ensures State() == AddClusterTo(old(State()), old(cluster.State()))
    {
      var c := clusters[cluster.name];
      c.capacity, c.shadow := cluster.capacity, false;
      c.provisionItems, c.provision := cluster.provisionItems, cluster.provision;
      OneChanged(cluster.name);
    }

    method InstallCluster(cluster: Cluster)
      requires Valid() && cluster.name !in clusters
      modifies `clusters
      ensures Valid() && fresh(Objects() - old(Objects()))
      ensures State() == AddClusterTo(old(State()), old(cluster.State()))
    {
      var c := CloneCluster(cluster);
      assert View() == old(View());
      Store(cluster.name, c);
    }

    /** `DeepCopy` does not carry the shadow mark over. */
    method CloneCluster(cluster: Cluster) returns (c: Cluster)
      ensures fresh(c) && c.State() == cluster.State().(shadow := false)
    {
      c := new Cluster(cluster.name, cluster.capacity);
      c.allocItems, c.alloc := cluster.allocItems, cluster.alloc;
      c.provisionItems, c.provision := cluster.provisionItems, cluster.provision;
      c.pods := cluster.pods;
    }

    method AddCluster(cluster: Cluster)
      requires Valid()
      modifies `clusters, Objects()
      ensures Valid() && fresh(Objects() - old(Objects()))
      ensures State() == AddClusterTo(old(State()), old(cluster.State()))
    {
      if cluster.name in clusters {
        RefreshCluster(cluster);
      } else {
        InstallCluster(cluster);
      }
    }

    method RemoveCluster(name: string) returns (ok: bool)
      requires Valid()
      modifies `clusters
      ensures Valid() && Objects() <= old(Objects())
      ensures RemoveClusterFrom(old(State()), name) == Outcome(State(), ok)
    {
      if name !in clusters {
        return false;
      }
      clusters := clusters - {name};
      assert View() == old(View()) - {name};
      return true;
    }

    method GarbageCollection(expired: set<string>)
      requires Valid()
      modifies `clusters
      ensures Valid() && Objects() <= old(Objects())
      ensures State() == CollectGarbage(old(State()), expired)
    {
      var toDelete := {};
      var todo := clusters.Keys;
      while todo != {}
        invariant todo <= clusters.Keys && unchanged(this)
        invariant forall n :: n in toDelete <==> n in clusters.Keys - todo && clusters[n].shadow && n in expired
        decreases todo
      {
        var n :| n in todo;
        todo := todo - {n};
        if clusters[n].shadow && n in expired {
          toDelete := toDelete + {n};
        }
      }
      clusters := clusters - toDelete;
      assert View() == CollectGarbage(old(State()), expired).clusters;
    }

    method AddProvision(cluster: string, key: NsKey, slices: seq<Slice>) returns (ok: bool)
      requires Valid()
      modifies Objects()
      ensures Valid()
      ensures AddProvisionTo(old(State()), cluster, key, slices) == Outcome(State(), ok)
    {
      if cluster !in clusters {
        return false;
      }
      var c := clusters[cluster];
      ok := c.RemoveProvision(key);
      if ok {
        ok := c.AddProvision(key, slices);
      }
      OneChanged(cluster);
    }

    method RemoveProvision(cluster: string, key: NsKey) returns (ok: bool)
      requires Valid()
      modifies Objects()
      ensures Valid()
      ensures RemoveProvisionFrom(old(State()), cluster, key) == Outcome(State(), ok)
    {
      if cluster !in clusters {
        return false;
      }
      var c := clusters[cluster];
      ok := c.RemoveProvision(key);
      OneChanged(cluster);
    }

    method UpdateClusterCapacity(cluster: string, capacity: ResourceList) returns (ok: bool)
      requires Valid()
      modifies Objects()
      ensures Valid()
      ensures SetCapacity(old(State()), cluster, capacity) == Outcome(State(), ok)
    {
      if cluster !in clusters {
        return false;
      }
      var c := clusters[cluster];
      c.capacity := capacity;
      OneChanged(cluster);
      return true;
    }
  }
}
