/** The invariants of CacheAccounting over every run of cache operations. */
module CacheRuns {
  import opened Resources
  import opened SliceMath
  import opened Clusters
  import opened CacheModel
  import opened CacheAccounting

  /** What callers owe: removals and updates name the cached namespace, new clusters arrive empty and balanced. */
  ghost predicate Allowed(st: CacheState, op: Op) {
    match op
    case RemoveTenant(t, order) => Collects(st, t, order)
    case UpdateNamespace(o, _) => Current(st, o)
    case RemoveNamespace(ns) => Current(st, ns)
    case AddCluster(c) =>
      Balanced(c.provisioned) && (c.name !in st.clusters ==> c.booked.items == map[] && Balanced(c.booked))
    case _ => true
  }

  predicate Current(st: CacheState, ns: Namespace) {
    ns.Key() in st.namespaces ==> st.namespaces[ns.Key()] == ns
  }

  ghost predicate AllowedRun(st: CacheState, ops: seq<Op>)
    decreases |ops|
  {
    ops == [] || (Allowed(st, ops[0]) && AllowedRun(Step(st, ops[0]).st, ops[1..]))
  }

  // ---------- which namespaces are cached afterwards ----------

  /**
   A namespace that is cached already, or whose placements do not add up to what its quota asks for, is not
   added; otherwise it is filed exactly on success. Tenants and pods are never touched.
   */
  lemma AddOutcome(st: CacheState, ns: Namespace)
    ensures var r := AddNs(st, ns);
            && r.st.tenants == st.tenants && r.st.pods == st.pods
            && r.st.namespaces == (if r.ok then st.namespaces[ns.Key() := ns] else st.namespaces)
            && (ns.Key() in st.namespaces || LeastFit(ns.quota, ns.quotaSlice) != Some(SumNum(ns.schedule)) ==> !r.ok && r.st == st)
  {
  }

  /** A namespace that is not cached is not removed; otherwise its file goes exactly on success. */
  lemma RemoveOutcome(st: CacheState, ns: Namespace)
    ensures var r := RemoveNs(st, ns);
            && r.st.tenants == st.tenants && r.st.pods == st.pods
            && r.st.namespaces == (if r.ok then st.namespaces - {ns.Key()} else st.namespaces)
            && (ns.Key() !in st.namespaces ==> !r.ok && r.st == st)
  {
  }

  /** Neither is one that is not cached updated, or one key to another; no other namespace is ever touched. */
  lemma UpdateOutcome(st: CacheState, o: Namespace, ns: Namespace)
    ensures var r := UpdateNs(st, o, ns);
            && r.st.tenants == st.tenants && r.st.pods == st.pods
            && (o.Key() != ns.Key() || o.Key() !in st.namespaces ==> !r.ok && r.st == st)
            && (r.ok ==> r.st.namespaces == st.namespaces[ns.Key() := ns])
            && (!r.ok ==> r.st.namespaces - {ns.Key()} == st.namespaces - {ns.Key()})
  {
    RemoveOutcome(st, o);
    var removed := RemoveNs(st, o);
    if o.Key() == ns.Key() && removed.ok {
      AddOutcome(removed.st, ns);
      AddOutcome(AddNs(removed.st, ns).st, o);
      assert (st.namespaces - {ns.Key()})[ns.Key() := ns] == st.namespaces[ns.Key() := ns];
      assert (st.namespaces - {ns.Key()})[ns.Key() := o] - {ns.Key()} == st.namespaces - {ns.Key()};
    }
  }

  /** A namespace whose tenant is unknown is accepted and ignored. */
  lemma UnknownTenantIgnored(st: CacheState, o: Namespace, ns: Namespace)
    ensures ns.owner !in st.tenants ==> Step(st, AddNamespace(ns)) == Outcome(st, true)
    ensures o.owner !in st.tenants ==> Step(st, UpdateNamespace(o, ns)) == Outcome(st, true)
    ensures ns.owner in st.tenants && ns.Key() !in st.namespaces ==> Step(st, AddNamespace(ns)) == AddNs(st, ns)
    ensures ns.owner in st.tenants && ns.Key() in st.namespaces ==> Step(st, AddNamespace(ns)) == UpdateNs(st, st.namespaces[ns.Key()], ns)
  {
  }

  // ---------- tenant removal ----------

  predicate CachedFrom(st: CacheState, nss: seq<Namespace>, i: nat)
    requires i <= |nss|
  {
    && (forall j :: i <= j < |nss| ==> nss[j].Key() in st.namespaces && st.namespaces[nss[j].Key()] == nss[j])
    && (forall j, k :: i <= j < k < |nss| ==> nss[j].Key() != nss[k].Key())
  }

  function Keys(nss: seq<Namespace>): set<NsKey> {
    set ns | ns in nss :: ns.Key()
  }

  lemma CollectedCached(st: CacheState, t: string, nss: seq<Namespace>)
    requires NamespacesOk(st) && Collects(st, t, nss)
    ensures CachedFrom(st, nss, 0)
  {
    forall j | 0 <= j < |nss|
      ensures nss[j].Key() in st.namespaces && st.namespaces[nss[j].Key()] == nss[j]
    {
      assert nss[j] in nss;
    }
  }

  lemma RemoveFirst(st: CacheState, nss: seq<Namespace>, i: nat) returns (next: Outcome)
    requires i < |nss| && Inv(st) && CachedFrom(st, nss, i)
    ensures next == RemoveNs(st, nss[i]) && Inv(next.st)
    ensures next.st.tenants == st.tenants && next.st.pods == st.pods
    ensures next.ok <==> AllLive(st.clusters, nss[i])
    ensures next.ok ==> CachedFrom(next.st, nss, i + 1)
    ensures next.ok ==> next.st.clusters.Keys == st.clusters.Keys
    ensures next.st.namespaces == if next.ok then st.namespaces - {nss[i].Key()} else st.namespaces
  {
    next := RemoveNs(st, nss[i]);
    RemoveNsKeeps(st, nss[i]);
    if next.ok {
      StillCached(st, nss, i, next.st.namespaces);
    }
  }

  lemma StillCached(st: CacheState, nss: seq<Namespace>, i: nat, left: map<NsKey, Namespace>)
    requires i < |nss| && CachedFrom(st, nss, i) && left == st.namespaces - {nss[i].Key()}
    ensures forall j :: i + 1 <= j < |nss| ==> nss[j].Key() in left && left[nss[j].Key()] == nss[j]
  {
    forall j | i + 1 <= j < |nss|
      ensures nss[j].Key() in left && left[nss[j].Key()] == nss[j]
    {
      assert nss[i].Key() != nss[j].Key();
    }
  }

  /** One turn of the loop, as far as the invariant is concerned. */
  lemma RemoveFirstKeeps(st: CacheState, nss: seq<Namespace>, i: nat, next: Outcome)
    requires i < |nss| && Inv(st) && CachedFrom(st, nss, i) && next == RemoveNs(st, nss[i])
    ensures Inv(next.st) && next.st.tenants == st.tenants && next.st.pods == st.pods
    ensures next.ok ==> CachedFrom(next.st, nss, i + 1)
  {
    var _ := RemoveFirst(st, nss, i);
  }

  lemma {:induction false} RemoveEachKeeps(st: CacheState, nss: seq<Namespace>, i: nat)
    requires i <= |nss| && Inv(st) && CachedFrom(st, nss, i)
    ensures var r := RemoveEach(st, nss, i);
            Inv(r.st) && r.st.tenants == st.tenants && r.st.pods == st.pods
    decreases |nss| - i
  {
    if i < |nss| {
      var next := RemoveNs(st, nss[i]);
      RemoveFirstKeeps(st, nss, i, next);
      if next.ok {
        RemoveEachKeeps(next.st, nss, i + 1);
      }
    }
  }

  ghost predicate LiveFrom(cs: ClusterMap, nss: seq<Namespace>, i: nat)
    requires i <= |nss|
  {
    forall j :: i <= j < |nss| ==> AllLive(cs, nss[j])
  }

  lemma LiveSameKeys(cs: ClusterMap, ds: ClusterMap, nss: seq<Namespace>, i: nat)
    requires i <= |nss| && ds.Keys == cs.Keys
    ensures LiveFrom(ds, nss, i) <==> LiveFrom(cs, nss, i)
  {
    assert forall ns :: AllLive(ds, ns) <==> AllLive(cs, ns);
  }

  /** The loop gets through exactly when every cluster of the remaining namespaces is cached. */
  lemma {:induction false} RemoveEachSucceeds(st: CacheState, nss: seq<Namespace>, i: nat)
    requires i <= |nss| && Inv(st) && CachedFrom(st, nss, i)
    ensures RemoveEach(st, nss, i).done == |nss| <==> LiveFrom(st.clusters, nss, i)
    decreases |nss| - i
  {
    if i < |nss| {
      var next := RemoveFirst(st, nss, i);
      if next.ok {
        RemoveEachSucceeds(next.st, nss, i + 1);
        LiveSameKeys(st.clusters, next.st.clusters, nss, i + 1);
        assert LiveFrom(st.clusters, nss, i) <==> LiveFrom(st.clusters, nss, i + 1);
      }
    }
  }

  lemma KeysCons(nss: seq<Namespace>, i: nat, j: nat)
    requires i < j <= |nss|
    ensures Keys(nss[i..j]) == {nss[i].Key()} + Keys(nss[i + 1..j])
  {
    assert nss[i..j] == [nss[i]] + nss[i + 1..j];
  }

  lemma {:induction false} RemoveEachNamespaces(st: CacheState, nss: seq<Namespace>, i: nat)
    requires i <= |nss| && Inv(st) && CachedFrom(st, nss, i)
    ensures var r := RemoveEach(st, nss, i); r.st.namespaces == st.namespaces - Keys(nss[i..r.done])
    decreases |nss| - i
  {
    assert st.namespaces - Keys(nss[i..i]) == st.namespaces;
    if i < |nss| {
      var next := RemoveFirst(st, nss, i);
      if next.ok {
        RemoveEachNamespaces(next.st, nss, i + 1);
        KeysCons(nss, i, RemoveEach(next.st, nss, i + 1).done);
      }
    }
  }

  lemma {:induction false} AddBackKeeps(st: CacheState, nss: seq<Namespace>, lo: nat, hi: nat)
    requires lo <= hi <= |nss| && Inv(st)
    ensures Inv(AddBack(st, nss, lo, hi))
    decreases hi
  {
    if lo < hi {
      AddNsKeeps(st, nss[hi - 1]);
      AddBackKeeps(AddNs(st, nss[hi - 1]).st, nss, lo, hi - 1);
    }
  }

  ghost predicate TenantGone(st: CacheState, t: string) {
    && t !in st.tenants
    && (forall key :: key in st.namespaces ==> key.owner != t)
    && (forall key: NsKey, n :: key.owner == t && n in st.clusters ==> key !in st.clusters[n].booked.items)
  }

  /**
   Removing a tenant succeeds exactly when every cluster its namespaces are placed on is cached;
   then no namespace and no slice of the tenant remains anywhere.
   */
  lemma RemoveTenantOutcome(st: CacheState, t: string, nss: seq<Namespace>)
    requires Inv(st) && Collects(st, t, nss)
    ensures var r := RemoveTenantOf(st, t, nss);
            && Inv(r.st)
            && (r.ok <==> forall ns :: ns in nss ==> AllLive(st.clusters, ns))
            && (r.ok ==> TenantGone(r.st, t))
  {
    CollectedCached(st, t, nss);
    RemoveEachKeeps(st, nss, 0);
    RemoveEachSucceeds(st, nss, 0);
    var p := RemoveEach(st, nss, 0);
    assert (forall ns :: ns in nss ==> AllLive(st.clusters, ns)) <==> LiveFrom(st.clusters, nss, 0);
    if p.done == |nss| {
      NothingLeft(st, p.st, t, nss);
      BookingsKept(p.st, RemoveTenantOf(st, t, nss).st);
    } else {
      AddBackKeeps(p.st, nss, 0, p.done);
    }
  }

  lemma NothingLeft(st: CacheState, after: CacheState, t: string, nss: seq<Namespace>)
    requires Inv(st) && Collects(st, t, nss) && CachedFrom(st, nss, 0) && Inv(after)
    requires RemoveEach(st, nss, 0) == TenantProgress(after, |nss|)
    ensures TenantGone(after.(tenants := after.tenants - {t}), t)
  {
    RemoveEachNamespaces(st, nss, 0);
    assert nss[0..|nss|] == nss;
    forall key | key in st.namespaces && key.owner == t
      ensures key in Keys(nss)
    {
      assert st.namespaces[key] in nss;
    }
    forall key: NsKey, n | key.owner == t && n in after.clusters
      ensures key !in after.clusters[n].booked.items
    {
      assert KeyFree(after.clusters, key);
    }
  }

  // ---------- every step ----------

  /** Changes that leave every booking alone keep the invariant. */
  lemma BookingsKept(st: CacheState, after: CacheState)
    requires Inv(st) && after.namespaces == st.namespaces
    requires forall n :: n in after.clusters ==>
               && after.clusters[n].name == n && Balanced(after.clusters[n].provisioned)
               && (if n in st.clusters then after.clusters[n].booked == st.clusters[n].booked
                   else after.clusters[n].booked.items == map[] && Balanced(after.clusters[n].booked))
    ensures Inv(after)
  {
    forall key | key in st.namespaces
      ensures OnlyBacked(after.clusters, st.namespaces[key])
    {
      assert OnlyBacked(st.clusters, st.namespaces[key]);
    }
    forall key | key !in st.namespaces
      ensures KeyFree(after.clusters, key)
    {
      assert KeyFree(st.clusters, key);
    }
  }

  lemma ProvisionKeeps(c: ClusterState, key: NsKey, slices: seq<Slice>)
    requires Balanced(c.provisioned)
    ensures var cleared := RemoveItem(c.provisioned, key);
            cleared.Some? && Balanced(cleared.value) && Balanced(Reprovisioned(c, key, slices))
  {
    RemoveItemBalanced(c.provisioned, key);
    var cleared := RemoveItem(c.provisioned, key).value;
    if AddItem(c.name, c.capacity, cleared, key, slices).Some? {
      AddItemBalanced(c.name, c.capacity, cleared, key, slices);
    }
  }

  lemma NamespaceStepKeeps(st: CacheState, op: Op)
    requires Inv(st) && Allowed(st, op)
    requires op.AddNamespace? || op.UpdateNamespace? || op.RemoveNamespace?
    ensures Inv(Step(st, op).st)
  {
    match op
    case AddNamespace(ns) =>
      if ns.owner in st.tenants {
        if ns.Key() in st.namespaces {
          UpdateNsKeeps(st, st.namespaces[ns.Key()], ns);
        } else {
          AddNsKeeps(st, ns);
        }
      }
    case UpdateNamespace(o, n) =>
      if o.owner in st.tenants && o.Key() in st.namespaces {
        UpdateNsKeeps(st, o, n);
      }
    case RemoveNamespace(ns) =>
      if ns.Key() in st.namespaces {
        RemoveNsKeeps(st, ns);
      }
  }

  predicate PodsOnly(cs: ClusterMap, ds: ClusterMap) {
    ds.Keys == cs.Keys && forall n :: n in cs ==> ds[n] == cs[n].(pods := ds[n].pods)
  }

  lemma AttachPodsOnly(cs: ClusterMap, pod: Pod)
    ensures AttachPod(cs, pod).Some? ==> PodsOnly(cs, AttachPod(cs, pod).value)
    ensures DetachPod(cs, pod).Some? ==> PodsOnly(cs, DetachPod(cs, pod).value)
  {
  }

  lemma RelistPodsOnly(cs: ClusterMap, index: map<PodKey, Pod>, pod: Pod)
    ensures PodsOnly(cs, RelistPod(cs, index, pod).cs)
  {
    AttachPodsOnly(cs, pod);
    if pod.Key() in index {
      AttachPodsOnly(cs, index[pod.Key()]);
      var detached := DetachPod(cs, index[pod.Key()]);
      if detached.Some? {
        AttachPodsOnly(detached.value, pod);
      }
    }
  }

  lemma PodOpsPodsOnly(st: CacheState, pod: Pod)
    ensures PodsOnly(st.clusters, AddPodTo(st, pod).st.clusters)
    ensures PodsOnly(st.clusters, RemovePodFrom(st, pod).st.clusters)
    ensures AddPodTo(st, pod).st.namespaces == st.namespaces == RemovePodFrom(st, pod).st.namespaces
  {
    RelistPodsOnly(st.clusters, st.pods, pod);
    AttachPodsOnly(st.clusters, pod);
  }

  lemma PodStepKeeps(st: CacheState, op: Op)
    requires Inv(st) && (op.AddPod? || op.RemovePod?)
    ensures Inv(Step(st, op).st)
  {
    PodOpsPodsOnly(st, op.pod);
    var after := Step(st, op).st;
    assert PodsOnly(st.clusters, after.clusters) && after.namespaces == st.namespaces;
    PodsOnlyKeeps(st, after);
  }

  lemma PodsOnlyKeeps(st: CacheState, after: CacheState)
    requires Inv(st) && PodsOnly(st.clusters, after.clusters) && after.namespaces == st.namespaces
    ensures Inv(after)
  {
    BookingsKept(st, after);
  }

  lemma ClusterStepKeeps(st: CacheState, op: Op)
    requires Inv(st) && Allowed(st, op)
    requires op.AddCluster? || op.RemoveCluster? || op.GarbageCollection? || op.UpdateClusterCapacity?
    ensures Inv(Step(st, op).st)
  {
    BookingsKept(st, Step(st, op).st);
  }

  lemma ReprovisionKeeps(st: CacheState, n: string, l: Ledger)
    requires Inv(st) && n in st.clusters && Balanced(l)
    ensures Inv(st.(clusters := st.clusters[n := st.clusters[n].(provisioned := l)]))
  {
    BookingsKept(st, st.(clusters := st.clusters[n := st.clusters[n].(provisioned := l)]));
  }

  lemma ProvisionStepKeeps(st: CacheState, op: Op)
    requires Inv(st) && (op.AddProvision? || op.RemoveProvision?)
    ensures Inv(Step(st, op).st)
  {
    if op.AddProvision? {
      AddProvisionKeeps(st, op.name, op.key, op.slices);
    } else {
      RemoveProvisionKeeps(st, op.name, op.key);
    }
  }

  lemma AddProvisionKeeps(st: CacheState, n: string, key: NsKey, slices: seq<Slice>)
    requires Inv(st)
    ensures Inv(AddProvisionTo(st, n, key, slices).st)
  {
    if n in st.clusters {
      var c := st.clusters[n];
      ProvisionKeeps(c, key, slices);
      ReprovisionKeeps(st, n, Reprovisioned(c, key, slices));
      assert AddProvisionTo(st, n, key, slices).st
             == st.(clusters := st.clusters[n := c.(provisioned := Reprovisioned(c, key, slices))]);
    }
  }

  lemma RemoveProvisionKeeps(st: CacheState, n: string, key: NsKey)
    requires Inv(st)
    ensures Inv(RemoveProvisionFrom(st, n, key).st)
  {
    if n in st.clusters {
      var c := st.clusters[n];
      ProvisionKeeps(c, key, []);
      ReprovisionKeeps(st, n, RemoveItem(c.provisioned, key).value);
    }
  }

  /** The provisions after the old ones of a namespace were cleared and the new ones tried. */
  function Reprovisioned(c: ClusterState, key: NsKey, slices: seq<Slice>): Ledger {
    var cleared := RemoveItem(c.provisioned, key);
    if cleared.None? then c.provisioned
    else
      var added := AddItem(c.name, c.capacity, cleared.value, key, slices);
      if added.Some? then added.value else cleared.value
  }

  lemma StepKeeps(st: CacheState, op: Op)
    requires Inv(st) && Allowed(st, op)
    ensures Inv(Step(st, op).st)
  {
    if op.AddTenant? {
      BookingsKept(st, Step(st, op).st);
    } else if op.RemoveTenant? {
      RemoveTenantOutcome(st, op.tenant, op.order);
    } else if op.AddNamespace? || op.UpdateNamespace? || op.RemoveNamespace? {
      NamespaceStepKeeps(st, op);
    } else if op.AddPod? || op.RemovePod? {
      PodStepKeeps(st, op);
    } else if op.AddProvision? || op.RemoveProvision? {
      ProvisionStepKeeps(st, op);
    } else {
      ClusterStepKeeps(st, op);
    }
  }

  /** Whole-run accounting, from the empty cache or any other state that satisfies the invariant. */
  lemma {:induction false} RunAccounts(st: CacheState, ops: seq<Op>)
    requires Inv(st) && AllowedRun(st, ops)
    ensures Inv(Run(st, ops))
    decreases |ops|
  {
    if ops != [] {
      StepKeeps(st, ops[0]);
      RunAccounts(Step(st, ops[0]).st, ops[1..]);
    }
  }

  lemma EmptyCacheAccounts()
    ensures Inv(EMPTY_CACHE)
  {
  }

  /** In every reachable state `removeItem` cannot underflow, for bookings and provisions alike. */
  lemma NoUnderflow(ops: seq<Op>, n: string, key: NsKey)
    requires AllowedRun(EMPTY_CACHE, ops) && n in Run(EMPTY_CACHE, ops).clusters
    ensures var c := Run(EMPTY_CACHE, ops).clusters[n];
            RemoveItem(c.booked, key).Some? && RemoveItem(c.provisioned, key).Some?
  {
    EmptyCacheAccounts();
    RunAccounts(EMPTY_CACHE, ops);
    var c := Run(EMPTY_CACHE, ops).clusters[n];
    RemoveItemBalanced(c.booked, key);
    RemoveItemBalanced(c.provisioned, key);
  }
}
