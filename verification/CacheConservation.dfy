/**
 Exact conservation: in runs that never delete a cluster, every cached namespace is present with all
 its placements and removing it cannot fail, however capacities move in between. Counts may be anything;
 a placement of zero slices must be on a cluster that is cached anyway. The slices held number exactly
 what the quota asks for if and only if no count is negative.
 */
module CacheConservation {
  import opened Sums
  import opened Resources
  import opened SliceMath
  import opened CacheModel
  import opened CacheAccounting
  import opened CacheRuns

  ghost predicate Conserved(st: CacheState) {
    Inv(st) && Complete(st) && Settled(st)
  }

  /** Every cluster a cached namespace names is cached. */
  ghost predicate Settled(st: CacheState) {
    forall key :: key in st.namespaces ==> AllLive(st.clusters, st.namespaces[key])
  }

  /** Each cluster the schedule names is cached already, or some non-zero placement on it will create it. */
  predicate Anchored(cs: ClusterMap, ns: Namespace) {
    forall j :: 0 <= j < |ns.schedule| ==> ns.schedule[j].cluster in cs || NonZeroBefore(ns, ns.schedule[j].cluster, |ns.schedule|)
  }

  predicate NonZeroBefore(ns: Namespace, n: string, i: nat)
    requires i <= |ns.schedule|
  {
    exists k :: 0 <= k < i && ns.schedule[k].num != 0 && ns.schedule[k].cluster == n
  }

  ghost predicate Conserving(st: CacheState, op: Op) {
    && Allowed(st, op)
    && !op.RemoveCluster? && !op.GarbageCollection?
    && (op.AddNamespace? ==> Anchored(st.clusters, op.ns))
    && (op.UpdateNamespace? ==> Anchored(st.clusters, op.newNs))
  }

  ghost predicate ConservingRun(st: CacheState, ops: seq<Op>)
    decreases |ops|
  {
    ops == [] || (Conserving(st, ops[0]) && ConservingRun(Step(st, ops[0]).st, ops[1..]))
  }

  // ---------- which clusters an addition leaves cached ----------

  /** The placing loop caches the clusters of the non-zero placements it went through, and no others. */
  lemma {:induction false} PlaceFromKeys(ds: ClusterMap, ns: Namespace, i: nat)
    requires i <= |ns.schedule|
    ensures var r := PlaceFrom(ds, ns.Key(), ns.schedule, ns.quotaSlice, i); NewOnes(ds, r.cs, ns, r.done)
    decreases |ns.schedule| - i
  {
    if i < |ns.schedule| {
      var next := Place(ds, ns.Key(), ns.schedule[i], ns.quotaSlice);
      if next.Some? {
        var es := next.value;
        PlaceFromKeys(es, ns, i + 1);
        var r := PlaceFrom(es, ns.Key(), ns.schedule, ns.quotaSlice, i + 1);
        forall n | n in r.cs && n !in ds
          ensures NonZeroBefore(ns, n, r.done)
        {
          if n in es {
            assert ns.schedule[i].num != 0 && ns.schedule[i].cluster == n;
          }
        }
      }
    }
  }

  predicate NewOnes(cs: ClusterMap, ds: ClusterMap, ns: Namespace, i: nat)
    requires i <= |ns.schedule|
  {
    cs.Keys <= ds.Keys && forall n :: n in ds && n !in cs ==> NonZeroBefore(ns, n, i)
  }

  /** After a successful addition all clusters of the schedule are cached exactly when it was anchored before. */
  lemma AddedIsLiveIff(st: CacheState, ns: Namespace)
    requires Inv(st) && AddNs(st, ns).ok
    ensures AllLive(AddNs(st, ns).st.clusters, ns) <==> Anchored(st.clusters, ns)
    ensures st.clusters.Keys <= AddNs(st, ns).st.clusters.Keys
  {
    AddNsKeeps(st, ns);
    PlaceFromKeys(st.clusters, ns, 0);
    var cs := AddNs(st, ns).st.clusters;
    forall j | 0 <= j < |ns.schedule| && ns.schedule[j].num != 0
      ensures ns.schedule[j].cluster in cs
    {
      assert Holds(cs, ns, ns.schedule[j]);
    }
  }

  lemma LiveGrows(cs: ClusterMap, ds: ClusterMap, ns: Namespace)
    requires cs.Keys <= ds.Keys && AllLive(cs, ns)
    ensures AllLive(ds, ns) && Anchored(ds, ns)
  {
  }

  // ---------- other namespaces stay present ----------

  lemma PresentKept(cs: ClusterMap, ds: ClusterMap, key: NsKey, ns: Namespace)
    requires SameBut(cs, ds, key) && ns.Key() != key
    requires PresentUpTo(cs, ns, |ns.schedule|)
    ensures PresentUpTo(ds, ns, |ns.schedule|)
  {
    SameButOther(cs, ds, key, ns.Key());
    forall j | 0 <= j < |ns.schedule| && ns.schedule[j].num != 0
      ensures Holds(ds, ns, ns.schedule[j])
    {
      assert Holds(cs, ns, ns.schedule[j]);
    }
  }

  /** Clusters and bookings may only have been added. */
  ghost predicate Extends(cs: ClusterMap, ds: ClusterMap) {
    cs.Keys <= ds.Keys && forall n :: n in cs ==> ds[n].booked == cs[n].booked
  }

  lemma PresentExtends(cs: ClusterMap, ds: ClusterMap, ns: Namespace)
    requires Extends(cs, ds) && PresentUpTo(cs, ns, |ns.schedule|)
    ensures PresentUpTo(ds, ns, |ns.schedule|)
  {
    forall j | 0 <= j < |ns.schedule| && ns.schedule[j].num != 0
      ensures Holds(ds, ns, ns.schedule[j])
    {
      assert Holds(cs, ns, ns.schedule[j]);
    }
  }

  lemma CompleteExtends(st: CacheState, after: CacheState)
    requires Complete(st) && Extends(st.clusters, after.clusters) && after.namespaces == st.namespaces
    requires Settled(st)
    ensures Complete(after) && Settled(after)
  {
    forall key | key in st.namespaces
      ensures PresentUpTo(after.clusters, after.namespaces[key], |after.namespaces[key].schedule|)
    {
      PresentExtends(st.clusters, after.clusters, st.namespaces[key]);
    }
  }

  // ---------- namespace operations ----------

  lemma OtherStaysPresent(st: CacheState, ns: Namespace, key: NsKey)
    requires Conserved(st) && AddNs(st, ns).ok && key in st.namespaces && key != ns.Key()
    ensures PresentUpTo(AddNs(st, ns).st.clusters, st.namespaces[key], |st.namespaces[key].schedule|)
    ensures AllLive(AddNs(st, ns).st.clusters, st.namespaces[key])
  {
    AddNsKeeps(st, ns);
    var cs := AddNs(st, ns).st.clusters;
    PresentKept(st.clusters, cs, ns.Key(), st.namespaces[key]);
    LiveGrows(st.clusters, cs, st.namespaces[key]);
  }

  lemma AddedIsComplete(st: CacheState, ns: Namespace)
    requires Conserved(st) && Anchored(st.clusters, ns) && AddNs(st, ns).ok
    ensures Complete(AddNs(st, ns).st) && Settled(AddNs(st, ns).st)
  {
    AddNsKeeps(st, ns);
    AddedIsLiveIff(st, ns);
    var after := AddNs(st, ns).st;
    assert after.namespaces == st.namespaces[ns.Key() := ns];
    forall key | key in after.namespaces && key != ns.Key()
      ensures PresentUpTo(after.clusters, after.namespaces[key], |after.namespaces[key].schedule|)
      ensures AllLive(after.clusters, after.namespaces[key])
    {
      OtherStaysPresent(st, ns, key);
    }
  }

  lemma AddNsConserves(st: CacheState, ns: Namespace)
    requires Conserved(st) && Anchored(st.clusters, ns)
    ensures Conserved(AddNs(st, ns).st) && st.clusters.Keys <= AddNs(st, ns).st.clusters.Keys
  {
    AddNsKeeps(st, ns);
    if AddNs(st, ns).ok {
      AddedIsComplete(st, ns);
    } else {
      CompleteExtends(st, AddNs(st, ns).st);
    }
  }

  /** Removing a cached namespace never fails, and keeps everyone else present. */
  lemma RemoveNsConserves(st: CacheState, ns: Namespace)
    requires Conserved(st) && ns.Key() in st.namespaces && st.namespaces[ns.Key()] == ns
    ensures RemoveNs(st, ns).ok && Conserved(RemoveNs(st, ns).st) && RemoveNs(st, ns).st.clusters.Keys == st.clusters.Keys
  {
    RemoveNsKeeps(st, ns);
    var r := RemoveNs(st, ns);
    forall key | key in r.st.namespaces
      ensures PresentUpTo(r.st.clusters, r.st.namespaces[key], |r.st.namespaces[key].schedule|)
      ensures AllLive(r.st.clusters, r.st.namespaces[key])
    {
      PresentKept(st.clusters, r.st.clusters, ns.Key(), st.namespaces[key]);
    }
  }

  lemma UpdateNsConserves(st: CacheState, o: Namespace, n: Namespace)
    requires Conserved(st) && Anchored(st.clusters, n)
    requires o.Key() in st.namespaces && st.namespaces[o.Key()] == o
    ensures Conserved(UpdateNs(st, o, n).st)
  {
    RemoveNsConserves(st, o);
    var removed := RemoveNs(st, o).st;
    AddNsConserves(removed, n);
    var mid := AddNs(removed, n).st;
    LiveGrows(st.clusters, mid.clusters, o);
    AddNsConserves(mid, o);
  }

  lemma {:induction false} RemoveEachConserves(st: CacheState, nss: seq<Namespace>, i: nat)
    requires i <= |nss| && Conserved(st) && CachedFrom(st, nss, i)
    ensures var r := RemoveEach(st, nss, i); r.done == |nss| && Conserved(r.st)
    decreases |nss| - i
  {
    if i < |nss| {
      RemoveNsConserves(st, nss[i]);
      var next := RemoveFirst(st, nss, i);
      RemoveEachConserves(next.st, nss, i + 1);
    }
  }

  lemma RemoveTenantConserves(st: CacheState, t: string, nss: seq<Namespace>)
    requires Conserved(st) && Collects(st, t, nss)
    ensures var r := RemoveTenantOf(st, t, nss); r.ok && Conserved(r.st)
  {
    CollectedCached(st, t, nss);
    RemoveEachConserves(st, nss, 0);
    var p := RemoveEach(st, nss, 0).st;
    var after := RemoveTenantOf(st, t, nss).st;
    BookingsKept(p, after);
    CompleteExtends(p, after);
  }

  // ---------- every step ----------

  lemma OtherStepExtends(st: CacheState, op: Op)
    requires Inv(st) && !op.RemoveCluster? && !op.GarbageCollection? && !op.RemoveTenant?
    requires !op.AddNamespace? && !op.UpdateNamespace? && !op.RemoveNamespace?
    ensures var after := Step(st, op).st;
            Extends(st.clusters, after.clusters) && after.namespaces == st.namespaces
  {
    if op.AddPod? || op.RemovePod? {
      PodOpsPodsOnly(st, op.pod);
      PodsOnlyExtends(st.clusters, Step(st, op).st.clusters);
    } else if op.AddProvision? || op.RemoveProvision? {
      ProvisionExtends(st, op);
    }
  }

  lemma ProvisionExtends(st: CacheState, op: Op)
    requires op.AddProvision? || op.RemoveProvision?
    ensures var after := Step(st, op).st;
            Extends(st.clusters, after.clusters) && after.namespaces == st.namespaces
  {
    if op.AddProvision? {
      AddProvisionExtends(st, op.name, op.key, op.slices);
    }
  }

  lemma AddProvisionExtends(st: CacheState, n: string, key: NsKey, slices: seq<Slice>)
    ensures var after := AddProvisionTo(st, n, key, slices).st;
            Extends(st.clusters, after.clusters) && after.namespaces == st.namespaces
  {
    if n in st.clusters {
      var after := AddProvisionTo(st, n, key, slices).st.clusters;
      assert after == st.clusters[n := st.clusters[n].(provisioned := after[n].provisioned)];
    }
  }

  lemma PodsOnlyExtends(cs: ClusterMap, ds: ClusterMap)
    requires PodsOnly(cs, ds)
    ensures Extends(cs, ds)
  {
  }

  lemma StepConserves(st: CacheState, op: Op)
    requires Conserved(st) && Conserving(st, op)
    ensures Conserved(Step(st, op).st)
    ensures op.RemoveTenant? ==> Step(st, op).ok
    ensures op.RemoveNamespace? && op.ns.Key() in st.namespaces ==> Step(st, op).ok
  {
    if op.RemoveTenant? {
      RemoveTenantConserves(st, op.tenant, op.order);
    } else if op.AddNamespace? {
      if op.ns.Key() in st.namespaces {
        UpdateNsConserves(st, st.namespaces[op.ns.Key()], op.ns);
      } else {
        AddNsConserves(st, op.ns);
      }
    } else if op.UpdateNamespace? {
      if op.oldNs.Key() in st.namespaces {
        UpdateNsConserves(st, op.oldNs, op.newNs);
      }
    } else if op.RemoveNamespace? {
      if op.ns.Key() in st.namespaces {
        RemoveNsConserves(st, op.ns);
      }
    } else {
      StepKeeps(st, op);
      OtherStepExtends(st, op);
      CompleteExtends(st, Step(st, op).st);
    }
  }

  lemma {:induction false} RunConserves(st: CacheState, ops: seq<Op>)
    requires Conserved(st) && ConservingRun(st, ops)
    ensures Conserved(Run(st, ops))
    decreases |ops|
  {
    if ops != [] {
      StepConserves(st, ops[0]);
      RunConserves(Step(st, ops[0]).st, ops[1..]);
    }
  }

  // ---------- the number of slices held equals the number the quota asks for ----------

  function HeldIn(cs: ClusterMap, key: NsKey, n: string): nat {
    if n in cs && key in cs[n].booked.items then |cs[n].booked.items[key]| else 0
  }

  function HeldPer(cs: ClusterMap, key: NsKey, names: set<string>): map<string, int> {
    map n | n in names :: HeldIn(cs, key, n)
  }

  /** All slices held for `key` in the clusters `names`. */
  ghost function Held(cs: ClusterMap, key: NsKey, names: set<string>): nat {
    SumBounds(HeldPer(cs, key, names));
    Sum(HeldPer(cs, key, names))
  }

  lemma HeldSplit(cs: ClusterMap, key: NsKey, names: set<string>, n: string)
    requires n in names
    ensures Held(cs, key, names) == HeldIn(cs, key, n) + Held(cs, key, names - {n})
  {
    SumSplit(HeldPer(cs, key, names), n);
    assert HeldPer(cs, key, names) - {n} == HeldPer(cs, key, names - {n});
  }

  lemma HeldNothing(cs: ClusterMap, key: NsKey, names: set<string>)
    requires forall n :: n in names ==> HeldIn(cs, key, n) == 0
    ensures Held(cs, key, names) == 0
  {
    SumBounds(HeldPer(cs, key, names));
  }

  /** What the placements hold: a negative count holds nothing. */
  function PositiveSum(schedule: seq<Placement>): nat {
    if schedule == [] then 0
    else
      var n := schedule[|schedule| - 1].num;
      PositiveSum(schedule[..|schedule| - 1]) + if n > 0 then n else 0
  }

  predicate NoneNegative(schedule: seq<Placement>) {
    forall j :: 0 <= j < |schedule| ==> schedule[j].num >= 0
  }

  lemma {:induction false} PositiveSumIff(schedule: seq<Placement>)
    ensures PositiveSum(schedule) >= SumNum(schedule)
    ensures PositiveSum(schedule) == SumNum(schedule) <==> NoneNegative(schedule)
  {
    if schedule != [] {
      var n := |schedule| - 1;
      PositiveSumIff(schedule[..n]);
      assert forall j :: 0 <= j < n ==> schedule[..n][j] == schedule[j];
      assert NoneNegative(schedule) <==> NoneNegative(schedule[..n]) && schedule[n].num >= 0;
    }
  }

  /** The clusters counted so far are those of the first `i` placements. */
  ghost predicate Spans(cs: ClusterMap, ns: Namespace, names: set<string>, i: nat)
    requires i <= |ns.schedule|
  {
    && (forall j :: 0 <= j < i && ns.schedule[j].num != 0 ==> ns.schedule[j].cluster in names)
    && (forall n :: n in names && HeldIn(cs, ns.Key(), n) != 0 ==> NonZeroBefore(ns, n, i))
  }

  lemma SpansLess(cs: ClusterMap, ns: Namespace, names: set<string>, i: nat)
    requires i < |ns.schedule| && DistinctUpTo(ns, i + 1) && Spans(cs, ns, names, i + 1)
    ensures ns.schedule[i].num == 0 ==> Spans(cs, ns, names, i)
    ensures ns.schedule[i].num != 0 ==> Spans(cs, ns, names - {ns.schedule[i].cluster}, i)
  {
    var c := ns.schedule[i].cluster;
    forall n | n in names && HeldIn(cs, ns.Key(), n) != 0 && (n != c || ns.schedule[i].num == 0)
      ensures NonZeroBefore(ns, n, i)
    {
      assert NonZeroBefore(ns, n, i + 1);
      var j :| 0 <= j < i + 1 && ns.schedule[j].num != 0 && ns.schedule[j].cluster == n;
      assert j != i;
    }
  }

  lemma PositiveSumStep(schedule: seq<Placement>, i: nat)
    requires i < |schedule|
    ensures PositiveSum(schedule[..i + 1]) == PositiveSum(schedule[..i]) + if schedule[i].num > 0 then schedule[i].num else 0
  {
    assert schedule[..i + 1][..i] == schedule[..i];
  }

  /** Counting cluster by cluster gives the sum over the schedule. */
  lemma {:induction false} HeldIsScheduled(cs: ClusterMap, ns: Namespace, names: set<string>, i: nat)
    requires i <= |ns.schedule| && DistinctUpTo(ns, i) && PresentUpTo(cs, ns, i) && Spans(cs, ns, names, i)
    ensures Held(cs, ns.Key(), names) == PositiveSum(ns.schedule[..i])
    decreases i
  {
    if i == 0 {
      assert forall n :: !NonZeroBefore(ns, n, 0);
      HeldNothing(cs, ns.Key(), names);
    } else {
      var p := ns.schedule[i - 1];
      PositiveSumStep(ns.schedule, i - 1);
      SpansLess(cs, ns, names, i - 1);
      if p.num == 0 {
        HeldIsScheduled(cs, ns, names, i - 1);
      } else {
        assert Holds(cs, ns, p);
        HeldSplit(cs, ns.Key(), names, p.cluster);
        HeldIsScheduled(cs, ns, names - {p.cluster}, i - 1);
      }
    }
  }

  /**
   The slices a cached namespace holds, over all clusters, number exactly the least fit of its quota if and
   only if none of its counts is negative; a negative count makes it hold more.
   */
  lemma HeldIsLeastFit(st: CacheState, key: NsKey)
    requires Conserved(st) && key in st.namespaces
    ensures var ns := st.namespaces[key];
            var need, held := LeastFit(ns.quota, ns.quotaSlice), Held(st.clusters, key, st.clusters.Keys);
            need.Some? && need.value <= held && (need.value == held <==> NoneNegative(ns.schedule))
  {
    var ns := st.namespaces[key];
    forall n | n in st.clusters && HeldIn(st.clusters, key, n) != 0
      ensures NonZeroBefore(ns, n, |ns.schedule|)
    {
      assert Backed(ns, n, st.clusters[n].booked.items[key]);
    }
    HeldIsScheduled(st.clusters, ns, st.clusters.Keys, |ns.schedule|);
    assert ns.schedule[..|ns.schedule|] == ns.schedule;
    PositiveSumIff(ns.schedule);
  }

  /** The theorem for runs that start from an empty cache. */
  lemma ConservationTheorem(ops: seq<Op>, key: NsKey)
    requires ConservingRun(EMPTY_CACHE, ops)
    requires key in Run(EMPTY_CACHE, ops).namespaces
    ensures var st := Run(EMPTY_CACHE, ops);
            var ns := st.namespaces[key];
            && PresentUpTo(st.clusters, ns, |ns.schedule|)
            && (LeastFit(ns.quota, ns.quotaSlice) == Some(Held(st.clusters, key, st.clusters.Keys)) <==> NoneNegative(ns.schedule))
            && RemoveNs(st, ns).ok
  {
    EmptyCacheAccounts();
    RunConserves(EMPTY_CACHE, ops);
    ConservedMeans(Run(EMPTY_CACHE, ops), key);
  }

  lemma ConservedMeans(st: CacheState, key: NsKey)
    requires Conserved(st) && key in st.namespaces
    ensures var ns := st.namespaces[key];
            && PresentUpTo(st.clusters, ns, |ns.schedule|)
            && (LeastFit(ns.quota, ns.quotaSlice) == Some(Held(st.clusters, key, st.clusters.Keys)) <==> NoneNegative(ns.schedule))
            && RemoveNs(st, ns).ok
  {
    HeldIsLeastFit(st, key);
    RemoveNsConserves(st, st.namespaces[key]);
  }
}
