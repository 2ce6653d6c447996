/**
 A plan made on the snapshot is accepted by the cache: if the algorithm found a place for every
 slice, the commit fails only where a cluster does not know a resource of the slice at all.
 */
module PlanAcceptance {
  import opened Resources
  import opened SliceMath
  import opened Clusters
  import opened CacheModel
  import opened CacheAccounting
  import opened CacheTransactions
  import opened Algorithm
  import opened NamespaceSnapshot

  // ---------- counting the plan ----------

  function CountOn(out: seq<SliceInfo>, c: string): nat {
    if out == [] then 0
    else CountOn(out[..|out| - 1], c) + if out[|out| - 1].result == c then 1 else 0
  }

  function CountIn(out: seq<SliceInfo>, names: set<string>): nat {
    if out == [] then 0
    else CountIn(out[..|out| - 1], names) + if out[|out| - 1].result in names then 1 else 0
  }

  function Results(out: seq<SliceInfo>): set<string> {
    set s | s in out :: s.result
  }

  lemma {:induction false} CountInAdd(out: seq<SliceInfo>, names: set<string>, c: string)
    requires c !in names
    ensures CountIn(out, names + {c}) == CountIn(out, names) + CountOn(out, c)
  {
    if out != [] {
      CountInAdd(out[..|out| - 1], names, c);
    }
  }

  lemma {:induction false} CountInAll(out: seq<SliceInfo>, names: set<string>)
    requires Results(out) <= names
    ensures CountIn(out, names) == |out|
  {
    if out != [] {
      var front := out[..|out| - 1];
      assert out[|out| - 1] in out;
      assert forall s :: s in front ==> s in out;
      assert Results(front) <= names;
      CountInAll(front, names);
    }
  }

  lemma {:induction false} CountInNone(out: seq<SliceInfo>)
    ensures CountIn(out, {}) == 0
  {
    if out != [] {
      CountInNone(out[..|out| - 1]);
    }
  }

  lemma {:induction false} CountOnPositive(out: seq<SliceInfo>, c: string)
    ensures CountOn(out, c) > 0 <==> c in Results(out)
  {
    if out != [] {
      var m := |out| - 1;
      CountOnPositive(out[..m], c);
      assert out == out[..m] + [out[m]];
      assert Results(out) == Results(out[..m]) + {out[m].result};
    }
  }

  /** A schedule built from a placement map names each cluster once. */
  predicate DistinctClusters(ns: Namespace) {
    forall j, k :: 0 <= j < k < |ns.schedule| ==> ns.schedule[j].cluster != ns.schedule[k].cluster
  }

  lemma NamesBefore(ns: Namespace, i: nat)
    requires DistinctClusters(ns) && i < |ns.schedule|
    ensures ns.schedule[i].cluster !in Names(ns.schedule[..i])
    ensures Names(ns.schedule[..i + 1]) == Names(ns.schedule[..i]) + {ns.schedule[i].cluster}
  {
    NamesSnoc(ns.schedule, i);
    assert forall q :: q in ns.schedule[..i] ==> q.cluster != ns.schedule[i].cluster;
  }

  /** The schedule is the plan, cluster by cluster. */
  ghost predicate Tallies(ns: Namespace, out: seq<SliceInfo>) {
    && DistinctClusters(ns) && Names(ns.schedule) == Results(out)
    && forall p :: p in ns.schedule ==> p.num == CountOn(out, p.cluster)
  }

  lemma {:induction false} TallySum(ns: Namespace, out: seq<SliceInfo>, i: nat)
    requires Tallies(ns, out) && i <= |ns.schedule|
    ensures SumNum(ns.schedule[..i]) == CountIn(out, Names(ns.schedule[..i]))
  {
    if i == 0 {
      CountInNone(out);
      assert Names(ns.schedule[..0]) == {};
    } else {
      TallySum(ns, out, i - 1);
      NamesBefore(ns, i - 1);
      var p := ns.schedule[i - 1];
      assert p in ns.schedule;
      CountInAdd(out, Names(ns.schedule[..i - 1]), p.cluster);
      assert ns.schedule[..i][..i - 1] == ns.schedule[..i - 1];
    }
  }

  /** The placements sum to the number of slices. */
  lemma TallyTotal(ns: Namespace, out: seq<SliceInfo>)
    requires Tallies(ns, out)
    ensures SumNum(ns.schedule) == |out|
  {
    TallySum(ns, out, |ns.schedule|);
    assert ns.schedule[..|ns.schedule|] == ns.schedule;
    CountInAll(out, Names(ns.schedule));
  }

  /** Every slice found a place, and all ask for the namespace's slice. */
  predicate AllPlaced(ns: Namespace, out: seq<SliceInfo>) {
    forall s :: s in out ==> !s.failed && s.request == ns.quotaSlice
  }

  lemma {:induction false} AssignedIsCount(ns: Namespace, out: seq<SliceInfo>, c: string, k: Res)
    requires AllPlaced(ns, out)
    ensures Assigned(out, c, k) == CountOn(out, c) * Amount(ns.quotaSlice, k)
  {
    if out != [] {
      var m := |out| - 1;
      assert out[m] in out;
      assert forall s :: s in out[..m] ==> s in out;
      AssignedIsCount(ns, out[..m], c, k);
      var unit := Amount(ns.quotaSlice, k);
      assert (CountOn(out[..m], c) + 1) * unit == CountOn(out[..m], c) * unit + unit;
    }
  }

  // ---------- room in the cache ----------

  /** The cluster accounts for every resource of the slice. */
  predicate Knows(c: ClusterState, slice: ResourceList) {
    slice.Keys <= c.capacity.Keys && slice.Keys <= c.booked.alloc.Keys
  }

  predicate HasRoom(c: ClusterState, slice: ResourceList, num: nat) {
    forall k :: k in c.capacity ==> Amount(c.booked.alloc, k) + num * Amount(slice, k) <= c.capacity[k]
  }

  predicate RoomFor(cs: ClusterMap, ns: Namespace) {
    forall p :: p in ns.schedule ==> p.num > 0 && p.cluster in cs && HasRoom(cs[p.cluster], ns.quotaSlice, p.num)
  }

  lemma PlanLeavesRoom(cs: ClusterMap, ns: Namespace, out: seq<SliceInfo>)
    requires Planned(LiveUsage(cs), out) && LiveUsage(cs) != map[]
    requires AllPlaced(ns, out) && Tallies(ns, out)
    ensures RoomFor(cs, ns)
  {
    forall p | p in ns.schedule
      ensures p.num > 0 && p.cluster in cs && HasRoom(cs[p.cluster], ns.quotaSlice, p.num)
    {
      assert p.cluster in Names(ns.schedule);
      PlannedRoom(cs, ns, out, p.cluster);
    }
  }

  lemma PlannedRoom(cs: ClusterMap, ns: Namespace, out: seq<SliceInfo>, c: string)
    requires Planned(LiveUsage(cs), out) && LiveUsage(cs) != map[]
    requires AllPlaced(ns, out) && c in Results(out)
    ensures CountOn(out, c) > 0 && c in cs && HasRoom(cs[c], ns.quotaSlice, CountOn(out, c))
  {
    CountOnPositive(out, c);
    var s :| s in out && s.result == c;
    var i :| 0 <= i < |out| && out[i] == s;
    PlacedWhere(LiveUsage(cs), out, i);
    assert Received(out, c);
    forall k | k in cs[c].capacity
      ensures Amount(cs[c].booked.alloc, k) + CountOn(out, c) * Amount(ns.quotaSlice, k) <= cs[c].capacity[k]
    {
      PlanWithinCapacity(LiveUsage(cs), out, c, k);
      PlanConserves(LiveUsage(cs), out, c, k);
      AssignedIsCount(ns, out, c, k);
    }
  }

  /** With room for the slices, the only objection a cluster can raise is a resource it does not know. */
  lemma AdmitsIffKnown(c: ClusterState, ns: Namespace, p: Placement)
    requires c.name == p.cluster && p.num > 0 && HasRoom(c, ns.quotaSlice, p.num)
    ensures Admits(c.name, c.capacity, c.booked.alloc, SlicesFor(ns.Key(), p, ns.quotaSlice)) <==> Knows(c, ns.quotaSlice)
  {
    var slices := SlicesFor(ns.Key(), p, ns.quotaSlice);
    assert slices[0] in slices;
    forall i | 0 <= i < |slices|
      ensures slices[i].cluster == c.name && slices[i].unit == ns.quotaSlice
    {
      assert slices[i] in slices;
    }
    forall k
      ensures SumUnits(slices, k) == p.num * Amount(ns.quotaSlice, k)
    {
      SumCopies(p.num, Slice(ns.Key(), ns.quotaSlice, p.cluster), k);
    }
    if Knows(c, ns.quotaSlice) {
      assert FitsUnit(c.capacity, c.booked.alloc, slices, ns.quotaSlice);
    } else {
      assert !FitsUnit(c.capacity, c.booked.alloc, slices, slices[0].unit);
    }
  }

  predicate KnownFrom(cs: ClusterMap, ns: Namespace, i: nat)
    requires i <= |ns.schedule|
  {
    forall j :: i <= j < |ns.schedule| ==> ns.schedule[j].cluster in cs && Knows(cs[ns.schedule[j].cluster], ns.quotaSlice)
  }

  predicate UntouchedFrom(cs: ClusterMap, ds: ClusterMap, ns: Namespace, i: nat)
    requires i <= |ns.schedule|
  {
    forall j :: i <= j < |ns.schedule| ==>
      ns.schedule[j].cluster in cs && ns.schedule[j].cluster in ds && ds[ns.schedule[j].cluster] == cs[ns.schedule[j].cluster]
  }

  lemma PlaceAccepted(cs: ClusterMap, ds: ClusterMap, ns: Namespace, i: nat)
    requires AllBalanced(cs) && KeyFree(cs, ns.Key()) && DistinctClusters(ns) && RoomFor(cs, ns)
    requires i < |ns.schedule| && UntouchedFrom(cs, ds, ns, i)
    ensures var p := ns.schedule[i];
            var next := Place(ds, ns.Key(), p, ns.quotaSlice);
            && (next.Some? <==> Knows(cs[p.cluster], ns.quotaSlice))
            && (next.Some? ==> UntouchedFrom(cs, next.value, ns, i + 1))
  {
    var p := ns.schedule[i];
    assert p in ns.schedule;
    AdmitsIffKnown(cs[p.cluster], ns, p);
    assert forall j :: i < j < |ns.schedule| ==> ns.schedule[j].cluster != p.cluster;
  }

  lemma {:induction false} PlaceFromAccepted(cs: ClusterMap, ds: ClusterMap, ns: Namespace, i: nat)
    requires AllBalanced(cs) && KeyFree(cs, ns.Key()) && DistinctClusters(ns) && RoomFor(cs, ns)
    requires i <= |ns.schedule| && UntouchedFrom(cs, ds, ns, i)
    ensures PlaceFrom(ds, ns.Key(), ns.schedule, ns.quotaSlice, i).done == |ns.schedule| <==> KnownFrom(cs, ns, i)
    decreases |ns.schedule| - i
  {
    if i < |ns.schedule| {
      PlaceAccepted(cs, ds, ns, i);
      var next := Place(ds, ns.Key(), ns.schedule[i], ns.quotaSlice);
      if next.Some? {
        PlaceFromAccepted(cs, next.value, ns, i + 1);
      }
    }
  }

  // ---------- the commit ----------

  /** The clusters the plan was made for: the cache without the old namespace. */
  function Base(st: CacheState, key: NsKey): ClusterMap {
    if key in st.namespaces then Cleared(st.clusters, key, Names(st.namespaces[key].schedule)) else st.clusters
  }

  /** What the engine does with the planned namespace. */
  ghost function Commit(st: CacheState, ns: Namespace): Outcome {
    if ns.Key() in st.namespaces then UpdateNs(st, st.namespaces[ns.Key()], ns) else AddNs(st, ns)
  }

  ghost predicate PlanFor(st: CacheState, ns: Namespace, out: seq<SliceInfo>) {
    var base := Base(st, ns.Key());
    && LiveUsage(base) != map[] && Planned(LiveUsage(base), out)
    && AllPlaced(ns, out) && Tallies(ns, out)
    && LeastFit(ns.quota, ns.quotaSlice) == Some(|out|)
  }

  lemma AddAccepted(st: CacheState, ns: Namespace, out: seq<SliceInfo>)
    requires Inv(st) && ns.Key() !in st.namespaces
    requires LiveUsage(st.clusters) != map[] && Planned(LiveUsage(st.clusters), out)
    requires AllPlaced(ns, out) && Tallies(ns, out) && LeastFit(ns.quota, ns.quotaSlice) == Some(|out|)
    ensures AddNs(st, ns).ok <==> KnownFrom(st.clusters, ns, 0)
  {
    TallyTotal(ns, out);
    PlanLeavesRoom(st.clusters, ns, out);
    assert UntouchedFrom(st.clusters, st.clusters, ns, 0) by {
      assert forall j :: 0 <= j < |ns.schedule| ==> ns.schedule[j] in ns.schedule;
    }
    assert KeyFree(st.clusters, ns.Key());
    PlaceFromAccepted(st.clusters, st.clusters, ns, 0);
    AddNsUnfolds(st, ns);
  }

  /**
   The commit of a complete plan, for a new or a rescheduled namespace whose old clusters are all
   cached, fails only for a cluster that does not know a resource of the slice.
   */
  lemma CommitAccepted(st: CacheState, ns: Namespace, out: seq<SliceInfo>)
    requires Inv(st) && PlanFor(st, ns, out)
    requires ns.Key() in st.namespaces ==> AllLive(st.clusters, st.namespaces[ns.Key()])
    ensures Commit(st, ns).ok <==> KnownFrom(Base(st, ns.Key()), ns, 0)
  {
    if ns.Key() in st.namespaces {
      var cur := st.namespaces[ns.Key()];
      RemoveNsKeeps(st, cur);
      RemovedWhole(st, cur);
      AddAccepted(RemoveNs(st, cur).st, ns, out);
    } else {
      AddAccepted(st, ns, out);
    }
  }

  // ---------- and it ends within capacity ----------

  lemma GrownWithin(c: ClusterState, ns: Namespace, p: Placement, k: Res)
    requires p.num > 0 && HasRoom(c, ns.quotaSlice, p.num) && k in c.capacity
    requires AddItem(c.name, c.capacity, c.booked, ns.Key(), SlicesFor(ns.Key(), p, ns.quotaSlice)).Some?
    ensures Amount(AddItem(c.name, c.capacity, c.booked, ns.Key(), SlicesFor(ns.Key(), p, ns.quotaSlice)).value.alloc, k) <= c.capacity[k]
  {
    SumCopies(p.num, Slice(ns.Key(), ns.quotaSlice, p.cluster), k);
  }

  /** Clusters already served stay as they are, within capacity. */
  ghost predicate WithinUpTo(ds: ClusterMap, ns: Namespace, i: nat)
    requires i <= |ns.schedule|
  {
    forall j :: 0 <= j < i ==> ns.schedule[j].cluster in ds && WithinAll(ds[ns.schedule[j].cluster])
  }

  predicate WithinAll(c: ClusterState) {
    forall k :: k in c.capacity ==> Amount(c.booked.alloc, k) <= c.capacity[k]
  }

  /** The cluster's entry after the placement. */
  lemma PlacedEntry(ds: ClusterMap, ns: Namespace, p: Placement)
    requires p.num > 0 && p.cluster in ds && HasRoom(ds[p.cluster], ns.quotaSlice, p.num)
    requires Place(ds, ns.Key(), p, ns.quotaSlice).Some?
    ensures var es := Place(ds, ns.Key(), p, ns.quotaSlice).value;
            p.cluster in es && es == ds[p.cluster := es[p.cluster]] && WithinAll(es[p.cluster])
  {
    var c := ds[p.cluster];
    var es := Place(ds, ns.Key(), p, ns.quotaSlice).value;
    forall k | k in c.capacity
      ensures Amount(es[p.cluster].booked.alloc, k) <= c.capacity[k]
    {
      GrownWithin(c, ns, p, k);
    }
  }

  lemma PlaceWithin(ds: ClusterMap, es: ClusterMap, ns: Namespace, i: nat)
    requires i < |ns.schedule| && WithinUpTo(ds, ns, i) && DistinctClusters(ns)
    requires ns.schedule[i].cluster in es && es == ds[ns.schedule[i].cluster := es[ns.schedule[i].cluster]]
    requires WithinAll(es[ns.schedule[i].cluster])
    ensures WithinUpTo(es, ns, i + 1)
  {
    assert forall j :: 0 <= j < i ==> ns.schedule[j].cluster != ns.schedule[i].cluster;
  }

  lemma {:induction false} PlaceFromWithin(cs: ClusterMap, ds: ClusterMap, ns: Namespace, i: nat)
    requires AllBalanced(cs) && KeyFree(cs, ns.Key()) && DistinctClusters(ns) && RoomFor(cs, ns)
    requires i <= |ns.schedule| && UntouchedFrom(cs, ds, ns, i) && WithinUpTo(ds, ns, i)
    ensures var r := PlaceFrom(ds, ns.Key(), ns.schedule, ns.quotaSlice, i);
            r.done == |ns.schedule| ==> WithinUpTo(r.cs, ns, |ns.schedule|)
    decreases |ns.schedule| - i
  {
    if i < |ns.schedule| {
      var next := Place(ds, ns.Key(), ns.schedule[i], ns.quotaSlice);
      if next.Some? {
        PlaceAccepted(cs, ds, ns, i);
        assert ns.schedule[i] in ns.schedule;
        PlacedEntry(ds, ns, ns.schedule[i]);
        PlaceWithin(ds, next.value, ns, i);
        PlaceFromWithin(cs, next.value, ns, i + 1);
      }
    }
  }

  lemma AddWithin(st: CacheState, ns: Namespace, out: seq<SliceInfo>)
    requires Inv(st) && ns.Key() !in st.namespaces
    requires LiveUsage(st.clusters) != map[] && Planned(LiveUsage(st.clusters), out)
    requires AllPlaced(ns, out) && Tallies(ns, out) && AddNs(st, ns).ok
    ensures WithinUpTo(AddNs(st, ns).st.clusters, ns, |ns.schedule|)
  {
    PlanLeavesRoom(st.clusters, ns, out);
    assert UntouchedFrom(st.clusters, st.clusters, ns, 0) by {
      assert forall j :: 0 <= j < |ns.schedule| ==> ns.schedule[j] in ns.schedule;
    }
    assert KeyFree(st.clusters, ns.Key());
    PlaceFromWithin(st.clusters, st.clusters, ns, 0);
  }

  /** After a successful commit every cluster the namespace was placed on is within its capacity. */
  lemma CommitWithinCapacity(st: CacheState, ns: Namespace, out: seq<SliceInfo>)
    requires Inv(st) && PlanFor(st, ns, out) && Commit(st, ns).ok
    ensures WithinUpTo(Commit(st, ns).st.clusters, ns, |ns.schedule|)
  {
    if ns.Key() in st.namespaces {
      var cur := st.namespaces[ns.Key()];
      RemoveNsKeeps(st, cur);
      RemovedWhole(st, cur);
      AddWithin(RemoveNs(st, cur).st, ns, out);
    } else {
      AddWithin(st, ns, out);
    }
  }
}
