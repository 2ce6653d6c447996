/** `SnapshotForNamespaceSched`: the cache as the namespace scheduler sees it, without the old namespace. */
module NamespaceSnapshot {
  import opened Resources
  import opened Clusters
  import opened CacheModel
  import opened CacheAccounting
  import opened CacheTransactions
  import opened Snapshot
  import opened SchedulerCaches

  function UsageOf(c: ClusterState): ClusterUsage {
    ClusterUsage(c.capacity, c.booked.alloc, c.provisioned.alloc)
  }

  /** Shadow clusters have a made-up capacity and take no part in scheduling. */
  function LiveUsage(cs: ClusterMap): UsageMap {
    map n | n in cs && !cs[n].shadow :: UsageOf(cs[n])
  }

  /** Every non-shadow cluster the namespace is placed on has an entry for it, zero placements included. */
  predicate Traceable(cs: ClusterMap, ns: Namespace) {
    forall n :: n in Names(ns.schedule) && n in cs && !cs[n].shadow ==> ns.Key() in cs[n].booked.items
  }

  function PlacementMap(schedule: seq<Placement>): (m: map<string, int>)
    ensures m.Keys == Names(schedule)
  {
    if schedule == [] then map[]
    else
      var n := |schedule| - 1;
      assert schedule == schedule[..n] + [schedule[n]];
      PlacementMap(schedule[..n])[schedule[n].cluster := schedule[n].num]
  }

  /** Placement `j` is the last one on cluster `n`. */
  predicate LastOn(schedule: seq<Placement>, j: int, n: string) {
    && 0 <= j < |schedule| && schedule[j].cluster == n
    && forall i :: j < i < |schedule| ==> schedule[i].cluster != n
  }

  /** The map has the number of the last placement on each cluster. */
  lemma {:induction false} PlacementMapLast(schedule: seq<Placement>, j: int, n: string)
    requires LastOn(schedule, j, n)
    ensures n in PlacementMap(schedule) && PlacementMap(schedule)[n] == schedule[j].num
  {
    var m := |schedule| - 1;
    if j < m {
      assert schedule[m].cluster != n;
      assert forall i :: 0 <= i < m ==> schedule[..m][i] == schedule[i];
      PlacementMapLast(schedule[..m], j, n);
    }
  }

  lemma {:induction false} SomeLast(schedule: seq<Placement>, n: string) returns (j: int)
    requires n in Names(schedule)
    ensures LastOn(schedule, j, n)
  {
    var m := |schedule| - 1;
    j := m;
    if schedule[m].cluster != n {
      assert schedule == schedule[..m] + [schedule[m]];
      j := SomeLast(schedule[..m], n);
      assert forall i :: 0 <= i < m ==> schedule[..m][i] == schedule[i];
    }
  }

  method GetPlacementMap(schedule: seq<Placement>) returns (m: map<string, int>)
    ensures m == PlacementMap(schedule)
    ensures forall j, n :: LastOn(schedule, j, n) ==> n in m && m[n] == schedule[j].num
  {
    m := map[];
    for i := 0 to |schedule|
      invariant m == PlacementMap(schedule[..i])
    {
      assert schedule[..i + 1][..i] == schedule[..i];
      m := m[schedule[i].cluster := schedule[i].num];
    }
    assert schedule[..|schedule|] == schedule;
    forall j, n | LastOn(schedule, j, n)
      ensures n in m && m[n] == schedule[j].num
    {
      PlacementMapLast(schedule, j, n);
    }
  }

  lemma BackedPlaced(ns: Namespace, n: string, slices: seq<Slice>)
    requires Backed(ns, n, slices)
    ensures forall j :: 0 <= j < |slices| ==> slices[j].cluster == n
  {
    forall j | 0 <= j < |slices|
      ensures slices[j].cluster == n
    {
      assert slices[j] in slices;
    }
  }

  /** Taking one cluster's slices out of the snapshot is clearing that cluster in the cache. */
  lemma SnapshotStep(cs: ClusterMap, ns: Namespace, done: set<string>, n: string)
    requires AllBalanced(cs) && OnlyBacked(cs, ns)
    requires n in cs && !cs[n].shadow && n !in done && ns.Key() in cs[n].booked.items
    ensures RemoveAll(LiveUsage(Cleared(cs, ns.Key(), done)), cs[n].booked.items[ns.Key()])
            == Some(LiveUsage(Cleared(cs, ns.Key(), done + {n})))
  {
    var key := ns.Key();
    var u := LiveUsage(Cleared(cs, key, done));
    var slices := cs[n].booked.items[key];
    RemoveItemBalanced(cs[n].booked, key);
    assert Covered(u[n].alloc, slices);
    BackedPlaced(ns, n, slices);
    RemoveBlock(u, n, slices, |slices|);
    assert slices[..|slices|] == slices;
    ClearedUsage(cs, key, done, n);
  }

  lemma ClearedUsage(cs: ClusterMap, key: NsKey, done: set<string>, n: string)
    requires n in cs && !cs[n].shadow && n !in done && key in cs[n].booked.items
    requires Covered(cs[n].booked.alloc, cs[n].booked.items[key])
    ensures n in LiveUsage(Cleared(cs, key, done))
    ensures LiveUsage(Cleared(cs, key, done))[n].alloc == cs[n].booked.alloc
    ensures Reduced(LiveUsage(Cleared(cs, key, done)), n, cs[n].booked.items[key])
            == LiveUsage(Cleared(cs, key, done + {n}))
  {
    var u, v := LiveUsage(Cleared(cs, key, done)), LiveUsage(Cleared(cs, key, done + {n}));
    assert v[n] == u[n].(alloc := Shrunk(u[n].alloc, cs[n].booked.items[key]));
    assert forall m :: m in u && m != n ==> u[m] == v[m];
  }

  /** Clusters outside the snapshot do not matter. */
  lemma SnapshotSkip(cs: ClusterMap, key: NsKey, done: set<string>, n: string)
    requires n !in cs || cs[n].shadow
    ensures LiveUsage(Cleared(cs, key, done)) == LiveUsage(Cleared(cs, key, done + {n}))
  {
  }

  /** The first loop of the snapshot: a copy of every non-shadow cluster. */
  method CopyUsage(c: SchedulerCache) returns (usage: UsageMap)
    requires c.Valid()
    ensures usage == LiveUsage(c.View())
  {
    usage := map[];
    var todo := c.clusters.Keys;
    while todo != {}
      invariant todo <= c.clusters.Keys
      invariant forall n :: n in usage <==> n in c.View() && n !in todo && !c.View()[n].shadow
      invariant forall n :: n in usage ==> usage[n] == UsageOf(c.View()[n])
      decreases todo
    {
      var n :| n in todo;
      todo := todo - {n};
      var cluster := c.clusters[n];
      assert c.View()[n] == cluster.State();
      if !cluster.shadow {
        usage := usage[n := ClusterUsage(cluster.capacity, cluster.alloc, cluster.provision)];
      }
    }
  }

  /** The second loop: the slices the cached namespace holds in the snapshot's clusters. */
  method CollectSlices(c: SchedulerCache, usage: UsageMap, ns: Namespace, ghost cs: ClusterMap) returns (r: Option<seq<Slice>>)
    requires c.Valid() && cs == c.View() && usage == LiveUsage(cs)
    ensures AllBalanced(cs) && OnlyBacked(cs, ns) ==>
              && (r.Some? <==> Traceable(cs, ns))
              && (r.Some? ==> RemoveAll(usage, r.value) == Some(LiveUsage(Cleared(cs, ns.Key(), Names(ns.schedule)))))
  {
    ghost var ok := AllBalanced(cs) && OnlyBacked(cs, ns);
    var slices := [];
    var todo := PlacementMap(ns.schedule).Keys;
    ghost var done: set<string> := {};
    assert Cleared(cs, ns.Key(), {}) == cs;
    while todo != {}
      invariant done !! todo && done + todo == Names(ns.schedule)
      invariant forall n :: n in done && n in cs && !cs[n].shadow ==> ns.Key() in cs[n].booked.items
      invariant ok ==> RemoveAll(usage, slices) == Some(LiveUsage(Cleared(cs, ns.Key(), done)))
      decreases todo
    {
      var n :| n in todo;
      todo := todo - {n};
      if n in usage {
        var cluster := c.clusters[n];
        assert cs[n] == cluster.State();
        if ns.Key() !in cluster.allocItems {
          return None;
        }
        if ok {
          RemoveAllConcat(usage, slices, cluster.allocItems[ns.Key()]);
          SnapshotStep(cs, ns, done, n);
        }
        slices := slices + cluster.allocItems[ns.Key()];
      } else {
        SnapshotSkip(cs, ns.Key(), done, n);
      }
      done := done + {n};
    }
    return Some(slices);
  }

  method TakeOut(c: SchedulerCache, s: NamespaceSchedSnapshot, cur: Namespace, ghost cs: ClusterMap) returns (ok: bool)
    requires c.Valid() && cs == c.View() && s.usage == LiveUsage(cs)
    modifies s
    ensures AllBalanced(cs) && OnlyBacked(cs, cur) ==>
              && (ok <==> Traceable(cs, cur))
              && (ok ==> s.usage == LiveUsage(Cleared(cs, cur.Key(), Names(cur.schedule))))
  {
    var slices := CollectSlices(c, s.usage, cur, cs);
    if slices.None? {
      return false;
    }
    ok := s.RemoveSlices(slices.value);
  }

  lemma CachedFacts(st: CacheState, key: NsKey)
    requires Inv(st) && key in st.namespaces
    ensures AllBalanced(st.clusters) && OnlyBacked(st.clusters, st.namespaces[key]) && st.namespaces[key].Key() == key
  {
  }

  /** The snapshot without what the cache holds for the key, whatever namespace value was passed in. */
  function Remaining(st: CacheState, toRemove: Option<Namespace>): ClusterMap {
    if toRemove.Some? && toRemove.value.Key() in st.namespaces then
      var cur := st.namespaces[toRemove.value.Key()];
      Cleared(st.clusters, toRemove.value.Key(), Names(cur.schedule))
    else st.clusters
  }

  // ---------- what a snapshot shows ----------

  /** The list holds the totals of the items, resource by resource. */
  ghost predicate AddsUp(l: ResourceList, items: Items) {
    forall k :: Amount(l, k) == Total(items, k)
  }

  /** The cluster's capacity, what is provisioned on it, and what is booked on it for others than `gone`. */
  ghost predicate ShowsCluster(u: ClusterUsage, c: ClusterState, gone: set<NsKey>) {
    && u.capacity == c.capacity && AddsUp(u.provision, c.provisioned.items) && AddsUp(u.alloc, c.booked.items - gone)
    && u.alloc.Keys == c.booked.alloc.Keys
  }

  /** Exactly the clusters that are not shadows, each with its capacity, its provisions and its bookings. */
  ghost predicate Shows(u: UsageMap, cs: ClusterMap, gone: set<NsKey>) {
    && (forall n :: n in u <==> n in cs && !cs[n].shadow)
    && forall n :: n in u ==> ShowsCluster(u[n], cs[n], gone)
  }

  lemma LedgerAddsUp(l: Ledger)
    requires Balanced(l)
    ensures AddsUp(l.alloc, l.items)
  {
    forall k ensures Amount(l.alloc, k) == Total(l.items, k) { AmountIsTotal(l, k); }
  }

  lemma ClearedShows(c: ClusterState, key: NsKey)
    requires Balanced(c.booked) && Balanced(c.provisioned)
    ensures ShowsCluster(UsageOf(c), c, {}) && ShowsCluster(UsageOf(ClearedOne(c, key)), c, {key})
  {
    assert c.booked.items - {} == c.booked.items;
    LedgerAddsUp(c.booked);
    LedgerAddsUp(c.provisioned);
    RemoveItemBalanced(c.booked, key);
    LedgerAddsUp(RemoveItem(c.booked, key).value);
  }

  /** A cluster the namespace is not placed on holds nothing for it. */
  lemma NotPlacedHoldsNothing(cs: ClusterMap, ns: Namespace, n: string)
    requires OnlyBacked(cs, ns) && n in cs && n !in Names(ns.schedule)
    ensures ns.Key() !in cs[n].booked.items
  {
  }

  lemma UntouchedShows(c: ClusterState, key: NsKey)
    requires Balanced(c.booked) && Balanced(c.provisioned) && key !in c.booked.items
    ensures ShowsCluster(UsageOf(c), c, {key})
  {
    ClearedShows(c, key);
    assert c.booked.items - {key} == c.booked.items == c.booked.items - {};
  }

  /** The snapshot a plan for `key` is made on. */
  lemma ClearedSnapshotShows(st: CacheState, key: NsKey)
    requires Inv(st) && key in st.namespaces
    ensures Shows(LiveUsage(Cleared(st.clusters, key, Names(st.namespaces[key].schedule))), st.clusters, {key})
  {
    CachedFacts(st, key);
    var ns := st.namespaces[key];
    var u := LiveUsage(Cleared(st.clusters, key, Names(ns.schedule)));
    forall n | n in u
      ensures ShowsCluster(u[n], st.clusters[n], {key})
    {
      if n in Names(ns.schedule) {
        ClearedShows(st.clusters[n], key);
      } else {
        NotPlacedHoldsNothing(st.clusters, ns, n);
        UntouchedShows(st.clusters[n], key);
      }
    }
  }

  lemma WholeSnapshotShows(cs: ClusterMap, key: NsKey)
    requires AllBalanced(cs)
    ensures Shows(LiveUsage(cs), cs, {}) && (KeyFree(cs, key) ==> Shows(LiveUsage(cs), cs, {key}))
  {
    forall n | n in LiveUsage(cs)
      ensures ShowsCluster(LiveUsage(cs)[n], cs[n], {})
      ensures KeyFree(cs, key) ==> ShowsCluster(LiveUsage(cs)[n], cs[n], {key})
    {
      ClearedShows(cs[n], key);
      if KeyFree(cs, key) {
        UntouchedShows(cs[n], key);
      }
    }
  }

  function Gone(toRemove: Option<Namespace>): set<NsKey> {
    if toRemove.Some? then {toRemove.value.Key()} else {}
  }

  lemma SnapshotShows(st: CacheState, toRemove: Option<Namespace>)
    requires Inv(st)
    ensures Shows(LiveUsage(Remaining(st, toRemove)), st.clusters, Gone(toRemove))
  {
    var key := if toRemove.Some? then toRemove.value.Key() else NsKey("", "");
    WholeSnapshotShows(st.clusters, key);
    if toRemove.Some? && key in st.namespaces {
      ClearedSnapshotShows(st, key);
    }
  }

  method NewSnapshot(c: SchedulerCache, ghost cs: ClusterMap) returns (s: NamespaceSchedSnapshot)
    requires c.Valid() && cs == c.View()
    ensures fresh(s) && s.usage == LiveUsage(cs)
  {
    var usage := CopyUsage(c);
    s := new NamespaceSchedSnapshot();
    s.usage := usage;
  }

  /** The namespaces to be rescheduled are taken out of the snapshot. */
  method TakeOutOld(c: SchedulerCache, s: NamespaceSchedSnapshot, toRemove: Option<Namespace>, ghost st: CacheState) returns (ok: bool)
    requires c.Valid() && st == c.State() && s.usage == LiveUsage(st.clusters)
    modifies s
    ensures Inv(st) && ok ==> s.usage == LiveUsage(Remaining(st, toRemove))
    ensures Inv(st) ==> (!ok <==> toRemove.Some? && toRemove.value.Key() in st.namespaces
                                  && !Traceable(st.clusters, st.namespaces[toRemove.value.Key()]))
  {
    ok := true;
    if toRemove.Some? && toRemove.value.Key() in c.namespaces {
      var key := toRemove.value.Key();
      ok := TakeOut(c, s, c.namespaces[key], st.clusters);
      if Inv(st) {
        CachedFacts(st, key);
      }
    }
  }

  lemma UntraceableIff(cs: ClusterMap, ns: Namespace, key: NsKey)
    requires ns.Key() == key
    ensures !Traceable(cs, ns) <==>
            exists p :: p in ns.schedule && p.cluster in cs && !cs[p.cluster].shadow && key !in cs[p.cluster].booked.items
  {
    if n :| n in Names(ns.schedule) && n in cs && !cs[n].shadow && key !in cs[n].booked.items {
      var p :| p in ns.schedule && p.cluster == n;
      assert p.cluster in cs;
    }
    if p :| p in ns.schedule && p.cluster in cs && !cs[p.cluster].shadow && key !in cs[p.cluster].booked.items {
      assert p.cluster in Names(ns.schedule);
    }
  }

  method SnapshotForNamespaceSched(c: SchedulerCache, toRemove: Option<Namespace>, ghost st: CacheState)
    returns (r: Option<NamespaceSchedSnapshot>)
    requires c.Valid() && st == c.State()
    ensures r.Some? ==> fresh(r.value)
    ensures Inv(st) && r.Some? ==> r.value.usage == LiveUsage(Remaining(st, toRemove))
    ensures Inv(st) && r.Some? ==> Shows(r.value.usage, st.clusters, Gone(toRemove))
    ensures Inv(st) ==>
              (r.None? <==> (&& toRemove.Some? && toRemove.value.Key() in st.namespaces
                             && exists p :: p in st.namespaces[toRemove.value.Key()].schedule && p.cluster in st.clusters
                                  && !st.clusters[p.cluster].shadow && toRemove.value.Key() !in st.clusters[p.cluster].booked.items))
  {
    var s := NewSnapshot(c, st.clusters);
    var ok := TakeOutOld(c, s, toRemove, st);
    if Inv(st) && toRemove.Some? && toRemove.value.Key() in st.namespaces {
      UntraceableIff(st.clusters, st.namespaces[toRemove.value.Key()], toRemove.value.Key());
    }
    if !ok {
      return None;
    }
    if Inv(st) {
      SnapshotShows(st, toRemove);
    }
    return Some(s);
  }
}
