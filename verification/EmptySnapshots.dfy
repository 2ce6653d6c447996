/** What the engine does when no cluster takes part in scheduling: everything goes to a cluster without a name. */
module EmptySnapshots {
  import opened Resources
  import opened SliceMath
  import opened Clusters
  import opened CacheModel
  import opened CacheTransactions
  import opened Algorithm
  import opened NamespaceSnapshot
  import opened SliceRequests
  import opened PlanAcceptance
  import opened Engine

  // ---------- the plan ----------

  /** All `n` slices on the empty name. */
  function Nowhere(n: nat): seq<Placement> {
    if n == 0 then [] else [Placement("", n)]
  }

  /** Nothing fits or fails for want of room: a free slice goes to the empty name, a named one fails. */
  lemma EmptyChoice(out: seq<SliceInfo>, i: nat)
    requires Planned(map[], out) && i < |out|
    ensures out[i].mandatory == "" && out[i].hint == "" ==> !out[i].failed && out[i].result == ""
    ensures out[i].mandatory != "" ==> out[i].failed
  {
    AfterKeys(map[], out[..i]);
    assert After(map[], out[..i]) == map[];
    assert Chooses(map[], out[i], ChoiceOf(out[i]));
  }

  lemma {:induction false} AllOnOne(out: seq<SliceInfo>, c: string)
    requires forall s :: s in out ==> s.result == c
    ensures CountOn(out, c) == |out| && Results(out) == if out == [] then {} else {c}
  {
    if out != [] {
      var m := |out| - 1;
      assert out[m] in out;
      assert forall s :: s in out[..m] ==> s in out;
      AllOnOne(out[..m], c);
    }
  }

  lemma OnePlacement(ns: Namespace, out: seq<SliceInfo>)
    requires Tallies(ns, out) && forall s :: s in out ==> s.result == ""
    ensures ns.schedule == Nowhere(|out|)
  {
    AllOnOne(out, "");
    forall j | 0 <= j < |ns.schedule|
      ensures ns.schedule[j] == Placement("", |out|)
    {
      assert ns.schedule[j] in ns.schedule && ns.schedule[j].cluster in Names(ns.schedule);
    }
    assert |ns.schedule| >= 2 ==> ns.schedule[0].cluster != ns.schedule[1].cluster;
    SomeName(ns.schedule);
  }

  lemma SomeName(schedule: seq<Placement>)
    ensures Names(schedule) == {} <==> schedule == []
  {
    if schedule != [] {
      assert schedule[0].cluster in Names(schedule);
    }
  }

  predicate Hints(slices: seq<SliceInfo>) {
    exists s :: s in slices && s.mandatory == "" && s.hint != ""
  }

  predicate Demands(slices: seq<SliceInfo>) {
    exists s :: s in slices && s.mandatory != ""
  }

  lemma DemandFails(slices: seq<SliceInfo>, out: seq<SliceInfo>)
    requires SameSlices(slices, out) && Planned(map[], out) && !Hints(slices)
    ensures Demands(slices) <==> exists s :: s in out && s.failed
    ensures !Demands(slices) ==> forall s :: s in out ==> s.result == ""
  {
    forall i | 0 <= i < |out|
      ensures slices[i].mandatory != "" <==> out[i].failed
      ensures slices[i].mandatory == "" ==> out[i].result == ""
    {
      EmptyChoice(out, i);
      assert slices[i] in slices;
    }
    if s :| s in slices && s.mandatory != "" {
      var i :| 0 <= i < |slices| && slices[i] == s;
      assert out[i] in out && out[i].failed;
    }
    forall s | s in out
      ensures s.failed ==> Demands(slices)
      ensures !Demands(slices) ==> s.result == ""
    {
      var i :| 0 <= i < |out| && out[i] == s;
      assert slices[i] in slices;
    }
  }

  /** The one answer: a crash for any hint, a failure for any named cluster, and otherwise all slices on the empty name. */
  lemma EmptyPlan(ns: Namespace, slices: seq<SliceInfo>, out: seq<SliceInfo>, r: Plan)
    requires PlacesAs(map[], ns, slices, out, r)
    ensures r == if Hints(slices) then Crashed else if Demands(slices) then NoPlacement
                 else Ready(ns.(schedule := Nowhere(|slices|)))
  {
    assert (exists s :: s in slices && Perilous(map[], s)) <==> Hints(slices) by {
      assert forall s :: Perilous(map[], s) <==> s.mandatory == "" && s.hint != "";
    }
    if !Hints(slices) {
      DemandFails(slices, out);
      if !Demands(slices) {
        OnePlacement(r.ns, out);
      }
    }
  }

  /** The request names a cluster that is to hold slices. */
  ghost predicate NamesCluster(ns: Namespace) {
    var requested := PlacementMap(ns.schedule);
    exists c :: c != "" && c in requested && requested[c] > 0
  }

  lemma DemandsIff(st: CacheState, ns: Namespace, asked: seq<SliceInfo>)
    requires FitsQuota(st, ns) && Requests(st, ns, asked)
    ensures Demands(asked) <==> NamesCluster(ns)
  {
    var requested, previous := PlacementMap(ns.schedule), Previous(st, ns.Key());
    var left := LeftOf(requested, previous, requested.Keys);
    SumOverBounds(left, left.Keys);
    if c :| c != "" && c in requested && requested[c] > 0 {
      assert Count(asked, c, "") == requested[c];
      TaggedIff(asked, c, "");
    }
    if s :| s in asked && s.mandatory != "" {
      assert WellTagged(ns, requested, previous, s);
      TaggedIff(asked, s.mandatory, "");
      assert Count(asked, s.mandatory, "") == requested[s.mandatory];
    }
  }

  /** Within the quota, the answer read off the request and the cache, whatever the map orders. */
  lemma EmptySnapshotPlan(st: CacheState, ns: Namespace, asked: seq<SliceInfo>, out: seq<SliceInfo>, r: Plan)
    requires FitsQuota(st, ns) && !SliceChanged(st, ns) && !Untraceable(st, ns.Key())
    requires LiveUsage(st.clusters) == map[] && PlansAs(st, ns, asked, out, r)
    ensures r == if exists c :: StaleHint(st, ns, c) then Crashed else if NamesCluster(ns) then NoPlacement
                 else Ready(ns.(schedule := Nowhere(TotalSlices(LeastFit(ns.quota, ns.quotaSlice)))))
  {
    LiveBase(st, ns.Key());
    assert LiveUsage(Base(st, ns.Key())) == map[];
    EmptyPlan(ns, asked, out, r);
    CrashesIff(st, ns, asked, out, r);
    DemandsIff(st, ns, asked);
  }

  // ---------- the commit ----------

  /** The cluster that stands for the empty name: the cached one, or a shadow made for it. */
  function Nameless(cs: ClusterMap): ClusterState {
    if "" in cs then cs[""] else Shadow("")
  }

  /** It has the empty name, nothing of the namespace, and room for `n` slices of resources it knows. */
  predicate TakesAll(c: ClusterState, key: NsKey, slice: ResourceList, n: nat) {
    && c.name == "" && key !in c.booked.items
    && forall k :: k in slice ==> k in c.booked.alloc && k in c.capacity && c.booked.alloc[k] + n * slice[k] <= c.capacity[k]
  }

  lemma NamelessAdmits(c: ClusterState, key: NsKey, slice: ResourceList, n: nat)
    requires n > 0
    ensures AddItem(c.name, c.capacity, c.booked, key, SlicesFor(key, Placement("", n), slice)).Some? <==> TakesAll(c, key, slice, n)
  {
    var s := Slice(key, slice, "");
    var slices := Copies(n, s);
    assert slices == SlicesFor(key, Placement("", n), slice) && slices[0] in slices;
    forall k ensures SumUnits(slices, k) == n * Amount(slice, k) { SumCopies(n, s, k); }
    forall i | 0 <= i < n ensures slices[i] == s { assert slices[i] in slices; }
    assert FitsUnit(c.capacity, c.booked.alloc, slices, slice) <==>
           forall k :: k in slice ==> k in c.booked.alloc && k in c.capacity && c.booked.alloc[k] + n * Amount(slice, k) <= c.capacity[k];
    assert Admits(c.name, c.capacity, c.booked.alloc, slices) <==> c.name == "" && FitsUnit(c.capacity, c.booked.alloc, slices, slice);
  }

  /** A cluster has become, or stays, the holder of everything that found no place. */
  ghost predicate HeldNowhere(st: CacheState, ns: Namespace, n: nat, after: CacheState) {
    var c := Nameless(st.clusters);
    && "" in after.clusters && after.clusters[""].booked.items == c.booked.items[ns.Key() := SlicesFor(ns.Key(), Placement("", n), ns.quotaSlice)]
    && after.clusters == st.clusters["" := c.(booked := after.clusters[""].booked)]
    && after == st.(clusters := after.clusters, namespaces := st.namespaces[ns.Key() := ns.(schedule := Nowhere(n))])
  }

  lemma NowhereAdded(st: CacheState, ns: Namespace, n: nat)
    requires ns.Key() !in st.namespaces && n > 0 && LeastFit(ns.quota, ns.quotaSlice) == Some(n)
    ensures var r := AddNs(st, ns.(schedule := Nowhere(n)));
            && (r.ok <==> TakesAll(Nameless(st.clusters), ns.Key(), ns.quotaSlice, n))
            && if r.ok then HeldNowhere(st, ns, n, r.st) else r.st == st
  {
    var planned := ns.(schedule := Nowhere(n));
    NamelessAdmits(Nameless(st.clusters), ns.Key(), ns.quotaSlice, n);
    assert planned.schedule[..0] == [] && SumNum(planned.schedule) == n;
    assert planned.Key() == ns.Key() && CountsMatch(planned);
    var next := Place(st.clusters, ns.Key(), Placement("", n), ns.quotaSlice);
    assert next.Some? ==> PlaceFrom(next.value, ns.Key(), planned.schedule, ns.quotaSlice, 1) == Progress(next.value, 1);
  }

  /** A shadow made for the occasion takes cpu and memory up to the largest quantities the program writes down. */
  lemma ShadowTakesIff(key: NsKey, slice: ResourceList, n: nat)
    ensures TakesAll(Shadow(""), key, slice, n) <==>
            && slice.Keys <= {"cpu", "memory"}
            && n * Amount(slice, "cpu") <= 2147483647 && n * Amount(slice, "memory") <= 2147483647 * 1073741824
  {
    var c := Shadow("");
    assert c.booked.alloc.Keys == {"cpu", "memory"} == c.capacity.Keys;
    assert n * 0 == 0;
    if TakesAll(c, key, slice, n) {
      forall k | k in slice
        ensures k in {"cpu", "memory"} && n * slice[k] <= c.capacity[k]
      {
        assert k in c.booked.alloc;
      }
    }
  }

  /** A new namespace has no old placements. */
  lemma NewIsNotStale(st: CacheState, ns: Namespace)
    requires ns.Key() !in st.namespaces
    ensures forall c :: !StaleHint(st, ns, c)
  {
  }

  lemma StaysEmpty(st: CacheState, ns: Namespace, n: nat, after: CacheState)
    requires LiveUsage(st.clusters) == map[] && HeldNowhere(st, ns, n, after)
    ensures LiveUsage(after.clusters) == map[]
  {
    assert forall m :: m in st.clusters ==> st.clusters[m].shadow by {
      assert forall m :: m in st.clusters && !st.clusters[m].shadow ==> m in LiveUsage(st.clusters);
    }
    assert Nameless(st.clusters).shadow;
    assert forall m :: m in after.clusters ==> after.clusters[m].shadow;
  }

  /**
   A new namespace that names no cluster, scheduled while no cluster takes part in scheduling: accepted
   exactly when the nameless cluster has room for all its slices, which then holds them. That cluster takes
   no part either, so the next namespace goes the same way.
   */
  lemma EmptySnapshotScheduled(st: CacheState, ns: Namespace, asked: seq<SliceInfo>, out: seq<SliceInfo>, plan: Plan, n: nat)
    requires ns.owner in st.tenants && ns.Key() !in st.namespaces && LiveUsage(st.clusters) == map[]
    requires FitsQuota(st, ns) && !NamesCluster(ns) && LeastFit(ns.quota, ns.quotaSlice) == Some(n) && n > 0
    requires PlansAs(st, ns, asked, out, plan)
    ensures var after := Committed(st, ns, plan);
            && (after.ok <==> TakesAll(Nameless(st.clusters), ns.Key(), ns.quotaSlice, n))
            && (if after.ok then HeldNowhere(st, ns, n, after.st) else after.st == st)
            && LiveUsage(after.st.clusters) == map[]
  {
    NewIsNotStale(st, ns);
    EmptySnapshotPlan(st, ns, asked, out, plan);
    assert plan == Ready(ns.(schedule := Nowhere(n)));
    NowhereAdded(st, ns, n);
    var after := AddNs(st, ns.(schedule := Nowhere(n)));
    if after.ok {
      StaysEmpty(st, ns, n, after.st);
    }
  }
}
