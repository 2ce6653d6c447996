/** The scheduler engine: plan on a snapshot, then commit to the cache. */
module Engine {
  import opened Resources
  import opened SliceMath
  import opened Clusters
  import opened CacheModel
  import opened CacheAccounting
  import opened CacheTransactions
  import opened Snapshot
  import opened Algorithm
  import opened NamespaceSnapshot
  import opened SliceRequests
  import opened PlanAcceptance
  import opened SchedulerCaches

  datatype Plan =
    | Ready(ns: Namespace)
    | Incomparable   // the quota slice changed
    | BadSnapshot    // the cache contradicts the cached schedule
    | NoPlacement    // some slice could not be placed
    | Crashed        // a hint named a cluster outside the snapshot

  /** The placement map of the plan; one failed slice fails it all. */
  method GetNewPlacement(out: seq<SliceInfo>) returns (r: Option<map<string, int>>)
    ensures r.Some? <==> forall s :: s in out ==> !s.failed
    ensures r.Some? ==> r.value.Keys == Results(out) && forall c :: c in r.value ==> r.value[c] == CountOn(out, c)
  {
    var m: map<string, int> := map[];
    for i := 0 to |out|
      invariant forall s :: s in out[..i] ==> !s.failed
      invariant m.Keys == Results(out[..i])
      invariant forall c :: c in m ==> m[c] == CountOn(out[..i], c)
    {
      assert out[..i + 1] == out[..i] + [out[i]];
      assert out[..i + 1][..i] == out[..i];
      if out[i].failed {
        assert out[i] in out;
        return None;
      }
      var c := out[i].result;
      CountOnPositive(out[..i], c);
      assert Results(out[..i + 1]) == Results(out[..i]) + {c};
      m := m[c := (if c in m then m[c] else 0) + 1];
    }
    assert out[..|out|] == out;
    return Some(m);
  }

  /** The schedule lists the map's entries once each, in arbitrary order. */
  method SetNewPlacements(ns: Namespace, p: map<string, int>) returns (r: Namespace)
    ensures r == ns.(schedule := r.schedule)
    ensures DistinctClusters(r) && Names(r.schedule) == p.Keys
    ensures forall q :: q in r.schedule ==> q.cluster in p && q.num == p[q.cluster]
  {
    var schedule: seq<Placement> := [];
    var todo := p.Keys;
    while todo != {}
      invariant todo <= p.Keys
      invariant Names(schedule) == p.Keys - todo
      invariant forall q :: q in schedule ==> q.cluster in p && q.num == p[q.cluster]
      invariant forall j, k :: 0 <= j < k < |schedule| ==> schedule[j].cluster != schedule[k].cluster
      decreases todo
    {
      var c :| c in todo;
      todo := todo - {c};
      assert forall q :: q in schedule ==> q.cluster in Names(schedule);
      var more := schedule + [Placement(c, p[c])];
      assert Names(more) == Names(schedule) + {c};
      schedule := more;
    }
    r := ns.(schedule := schedule);
  }

  /** What the planning theorem assumes of the request and of the cache. */
  ghost predicate Plannable(st: CacheState, ns: Namespace) {
    && Inv(st) && Sliceable(ns.quota, ns.quotaSlice) && NonNegative(PlacementMap(ns.schedule))
    && (ns.Key() in st.namespaces ==> NonNegative(PlacementMap(st.namespaces[ns.Key()].schedule)))
    && (exists n :: n in st.clusters && !st.clusters[n].shadow)
  }

  lemma LiveBase(st: CacheState, key: NsKey)
    ensures LiveUsage(Base(st, key)).Keys == LiveUsage(st.clusters).Keys
    ensures (exists n :: n in st.clusters && !st.clusters[n].shadow) ==> LiveUsage(Base(st, key)) != map[]
  {
    if n :| n in st.clusters && !st.clusters[n].shadow {
      assert n in LiveUsage(Base(st, key));
    }
  }

  function Previous(st: CacheState, key: NsKey): map<string, int> {
    if key in st.namespaces then PlacementMap(st.namespaces[key].schedule) else map[]
  }

  /** The pieces of the planning half fit together into a plan for the cache. */
  lemma PlanReady(st: CacheState, ns: Namespace, planned: Namespace, slices: seq<SliceInfo>, usage: UsageMap, out: seq<SliceInfo>)
    requires Plannable(st, ns) && planned == ns.(schedule := planned.schedule)
    requires usage == LiveUsage(Base(st, ns.Key()))
    requires |slices| == TotalSlices(LeastFit(ns.quota, ns.quotaSlice)) && |out| == |slices|
    requires Planned(usage, out) && AllPlaced(planned, out) && Tallies(planned, out)
    ensures PlanFor(st, planned, out)
  {
    LiveBase(st, ns.Key());
  }

  /** A crash can only come from an old placement on a cluster that takes no part in scheduling. */
  lemma CrashCause(st: CacheState, ns: Namespace, requested: map<string, int>, slices: seq<SliceInfo>, usage: UsageMap)
    requires forall s :: s in slices ==> WellTagged(ns, requested, Previous(st, ns.Key()), s)
    requires usage.Keys == LiveUsage(st.clusters).Keys
    requires exists s :: s in slices && Perilous(usage, s)
    ensures ns.Key() in st.namespaces
    ensures exists c :: c in Names(st.namespaces[ns.Key()].schedule) && c !in LiveUsage(st.clusters)
  {
    var s :| s in slices && Perilous(usage, s);
    assert s.hint in Previous(st, ns.Key());
  }

  /** Placing the slices on a snapshot and turning the results into a schedule. */
  method PlanOn(ns: Namespace, slices: seq<SliceInfo>, snapshot: NamespaceSchedSnapshot)
    returns (r: Plan, ghost out: seq<SliceInfo>)
    requires forall s :: s in slices ==> s.result == "" && !s.failed && s.request == ns.quotaSlice
    modifies snapshot
    ensures PlacesAs(old(snapshot.usage), ns, slices, out, r)
  {
    var panicked;
    var placed;
    placed, panicked := ScheduleNamespaceSlices(slices, snapshot);
    out := placed;
    if panicked {
      return Crashed, out;
    }
    SameRequests(ns, slices, out);
    var placement := GetNewPlacement(placed);
    if placement.None? {
      return NoPlacement, out;
    }
    var planned := SetNewPlacements(ns, placement.value);
    return Ready(planned), out;
  }

  lemma SameRequests(ns: Namespace, slices: seq<SliceInfo>, out: seq<SliceInfo>)
    requires SameSlices(slices, out) && forall s :: s in slices ==> s.request == ns.quotaSlice
    ensures forall s :: s in out ==> s.request == ns.quotaSlice
  {
    forall s | s in out
      ensures s.request == ns.quotaSlice
    {
      var i :| 0 <= i < |out| && out[i] == s;
      assert slices[i] in slices;
    }
  }

  /**
   What planning on a snapshot may answer: a crash exactly for a hint outside it, otherwise every slice
   is placed in turn, and the answer is a schedule exactly when none of them failed.
   */
  ghost predicate PlacesAs(u: UsageMap, ns: Namespace, slices: seq<SliceInfo>, out: seq<SliceInfo>, r: Plan) {
    if exists s :: s in slices && Perilous(u, s) then r == Crashed
    else
      && SameSlices(slices, out) && Planned(u, out) && (forall s :: s in out ==> s.request == ns.quotaSlice)
      && if exists s :: s in out && s.failed then r == NoPlacement
         else r.Ready? && r.ns == ns.(schedule := r.ns.schedule) && AllPlaced(r.ns, out) && Tallies(r.ns, out)
  }

  /** What `GetSlicesToSchedule` promises, for the old placements cached in `st`. */
  ghost predicate Requests(st: CacheState, ns: Namespace, slices: seq<SliceInfo>) {
    var requested, previous := PlacementMap(ns.schedule), Previous(st, ns.Key());
    && (forall s :: s in slices ==> WellTagged(ns, requested, previous, s))
    && (NonNegative(requested) && NonNegative(previous) ==>
          Asked(slices, requested, previous, TotalSlices(LeastFit(ns.quota, ns.quotaSlice))))
  }

  predicate SliceChanged(st: CacheState, ns: Namespace) {
    ns.Key() in st.namespaces && st.namespaces[ns.Key()].quotaSlice != ns.quotaSlice
  }

  predicate Untraceable(st: CacheState, key: NsKey) {
    key in st.namespaces && !Traceable(st.clusters, st.namespaces[key])
  }

  /** The whole planning half: which slices were asked for, where they went, and the one answer that follows. */
  ghost predicate PlansAs(st: CacheState, ns: Namespace, asked: seq<SliceInfo>, out: seq<SliceInfo>, r: Plan) {
    if SliceChanged(st, ns) then r == Incomparable
    else if Untraceable(st, ns.Key()) then r == BadSnapshot
    else Requests(st, ns, asked) && PlacesAs(LiveUsage(Base(st, ns.Key())), ns, asked, out, r)
  }

  ghost predicate CrashExplained(st: CacheState, key: NsKey) {
    key in st.namespaces && exists c :: c in Names(st.namespaces[key].schedule) && c !in LiveUsage(st.clusters)
  }

  lemma CrashMeans(st: CacheState, ns: Namespace, asked: seq<SliceInfo>, out: seq<SliceInfo>)
    requires PlansAs(st, ns, asked, out, Crashed)
    ensures CrashExplained(st, ns.Key())
  {
    LiveBase(st, ns.Key());
    CrashCause(st, ns, PlacementMap(ns.schedule), asked, LiveUsage(Base(st, ns.Key())));
  }

  /** A schedule that comes out of planning is a complete plan for the cache. */
  lemma ReadyMeans(st: CacheState, ns: Namespace, asked: seq<SliceInfo>, out: seq<SliceInfo>, planned: Namespace)
    requires Plannable(st, ns) && PlansAs(st, ns, asked, out, Ready(planned))
    ensures PlanFor(st, planned, out) && planned == ns.(schedule := planned.schedule)
  {
    var u := LiveUsage(Base(st, ns.Key()));
    assert PlacesAs(u, ns, asked, out, Ready(planned));
    assert |asked| == TotalSlices(LeastFit(ns.quota, ns.quotaSlice));
    PlanReady(st, ns, planned, asked, u, out);
  }

  // ---------- exactly when it crashes ----------

  lemma {:induction false} TaggedIff(slices: seq<SliceInfo>, mandatory: string, hint: string)
    ensures Count(slices, mandatory, hint) > 0 <==> exists s :: s in slices && s.mandatory == mandatory && s.hint == hint
  {
    if slices != [] {
      var n := |slices| - 1;
      assert slices == slices[..n] + [slices[n]];
      TaggedIff(slices[..n], mandatory, hint);
    }
  }

  /** An old placement on a cluster outside the snapshot of which the request leaves something. */
  ghost predicate StaleHint(st: CacheState, ns: Namespace, c: string) {
    var requested := PlacementMap(ns.schedule);
    var left := LeftOf(requested, Previous(st, ns.Key()), requested.Keys);
    c != "" && c in left && left[c] > 0 && c !in LiveUsage(st.clusters)
  }

  /** The quota has room for the requested placements and for what they leave of the old ones. */
  ghost predicate FitsQuota(st: CacheState, ns: Namespace) {
    var requested, previous := PlacementMap(ns.schedule), Previous(st, ns.Key());
    var left := LeftOf(requested, previous, requested.Keys);
    && NonNegative(requested) && NonNegative(previous)
    && SumOver(requested, requested.Keys) + SumOver(left, left.Keys) <= TotalSlices(LeastFit(ns.quota, ns.quotaSlice))
  }

  lemma HintedIffLeft(st: CacheState, ns: Namespace, asked: seq<SliceInfo>, c: string)
    requires FitsQuota(st, ns) && Requests(st, ns, asked) && c != ""
    ensures StaleHint(st, ns, c) <==>
            c !in LiveUsage(st.clusters) && exists s :: s in asked && s.mandatory == "" && s.hint == c
  {
    var requested, previous := PlacementMap(ns.schedule), Previous(st, ns.Key());
    TaggedIff(asked, "", c);
    if c in previous {
      assert Count(asked, "", c) == LeftOf(requested, previous, requested.Keys)[c];
    } else {
      assert Count(asked, "", c) == 0;
    }
  }

  /** Within the quota, whatever the map orders, the engine crashes exactly for such an old placement. */
  lemma CrashesIff(st: CacheState, ns: Namespace, asked: seq<SliceInfo>, out: seq<SliceInfo>, r: Plan)
    requires FitsQuota(st, ns) && !SliceChanged(st, ns) && !Untraceable(st, ns.Key()) && PlansAs(st, ns, asked, out, r)
    ensures r.Crashed? <==> exists c :: StaleHint(st, ns, c)
  {
    LiveBase(st, ns.Key());
    PerilIff(st, ns, asked, LiveUsage(Base(st, ns.Key())));
  }

  /** Some slice asks for a cluster outside the snapshot exactly for such an old placement. */
  lemma PerilIff(st: CacheState, ns: Namespace, asked: seq<SliceInfo>, u: UsageMap)
    requires FitsQuota(st, ns) && Requests(st, ns, asked) && u.Keys == LiveUsage(st.clusters).Keys
    ensures (exists s :: s in asked && Perilous(u, s)) <==> exists c :: StaleHint(st, ns, c)
  {
    forall c | c != ""
      ensures StaleHint(st, ns, c) <==> c !in u && exists s :: s in asked && s.mandatory == "" && s.hint == c
    {
      HintedIffLeft(st, ns, asked, c);
    }
    if s :| s in asked && Perilous(u, s) {
      assert StaleHint(st, ns, s.hint);
    }
  }

  // ---------- when scheduling is bound to succeed ----------

  /**
   All this can be looked up before the call: the slice is unchanged, old placements lie on clusters of
   the snapshot, some cluster has room for all the slices the quota asks for, so has every cluster the
   request names, and every cluster of the snapshot knows the slice's resources.
   */
  ghost predicate Assured(st: CacheState, ns: Namespace) {
    var cs, need := Base(st, ns.Key()), TotalSlices(LeastFit(ns.quota, ns.quotaSlice));
    var u := LiveUsage(cs);
    && Plannable(st, ns) && !SliceChanged(st, ns) && !Untraceable(st, ns.Key())
    && (ns.Key() in st.namespaces ==> Names(st.namespaces[ns.Key()].schedule) <= u.Keys)
    && (exists n :: n in u && Roomy(u[n], ns.quotaSlice, need))
    && (forall c :: c in Names(ns.schedule) && c != "" ==> c in u && Roomy(u[c], ns.quotaSlice, need))
    && (forall n :: n in u ==> Knows(cs[n], ns.quotaSlice))
  }

  lemma AssuredIsReady(st: CacheState, ns: Namespace, asked: seq<SliceInfo>, out: seq<SliceInfo>, r: Plan)
    requires Assured(st, ns) && PlansAs(st, ns, asked, out, r)
    ensures r.Ready?
  {
    var u := LiveUsage(Base(st, ns.Key()));
    var need := TotalSlices(LeastFit(ns.quota, ns.quotaSlice));
    forall s | s in asked
      ensures !Perilous(u, s)
    {
      assert WellTagged(ns, PlacementMap(ns.schedule), Previous(st, ns.Key()), s);
    }
    forall s | s in out && s.mandatory != ""
      ensures s.mandatory in u && Roomy(u[s.mandatory], ns.quotaSlice, need)
    {
      var i :| 0 <= i < |out| && out[i] == s;
      assert asked[i] in asked && WellTagged(ns, PlacementMap(ns.schedule), Previous(st, ns.Key()), asked[i]);
    }
    RoomyNeverFails(u, out, ns.quotaSlice, need);
  }

  /** Every cluster of an accepted plan is a cluster of the snapshot. */
  lemma PlannedOnSnapshot(u: UsageMap, ns: Namespace, out: seq<SliceInfo>, j: nat)
    requires Planned(u, out) && u != map[] && AllPlaced(ns, out) && Tallies(ns, out) && j < |ns.schedule|
    ensures ns.schedule[j].cluster in u
  {
    assert ns.schedule[j].cluster in Names(ns.schedule);
    var s :| s in out && s.result == ns.schedule[j].cluster;
    var i :| 0 <= i < |out| && out[i] == s;
    PlacedWhere(u, out, i);
  }

  lemma OldPlacementsLive(st: CacheState, key: NsKey)
    requires key in st.namespaces && Names(st.namespaces[key].schedule) <= LiveUsage(Base(st, key)).Keys
    ensures AllLive(st.clusters, st.namespaces[key])
  {
    var ns := st.namespaces[key];
    forall j | 0 <= j < |ns.schedule|
      ensures ns.schedule[j].cluster in st.clusters
    {
      assert ns.schedule[j].cluster in Names(ns.schedule);
    }
  }

  lemma PlanIsKnown(cs: ClusterMap, ns: Namespace, out: seq<SliceInfo>)
    requires Planned(LiveUsage(cs), out) && LiveUsage(cs) != map[] && AllPlaced(ns, out) && Tallies(ns, out)
    requires forall n :: n in LiveUsage(cs) ==> Knows(cs[n], ns.quotaSlice)
    ensures KnownFrom(cs, ns, 0)
  {
    forall j | 0 <= j < |ns.schedule|
      ensures ns.schedule[j].cluster in LiveUsage(cs)
    {
      PlannedOnSnapshot(LiveUsage(cs), ns, out, j);
    }
  }

  lemma AssuredCommits(st: CacheState, ns: Namespace, asked: seq<SliceInfo>, out: seq<SliceInfo>, planned: Namespace)
    requires Assured(st, ns) && PlansAs(st, ns, asked, out, Ready(planned))
    ensures Commit(st, planned).ok
  {
    ReadyMeans(st, ns, asked, out, planned);
    PlanIsKnown(Base(st, ns.Key()), planned, out);
    if ns.Key() in st.namespaces {
      OldPlacementsLive(st, ns.Key());
    }
    CommitAccepted(st, planned, out);
  }

  // ---------- room on the cached clusters ----------

  /**
   Beside what is booked for other namespaces the cluster has room for all the slices placed on it, and
   beside what is provisioned on it for one of them.
   */
  ghost predicate HasRoomFor(c: ClusterState, key: NsKey, slice: ResourceList, num: int) {
    && num > 0 && !c.shadow
    && forall k :: k in c.capacity ==>
         && Total(c.booked.items - {key}, k) + num * Amount(slice, k) <= c.capacity[k]
         && (k in c.booked.alloc ==> Total(c.provisioned.items, k) + Amount(slice, k) <= c.capacity[k])
  }

  ghost predicate RoomOnCache(st: CacheState, ns: Namespace) {
    forall j :: 0 <= j < |ns.schedule| ==>
      && ns.schedule[j].cluster in st.clusters
      && HasRoomFor(st.clusters[ns.schedule[j].cluster], ns.Key(), ns.quotaSlice, ns.schedule[j].num)
  }

  lemma BaseShows(st: CacheState, ns: Namespace)
    requires Inv(st)
    ensures Shows(LiveUsage(Base(st, ns.Key())), st.clusters, {ns.Key()})
  {
    SnapshotShows(st, Some(ns));
  }

  lemma PlacementHasRoom(st: CacheState, ns: Namespace, out: seq<SliceInfo>, j: nat)
    requires Inv(st) && PlanFor(st, ns, out) && j < |ns.schedule|
    ensures ns.schedule[j].cluster in st.clusters
    ensures HasRoomFor(st.clusters[ns.schedule[j].cluster], ns.Key(), ns.quotaSlice, ns.schedule[j].num)
  {
    var base, n := Base(st, ns.Key()), ns.schedule[j].cluster;
    var u := LiveUsage(base);
    BaseShows(st, ns);
    PlannedOnSnapshot(u, ns, out, j);
    assert ns.schedule[j] in ns.schedule && n in Names(ns.schedule);
    PlannedRoom(base, ns, out, n);
    var s :| s in out && s.result == n;
    var i :| 0 <= i < |out| && out[i] == s;
    var c := st.clusters[n];
    forall k | k in c.capacity
      ensures Total(c.booked.items - {ns.Key()}, k) + ns.schedule[j].num * Amount(ns.quotaSlice, k) <= c.capacity[k]
      ensures k in c.booked.alloc ==> Total(c.provisioned.items, k) + Amount(ns.quotaSlice, k) <= c.capacity[k]
    {
      RoomWhenPlaced(u, out, i, k);
      assert Amount(u[n].alloc, k) == Total(c.booked.items - {ns.Key()}, k);
      assert Amount(u[n].provision, k) == Total(c.provisioned.items, k);
    }
  }

  /** A schedule that comes out of planning has room on the clusters as they are cached. */
  lemma ReadyHasRoom(st: CacheState, ns: Namespace, asked: seq<SliceInfo>, out: seq<SliceInfo>, planned: Namespace)
    requires Plannable(st, ns) && PlansAs(st, ns, asked, out, Ready(planned))
    ensures RoomOnCache(st, planned)
  {
    ReadyMeans(st, ns, asked, out, planned);
    forall j | 0 <= j < |planned.schedule|
      ensures planned.schedule[j].cluster in st.clusters
      ensures HasRoomFor(st.clusters[planned.schedule[j].cluster], planned.Key(), planned.quotaSlice, planned.schedule[j].num)
    {
      PlacementHasRoom(st, planned, out, j);
    }
  }

  // ---------- what scheduling promises ----------

  /** The old placements of the namespace, if it has any, lie on cached clusters. */
  ghost predicate OldOnesLive(st: CacheState, key: NsKey) {
    key in st.namespaces ==> AllLive(st.clusters, st.namespaces[key])
  }

  /**
   A ready plan has room on the cached clusters. For a registered tenant whose old clusters are all cached it
   is committed exactly when the chosen clusters know the slice's resources, and leaves them within capacity. In an assured cache the
   plan is ready and the commit succeeds.
   */
  ghost predicate Refines(st: CacheState, ns: Namespace, plan: Plan, after: Outcome) {
    && (plan.Crashed? ==> CrashExplained(st, ns.Key()))
    && (plan.Ready? && Plannable(st, ns) ==> RoomOnCache(st, plan.ns))
    && (plan.Ready? && Plannable(st, ns) && ns.owner in st.tenants && OldOnesLive(st, ns.Key()) ==>
          && (after.ok <==> KnownFrom(Base(st, ns.Key()), plan.ns, 0))
          && (after.ok ==> WithinUpTo(after.st.clusters, plan.ns, |plan.ns.schedule|)))
    && (Assured(st, ns) ==> plan.Ready? && after.ok)
  }

  /** What the engine does with an answer of the planning half. */
  ghost function Committed(st: CacheState, ns: Namespace, plan: Plan): Outcome {
    if !plan.Ready? then Outcome(st, false)
    else if ns.owner in st.tenants then Commit(st, plan.ns) else Outcome(st, true)
  }

  lemma CommittedRefines(st: CacheState, ns: Namespace, asked: seq<SliceInfo>, out: seq<SliceInfo>, plan: Plan)
    requires Inv(st) && PlansAs(st, ns, asked, out, plan)
    ensures Refines(st, ns, plan, Committed(st, ns, plan))
  {
    if plan.Crashed? {
      CrashMeans(st, ns, asked, out);
    }
    if plan.Ready? && Plannable(st, ns) {
      ReadyHasRoom(st, ns, asked, out, plan.ns);
    }
    if plan.Ready? && Plannable(st, ns) && ns.owner in st.tenants && OldOnesLive(st, ns.Key()) {
      ReadyMeans(st, ns, asked, out, plan.ns);
      CommitAccepted(st, plan.ns, out);
      if Commit(st, plan.ns).ok {
        CommitWithinCapacity(st, plan.ns, out);
      }
    }
    if Assured(st, ns) {
      AssuredIsReady(st, ns, asked, out, plan);
      AssuredCommits(st, ns, asked, out, plan.ns);
    }
  }

  class SchedulerEngine {
    const cache: SchedulerCache

    constructor (cache: SchedulerCache)
      ensures this.cache == cache
    {
      this.cache := cache;
    }

    /** The old placements, empty for a namespace that is not cached. */
    method PreviousPlacements(key: NsKey) returns (m: map<string, int>)
      requires cache.Valid()
      ensures m == Previous(cache.State(), key)
    {
      if key in cache.namespaces {
        m := GetPlacementMap(cache.namespaces[key].schedule);
      } else {
        m := map[];
      }
    }

    method TakeSnapshot(key: NsKey, ghost st: CacheState) returns (r: Option<NamespaceSchedSnapshot>)
      requires cache.Valid() && st == cache.State()
      ensures r.Some? ==> fresh(r.value)
      ensures Inv(st) && r.Some? ==> r.value.usage == LiveUsage(Base(st, key))
      ensures Inv(st) ==> (r.None? <==> Untraceable(st, key))
    {
      var cur := if key in cache.namespaces then Some(cache.namespaces[key]) else None;
      r := SnapshotForNamespaceSched(cache, cur, st);
    }

    method BuildRequests(ns: Namespace, ghost st: CacheState) returns (slices: seq<SliceInfo>)
      requires cache.Valid() && st == cache.State()
      ensures Requests(st, ns, slices)
    {
      var previous := PreviousPlacements(ns.Key());
      slices := GetSlicesToSchedule(ns, previous);
    }

    /** The first half of `ScheduleNamespace`, for the cache state `st`; the cache is only read. */
    method PlanNamespace(ns: Namespace, ghost st: CacheState)
      returns (r: Plan, ghost asked: seq<SliceInfo>, ghost out: seq<SliceInfo>)
      requires cache.Valid() && st == cache.State()
      ensures r.Incomparable? <==> ns.Key() in st.namespaces && st.namespaces[ns.Key()].quotaSlice != ns.quotaSlice
      ensures r.Ready? ==> r.ns == ns.(schedule := r.ns.schedule)
      ensures Inv(st) ==> PlansAs(st, ns, asked, out, r)
    {
      asked, out := [], [];
      var key := ns.Key();
      if key in cache.namespaces && cache.namespaces[key].quotaSlice != ns.quotaSlice {
        return Incomparable, asked, out;
      }
      var slices := BuildRequests(ns, st);
      asked := slices;
      var snapshot := TakeSnapshot(key, st);
      if snapshot.None? {
        return BadSnapshot, asked, out;
      }
      r, out := PlanOn(ns, slices, snapshot.value);
    }

    /** The second half: update a known namespace, add a new one. */
    method CommitPlan(ns: Namespace) returns (ok: bool)
      requires cache.Valid()
      modifies cache, cache.Objects()
      ensures cache.Valid() && fresh(cache.Objects() - old(cache.Objects()))
      ensures Outcome(cache.State(), ok)
              == if ns.owner in old(cache.tenants) then Commit(old(cache.State()), ns) else Outcome(old(cache.State()), true)
    {
      if ns.Key() in cache.namespaces {
        ok := cache.UpdateNamespace(cache.namespaces[ns.Key()], ns);
      } else {
        ok := cache.AddNamespace(ns);
      }
    }

    /** Plan on a snapshot, then commit. `asked` and `out` are the slices before and after placing. */
    method ScheduleNamespace(ns: Namespace, ghost st: CacheState)
      returns (plan: Plan, ok: bool, ghost asked: seq<SliceInfo>, ghost out: seq<SliceInfo>)
      requires cache.Valid() && st == cache.State()
      modifies cache, cache.Objects()
      ensures cache.Valid() && fresh(cache.Objects() - old(cache.Objects()))
      ensures plan.Incomparable? <==> ns.Key() in st.namespaces && st.namespaces[ns.Key()].quotaSlice != ns.quotaSlice
      ensures !plan.Ready? ==> !ok && cache.State() == st
      ensures ns.owner !in st.tenants && plan.Ready? ==> ok && cache.State() == st
      ensures Outcome(cache.State(), ok) == Committed(st, ns, plan)
      ensures Inv(st) ==> PlansAs(st, ns, asked, out, plan) && Refines(st, ns, plan, Outcome(cache.State(), ok))
    {
      plan, asked, out := PlanNamespace(ns, st);
      if Inv(st) {
        CommittedRefines(st, ns, asked, out, plan);
      }
      ok := CommitIfReady(plan, ns, st);
    }

    method CommitIfReady(plan: Plan, ghost ns: Namespace, ghost st: CacheState) returns (ok: bool)
      requires cache.Valid() && st == cache.State() && (plan.Ready? ==> plan.ns.owner == ns.owner)
      modifies cache, cache.Objects()
      ensures cache.Valid() && fresh(cache.Objects() - old(cache.Objects()))
      ensures Outcome(cache.State(), ok) == Committed(st, ns, plan)
    {
      if !plan.Ready? {
        return false;
      }
      ok := CommitPlan(plan.ns);
    }

    /**
     Placements imposed from outside. A refused change of a cached namespace leaves the cache as it was,
     up to empty shadow clusters, exactly when the old placements can be taken out and put back.
     */
    method EnsureNamespacePlacements(ns: Namespace) returns (ok: bool)
      requires cache.Valid()
      modifies cache, cache.Objects()
      ensures cache.Valid() && fresh(cache.Objects() - old(cache.Objects()))
      ensures var st := old(cache.State());
              if ns.Key() in st.namespaces && st.namespaces[ns.Key()].quotaSlice != ns.quotaSlice
              then !ok && cache.State() == st
              else Outcome(cache.State(), ok) == if ns.owner in st.tenants then Commit(st, ns) else Outcome(st, true)
      ensures var st := old(cache.State());
              !ok && Inv(st) && ns.owner in st.tenants && ns.Key() in st.namespaces
              && st.namespaces[ns.Key()].quotaSlice == ns.quotaSlice ==>
                (Restored(st, cache.State()) <==> Undoable(st.clusters, st.namespaces[ns.Key()]))
    {
      ghost var st := cache.State();
      if ns.Key() in cache.namespaces && cache.namespaces[ns.Key()].quotaSlice != ns.quotaSlice {
        return false;
      }
      ok := CommitPlan(ns);
      if !ok && Inv(st) && ns.owner in st.tenants && ns.Key() in st.namespaces {
        UpdateIsTransactional(st, st.namespaces[ns.Key()], ns);
      }
    }

    method DeScheduleNamespace(key: NsKey) returns (ok: bool)
      requires cache.Valid()
      modifies cache, cache.Objects()
      ensures cache.Valid() && fresh(cache.Objects() - old(cache.Objects()))
      ensures key !in old(cache.namespaces) ==> ok && cache.State() == old(cache.State())
      ensures key in old(cache.namespaces) && Inv(old(cache.State())) ==>
                && (ok <==> AllLive(old(cache.View()), old(cache.namespaces)[key]))
                && (ok ==> KeyFree(cache.View(), key) && key !in cache.namespaces)
    {
      if key !in cache.namespaces {
        return true;
      }
      ghost var st := cache.State();
      var ns := cache.namespaces[key];
      ok := cache.RemoveNamespace(ns);
      if Inv(st) {
        RemoveNsKeeps(st, ns);
      }
    }
  }
}
