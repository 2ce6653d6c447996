/** Inputs on which the engine's plan comes to nothing although each step did what it is written to do. */
module PlanCounterexamples {
  import opened Resources
  import opened SliceMath
  import opened Clusters
  import opened CacheModel
  import opened CacheAccounting
  import opened CacheTransactions
  import opened CacheRuns
  import opened Algorithm
  import opened NamespaceSnapshot
  import opened SliceRequests
  import opened PlanAcceptance
  import opened Engine
  import opened Counterexamples

  // ---------- a hint outside the snapshot ----------

  /** The cache after: tenant, cluster "c", a namespace of one slice on it, cluster "d", and "c" removed again. */
  function Stranded(cap: nat): CacheState {
    CacheState({"t"}, map["d" := NewState("d", Cpu(cap))], map[], map[NsKey("t", "n") := Wanting(1)])
  }

  /** Cluster "d" is added, then "c" is removed with what it holds. */
  lemma ClustersChange(cap: nat, n: nat)
    ensures var more := AddClusterTo(OneCluster(cap, n), NewState("d", Cpu(cap)));
            && more == OneCluster(cap, n).(clusters := map["c" := Holding(cap, n), "d" := NewState("d", Cpu(cap))])
            && RemoveClusterFrom(more, "c") == Outcome(OneCluster(cap, n).(clusters := map["d" := NewState("d", Cpu(cap))]), true)
  {
    var d := NewState("d", Cpu(cap));
    assert map["c" := Holding(cap, n)]["d" := d] == map["c" := Holding(cap, n), "d" := d];
    assert map["c" := Holding(cap, n), "d" := d] - {"c"} == map["d" := d];
  }

  lemma StrandedIsReached(cap: nat)
    requires cap > 0
    ensures AddNs(OneCluster(cap, 0), Wanting(1)) == Outcome(OneCluster(cap, 1), true)
    ensures var more := Step(OneCluster(cap, 1), AddCluster(NewState("d", Cpu(cap)))).st;
            Step(more, RemoveCluster("c")) == Outcome(Stranded(cap), true)
  {
    AddedIfRoom(cap, 1);
    ClustersChange(cap, 1);
  }

  lemma SingleSum(m: map<string, int>, c: string)
    requires m.Keys == {c}
    ensures SumOver(m, m.Keys) == m[c]
  {
    SumOverSplit(m, m.Keys, c);
    assert m.Keys - {c} == {};
  }

  lemma OldPlacement(cap: nat)
    ensures Previous(Stranded(cap), NsKey("t", "n")) == map["c" := 1] && "c" !in LiveUsage(Stranded(cap).clusters)
    ensures !Untraceable(Stranded(cap), NsKey("t", "n"))
  {
    var schedule := Wanting(1).schedule;
    assert schedule[..0] == [] && PlacementMap([]) == map[];
    assert PlacementMap(schedule) == map["c" := 1];
    assert Names(schedule) == {"c"};
  }

  lemma OldPlacementFits(cap: nat)
    ensures FitsQuota(Stranded(cap), Wanting(1).(schedule := [])) && StaleHint(Stranded(cap), Wanting(1).(schedule := []), "c")
  {
    OldPlacement(cap);
    WantingCounts(1);
    var previous := map["c" := 1];
    assert SumNum([Placement("c", 1)]) == SumNum([]) + 1;
    assert PlacementMap([]) == map[] && LeftOf(map[], previous, {}) == previous;
    SingleSum(previous, "c");
    var none: map<string, int> := map[];
    assert none.Keys == {} && Only(none, {}) == none;
    assert SumOver(none, none.Keys) == 0;
  }

  /** There the engine crashes on the namespace's next scheduling. */
  lemma StrandedCrashes(cap: nat, asked: seq<SliceInfo>, out: seq<SliceInfo>, r: Plan)
    requires PlansAs(Stranded(cap), Wanting(1).(schedule := []), asked, out, r)
    ensures r == Crashed
  {
    OldPlacement(cap);
    OldPlacementFits(cap);
    CrashesIff(Stranded(cap), Wanting(1).(schedule := []), asked, out, r);
  }

  // ---------- a resource the cluster does not know ----------

  /** One cpu and one unit of memory. */
  function Both(): ResourceList { map["cpu" := 1, "memory" := 1] }

  function Bare(): Namespace { Namespace("t", "n", Both(), Both(), []) }

  function PlacedOnC(): Namespace { Bare().(schedule := [Placement("c", 1)]) }

  function AskedSlice(): SliceInfo { Blank(Bare(), "", "") }

  function PlacedSlice(): SliceInfo { AskedSlice().(result := "c") }

  lemma BothFitsOnce()
    ensures LeastFit(Both(), Both()) == Some(1)
  {
    assert Sliceable(Both(), Both());
    assert Covers(1, Both(), Both());
    forall m: nat | Covers(m, Both(), Both())
      ensures 1 <= m
    {
      assert "cpu" in Both();
    }
    LeastFitIs(Both(), Both(), 1);
  }

  lemma BareAsks(cap: nat)
    ensures Requests(OneCluster(cap, 0), Bare(), [AskedSlice()])
  {
    BothFitsOnce();
    var slices := [AskedSlice()];
    assert slices[..0] == [];
    assert LeftOf(map[], map[], {}) == map[];
    assert forall m, h :: Count(slices, m, h) == if m == "" && h == "" then 1 else 0;
  }

  lemma BarePlaced(cap: nat)
    requires cap > 0
    ensures var u := LiveUsage(OneCluster(cap, 0).clusters);
            u != map[] && Planned(u, [PlacedSlice()]) && !Perilous(u, AskedSlice())
  {
    var u := LiveUsage(OneCluster(cap, 0).clusters);
    var out := [PlacedSlice()];
    assert "c" in u;
    assert out[..0] == [] && After(u, []) == u;
    assert Fits(Both(), u["c"]);
  }

  lemma BareTallied()
    ensures Tallies(PlacedOnC(), [PlacedSlice()]) && AllPlaced(PlacedOnC(), [PlacedSlice()])
  {
    var out := [PlacedSlice()];
    assert out[..0] == [];
    assert CountOn(out, "c") == 1;
    assert out[0] in out;
    assert Results(out) == {"c"};
    assert PlacedOnC().schedule[0].cluster in Names(PlacedOnC().schedule);
    assert Names(PlacedOnC().schedule) == {"c"};
  }

  lemma OneClusterSound(cap: nat)
    ensures Inv(OneCluster(cap, 0))
  {
    var mid := Step(EMPTY_CACHE, AddTenant("t")).st;
    var c := NewState("c", Cpu(cap));
    EmptyCacheAccounts();
    StepKeeps(EMPTY_CACHE, AddTenant("t"));
    EmptyBalanced(Cpu(cap));
    StepKeeps(mid, AddCluster(c));
    Started(cap);
  }

  lemma BareIsPlanned(cap: nat)
    requires cap > 0
    ensures PlansAs(OneCluster(cap, 0), Bare(), [AskedSlice()], [PlacedSlice()], Ready(PlacedOnC()))
    ensures PlanFor(OneCluster(cap, 0), PlacedOnC(), [PlacedSlice()])
  {
    BareAsks(cap);
    BarePlaced(cap);
    BareTallied();
    BothFitsOnce();
  }

  /**
   A cluster that accounts for cpu alone and a slice of cpu and memory: the engine has a complete plan,
   and the cache refuses it.
   */
  lemma UnknownResourceRefused(cap: nat)
    requires cap > 0
    ensures PlansAs(OneCluster(cap, 0), Bare(), [AskedSlice()], [PlacedSlice()], Ready(PlacedOnC()))
    ensures !Commit(OneCluster(cap, 0), PlacedOnC()).ok
  {
    var st := OneCluster(cap, 0);
    BareIsPlanned(cap);
    OneClusterSound(cap);
    CommitAccepted(st, PlacedOnC(), [PlacedSlice()]);
    assert "memory" in Both() && "memory" !in st.clusters["c"].capacity;
    assert !Knows(st.clusters[PlacedOnC().schedule[0].cluster], Both());
  }
}
