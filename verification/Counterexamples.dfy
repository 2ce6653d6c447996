/** Runs and inputs on which the code departs from what a reader would expect of it. */
module Counterexamples {
  import opened Resources
  import opened SliceMath
  import opened Clusters
  import opened CacheModel
  import opened CacheRuns

  // ---------- a placement of zero slices blocks removal ----------

  lemma EmptyQuota()
    ensures LeastFit(map[], map[]) == Some(0)
  {
    LeastFitIs(map[], map[], 0);
  }

  /** A zero placement on an unknown cluster is accepted without creating the cluster, and can never be removed. */
  lemma ZeroPlacementBlocksRemoval(t: string, n: string, c: string)
    ensures var ns := Namespace(t, n, map[], map[], [Placement(c, 0)]);
      var ops := [AddTenant(t), AddNamespace(ns)];
      var st := Run(EMPTY_CACHE, ops);
      && AllowedRun(EMPTY_CACHE, ops) && Current(st, ns) && ns.Key() in st.namespaces
      && !RemoveNs(st, ns).ok && RemoveNs(st, ns).st == st
  {
    var ns := Namespace(t, n, map[], map[], [Placement(c, 0)]);
    var st := EMPTY_CACHE.(tenants := {t});
    var op := AddNamespace(ns);
    EmptyQuota();
    assert SumNum(ns.schedule) == 0;
    assert CountsMatch(ns);
    assert PlaceFrom(map[], ns.Key(), ns.schedule, map[], 0) == PlaceFrom(map[], ns.Key(), ns.schedule, map[], 1);
    assert AddNs(st, ns).ok;
    var after := st.(namespaces := map[ns.Key() := ns]);
    assert Step(EMPTY_CACHE, AddTenant(t)).st == st;
    assert Step(st, op).st == after;
    assert [AddTenant(t), op][1..] == [op] && [op][1..] == [];
    assert Run(st, [op]) == Run(after, []) && AllowedRun(after, []);
    assert AllowedRun(st, [op]);
    assert Run(EMPTY_CACHE, [AddTenant(t), op]) == after;
    assert UnplaceFrom(after.clusters, ns.Key(), ns.schedule, 0).done == 0;
  }

  // ---------- a failing update after a shrink loses the namespace ----------

  function Cpu(n: nat): ResourceList { map["cpu" := n] }

  /** A namespace of `n` one-cpu slices, all on cluster "c". */
  function Wanting(n: nat): Namespace { Namespace("t", "n", Cpu(n), Cpu(1), [Placement("c", n)]) }

  /** Cluster "c" with capacity `cap` holding `n` slices of that namespace. */
  function Holding(cap: nat, n: nat): ClusterState {
    var key := NsKey("t", "n");
    NewState("c", Cpu(cap)).(booked := Ledger(if n == 0 then map[] else map[key := Copies(n, Slice(key, Cpu(1), "c"))], Cpu(n)))
  }

  function OneCluster(cap: nat, n: nat): CacheState {
    CacheState({"t"}, map["c" := Holding(cap, n)], map[], if n == 0 then map[] else map[NsKey("t", "n") := Wanting(n)])
  }

  lemma WantingCounts(n: nat)
    requires n > 0
    ensures CountsMatch(Wanting(n))
  {
    LeastFitIs(Cpu(n), Cpu(1), n) by {
      assert Sliceable(Cpu(n), Cpu(1));
      assert Covers(n, Cpu(n), Cpu(1));
      forall m: nat | Covers(m, Cpu(n), Cpu(1))
        ensures n <= m
      {
        assert "cpu" in Cpu(n);
      }
    }
    assert SumNum([Placement("c", n)]) == SumNum([]) + n;
  }

  lemma CpuSums(n: nat)
    ensures SumUnits(Copies(n, Slice(NsKey("t", "n"), Cpu(1), "c")), "cpu") == n
  {
    SumCopies(n, Slice(NsKey("t", "n"), Cpu(1), "c"), "cpu");
  }

  lemma AdmittedIfRoom(cap: nat, n: nat)
    requires n > 0
    ensures Admits("c", Cpu(cap), Cpu(0), Copies(n, Slice(NsKey("t", "n"), Cpu(1), "c"))) <==> n <= cap
  {
    var slice := Slice(NsKey("t", "n"), Cpu(1), "c");
    var slices := Copies(n, slice);
    CpuSums(n);
    assert forall i :: 0 <= i < n ==> slices[i] in slices;
    assert slices[0] == slice;
    assert FitsUnit(Cpu(cap), Cpu(0), slices, Cpu(1)) <==> n <= cap by {
      assert "cpu" in Cpu(1);
    }
  }

  lemma BookedIfRoom(cap: nat, n: nat, slices: seq<Slice>)
    requires n > 0 && slices == Copies(n, Slice(NsKey("t", "n"), Cpu(1), "c"))
    ensures AddItem("c", Cpu(cap), Holding(cap, 0).booked, NsKey("t", "n"), slices) ==
            if n <= cap then Some(Holding(cap, n).booked) else None
  {
    AdmittedIfRoom(cap, n);
    CpuSums(n);
    assert Grown(Cpu(0), slices) == Cpu(n);
  }

  /** On an empty cluster the placement goes through exactly when the cluster is large enough. */
  lemma PlacedIfRoom(cap: nat, n: nat)
    requires n > 0
    ensures Place(OneCluster(cap, 0).clusters, NsKey("t", "n"), Placement("c", n), Cpu(1)) ==
            if n <= cap then Some(OneCluster(cap, n).clusters) else None
  {
    var cs, p := OneCluster(cap, 0).clusters, Placement("c", n);
    var slices := SlicesFor(NsKey("t", "n"), p, Cpu(1));
    BookedIfRoom(cap, n, slices);
    assert cs["c"] == Holding(cap, 0) && Holding(cap, 0).capacity == Cpu(cap) && Holding(cap, 0).name == "c";
    assert cs["c"].(booked := Holding(cap, n).booked) == Holding(cap, n);
    assert cs["c" := Holding(cap, n)] == OneCluster(cap, n).clusters;
  }

  lemma AddedIfRoom(cap: nat, n: nat)
    requires n > 0
    ensures AddNs(OneCluster(cap, 0), Wanting(n)) ==
            Outcome(if n <= cap then OneCluster(cap, n) else OneCluster(cap, 0), n <= cap)
  {
    WantingCounts(n);
    PlacedIfRoom(cap, n);
    var cs, ns := OneCluster(cap, 0).clusters, Wanting(n);
    if n <= cap {
      assert PlaceFrom(cs, ns.Key(), ns.schedule, Cpu(1), 0) == PlaceFrom(OneCluster(cap, n).clusters, ns.Key(), ns.schedule, Cpu(1), 1);
    }
  }

  /** Taking the namespace out leaves the cluster empty. */
  lemma Freed(cap: nat, n: nat)
    requires n > 0
    ensures RemoveItem(Holding(cap, n).booked, NsKey("t", "n")) == Some(Holding(cap, 0).booked)
  {
    var key, l := NsKey("t", "n"), Holding(cap, n).booked;
    CpuFreed(n, Copies(n, Slice(key, Cpu(1), "c")));
    assert l.items - {key} == map[];
  }

  lemma CopiesKeys(n: nat, s: Slice)
    requires n > 0
    ensures UnitKeys(Copies(n, s)) == s.unit.Keys
  {
    var slices := Copies(n, s);
    assert slices[0] in slices;
    forall k
      ensures k in UnitKeys(slices) <==> k in s.unit
    {
      if k in s.unit {
        assert slices[0] in slices && k in slices[0].unit;
      }
    }
  }

  lemma CpuShrinks(n: nat, slices: seq<Slice>)
    requires UnitKeys(slices) == {"cpu"} && SumUnits(slices, "cpu") == n
    ensures Covered(Cpu(n), slices) && Shrunk(Cpu(n), slices) == Cpu(0)
  {
  }

  lemma CpuFreed(n: nat, slices: seq<Slice>)
    requires n > 0 && slices == Copies(n, Slice(NsKey("t", "n"), Cpu(1), "c"))
    ensures Covered(Cpu(n), slices) && Shrunk(Cpu(n), slices) == Cpu(0)
  {
    CpuSums(n);
    CopiesKeys(n, Slice(NsKey("t", "n"), Cpu(1), "c"));
    CpuShrinks(n, slices);
  }

  lemma Removed(cap: nat, n: nat)
    requires n > 0
    ensures RemoveNs(OneCluster(cap, n), Wanting(n)) == Outcome(OneCluster(cap, 0), true)
  {
    var ns := Wanting(n);
    var cs, ds := OneCluster(cap, n).clusters, OneCluster(cap, 0).clusters;
    Freed(cap, n);
    assert cs["c"].(booked := Holding(cap, 0).booked) == Holding(cap, 0);
    assert cs["c" := Holding(cap, 0)] == ds;
    assert Unplace(cs, ns.Key(), "c") == Some(ds);
    assert UnplaceFrom(cs, ns.Key(), ns.schedule, 0) == UnplaceFrom(ds, ns.Key(), ns.schedule, 1);
    assert OneCluster(cap, n).namespaces - {ns.Key()} == map[];
  }

  lemma Started(cap: nat)
    ensures Step(Step(EMPTY_CACHE, AddTenant("t")).st, AddCluster(NewState("c", Cpu(cap)))).st == OneCluster(cap, 0)
  {
    assert Zero(Cpu(cap)) == Cpu(0);
    assert NewState("c", Cpu(cap)) == Holding(cap, 0);
  }

  lemma Resized(cap: nat, low: nat, n: nat)
    ensures SetCapacity(OneCluster(cap, n), "c", Cpu(low)) == Outcome(OneCluster(low, n), true)
  {
    assert Zero(Cpu(cap)) == Zero(Cpu(low));
    assert Holding(cap, n).(capacity := Cpu(low)) == Holding(low, n);
    assert OneCluster(cap, n).clusters["c" := Holding(low, n)] == OneCluster(low, n).clusters;
  }

  lemma GrowthFails(low: nat, n: nat, m: nat)
    requires low < n < m
    ensures UpdateNs(OneCluster(low, n), Wanting(n), Wanting(m)) == Outcome(OneCluster(low, 0), false)
  {
    Removed(low, n);
    AddedIfRoom(low, m);
    AddedIfRoom(low, n);
  }

  /**
   Growing a namespace from `n` to `m` slices after its cluster shrank below `n`: the update fails,
   the old placement no longer fits either, and the cache forgets a namespace it held.
   */
  lemma ShrinkLosesNamespace(cap: nat, low: nat, n: nat, m: nat)
    requires 0 < n <= cap && low < n < m
    ensures Step(Step(EMPTY_CACHE, AddTenant("t")).st, AddCluster(NewState("c", Cpu(cap)))).st == OneCluster(cap, 0)
    ensures AddNs(OneCluster(cap, 0), Wanting(n)) == Outcome(OneCluster(cap, n), true)
    ensures SetCapacity(OneCluster(cap, n), "c", Cpu(low)) == Outcome(OneCluster(low, n), true)
    ensures UpdateNs(OneCluster(low, n), Wanting(n), Wanting(m)) == Outcome(OneCluster(low, 0), false)
    ensures Wanting(n).Key() !in OneCluster(low, 0).namespaces
  {
    Started(cap);
    AddedIfRoom(cap, n);
    Resized(cap, low, n);
    GrowthFails(low, n, m);
  }

  // ---------- a failing update books what was not there ----------

  /** The namespace is cached, but its cluster was removed and added again, and holds nothing. */
  function Emptied(cap: nat, n: nat): CacheState {
    OneCluster(cap, n).(clusters := map["c" := Holding(cap, 0)])
  }

  lemma EmptiedIsReached(cap: nat, n: nat)
    ensures Step(Step(OneCluster(cap, n), RemoveCluster("c")).st, AddCluster(NewState("c", Cpu(cap)))).st == Emptied(cap, n)
  {
    assert map["c" := Holding(cap, n)] - {"c"} == map[];
    assert Zero(Cpu(cap)) == Cpu(0);
    assert NewState("c", Cpu(cap)) == Holding(cap, 0);
  }

  lemma EmptiedIsRemoved(cap: nat, n: nat)
    requires n > 0
    ensures RemoveNs(Emptied(cap, n), Wanting(n)) == Outcome(OneCluster(cap, 0), true)
  {
    var ns, cs := Wanting(n), OneCluster(cap, 0).clusters;
    assert cs["c"].(booked := cs["c"].booked) == cs["c"];
    assert cs["c" := cs["c"]] == cs;
    assert Unplace(cs, ns.Key(), "c") == Some(cs);
    assert UnplaceFrom(cs, ns.Key(), ns.schedule, 0) == UnplaceFrom(cs, ns.Key(), ns.schedule, 1);
    assert OneCluster(cap, n).namespaces - {ns.Key()} == map[];
  }

  /** The update to more than the cluster takes fails, and its rollback books slices the cluster did not hold. */
  lemma AbsentIsBooked(cap: nat, n: nat, m: nat)
    requires 0 < n <= cap < m
    ensures Step(Step(OneCluster(cap, n), RemoveCluster("c")).st, AddCluster(NewState("c", Cpu(cap)))).st == Emptied(cap, n)
    ensures UpdateNs(Emptied(cap, n), Wanting(n), Wanting(m)) == Outcome(OneCluster(cap, n), false)
    ensures OneCluster(cap, n) != Emptied(cap, n)
  {
    EmptiedIsReached(cap, n);
    EmptiedIsRemoved(cap, n);
    AddedIfRoom(cap, m);
    AddedIfRoom(cap, n);
    assert Holding(cap, n).booked.alloc["cpu"] != Holding(cap, 0).booked.alloc["cpu"];
    assert OneCluster(cap, n).clusters["c"] != Emptied(cap, n).clusters["c"];
  }
}
