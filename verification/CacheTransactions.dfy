/**
 The rollbacks. A failed namespace update or removal gives back the state it found exactly when the slices
 it took out still fit under the clusters' present capacities and it puts back nothing that was not there.
 */
module CacheTransactions {
  import opened Resources
  import opened Clusters
  import opened CacheModel
  import opened CacheAccounting

  /** Placements on cached clusters are present there. */
  predicate Healthy(cs: ClusterMap, ns: Namespace) {
    forall p :: p in ns.schedule && p.cluster in cs && p.num != 0 ==> Holds(cs, ns, p)
  }

  /** The cluster is not over its capacity in the resources this placement uses. */
  predicate Fitting(cs: ClusterMap, ns: Namespace, p: Placement) {
    p.cluster in cs && p.num != 0 ==>
      WithinCapacity(cs[p.cluster].capacity, cs[p.cluster].booked.alloc, SlicesFor(ns.Key(), p, ns.quotaSlice))
  }

  /**
   Whatever a removal takes out before it meets a missing cluster, the placement it belongs to is met
   before that, too, and still fits. (A zero placement takes out what a later one on its cluster holds.)
   */
  ghost predicate Restorable(cs: ClusterMap, ns: Namespace) {
    forall j :: 0 <= j < |ns.schedule| && LiveUpTo(cs, ns, j + 1) ==> Recovered(cs, ns, ns.schedule[j].cluster)
  }

  ghost predicate Recovered(cs: ClusterMap, ns: Namespace, c: string) {
    c in cs && ns.Key() in cs[c].booked.items ==>
      exists k :: 0 <= k < |ns.schedule| && LiveUpTo(cs, ns, k + 1) && Returns(cs, ns, ns.schedule[k]) && ns.schedule[k].cluster == c
  }

  /** The cluster holds something for the namespace. */
  predicate Present(cs: ClusterMap, ns: Namespace, p: Placement) {
    p.cluster in cs && ns.Key() in cs[p.cluster].booked.items
  }

  /** The placement comes back when it is put back. */
  predicate Returns(cs: ClusterMap, ns: Namespace, p: Placement) {
    p.num != 0 && Present(cs, ns, p) && Fitting(cs, ns, p)
  }

  /** Putting the placement back books slices its cluster did not hold. */
  predicate Intrudes(cs: ClusterMap, ns: Namespace, p: Placement) {
    && p.num != 0 && p.cluster in cs && !Present(cs, ns, p)
    && Admits(cs[p.cluster].name, cs[p.cluster].capacity, cs[p.cluster].booked.alloc, SlicesFor(ns.Key(), p, ns.quotaSlice))
  }

  /** No such placement among those a removal gets to before it meets a missing cluster. */
  ghost predicate NoIntruder(cs: ClusterMap, ns: Namespace) {
    forall j :: 0 <= j < |ns.schedule| && LiveUpTo(cs, ns, j + 1) ==> !Intrudes(cs, ns, ns.schedule[j])
  }

  /** Taking the namespace out and putting it back, as far as each gets, changes nothing. */
  ghost predicate Undoable(cs: ClusterMap, ns: Namespace) {
    Restorable(cs, ns) && if AllLive(cs, ns) then Healthy(cs, ns) else NoIntruder(cs, ns)
  }

  predicate LiveUpTo(cs: ClusterMap, ns: Namespace, i: nat)
    requires i <= |ns.schedule|
  {
    forall j :: 0 <= j < i ==> ns.schedule[j].cluster in cs
  }

  /** What the cache invariant says of the clusters and one namespace. */
  ghost predicate Tracked(cs: ClusterMap, ns: Namespace) {
    AllBalanced(cs) && OnlyBacked(cs, ns) && OncePerCluster(ns)
  }

  ghost predicate Ready(cs: ClusterMap, ns: Namespace) {
    Tracked(cs, ns) && Healthy(cs, ns)
  }

  /** What a cluster holds for the namespace is what its one non-zero placement there asks for. */
  lemma PresentHolds(cs: ClusterMap, ns: Namespace, j: nat)
    requires Tracked(cs, ns) && j < |ns.schedule| && ns.schedule[j].num != 0 && Present(cs, ns, ns.schedule[j])
    ensures Holds(cs, ns, ns.schedule[j])
  {
    var c := ns.schedule[j].cluster;
    assert Backed(ns, c, cs[c].booked.items[ns.Key()]);
    var k :| 0 <= k < |ns.schedule| && Accounts(ns, ns.schedule[k], c, cs[c].booked.items[ns.Key()]);
    assert k == j;
  }

  // ---------- removal in closed form ----------

  function ClearedOne(c: ClusterState, key: NsKey): ClusterState {
    var r := RemoveItem(c.booked, key);
    if r.Some? then c.(booked := r.value) else c
  }

  /** The clusters in `names` hold nothing for `key` any more; all others are as before. */
  function Cleared(cs: ClusterMap, key: NsKey, names: set<string>): ClusterMap {
    map n | n in cs :: if n in names then ClearedOne(cs[n], key) else cs[n]
  }

  function Names(schedule: seq<Placement>): set<string> {
    set p | p in schedule :: p.cluster
  }

  lemma NamesSnoc(schedule: seq<Placement>, i: nat)
    requires i < |schedule|
    ensures Names(schedule[..i + 1]) == Names(schedule[..i]) + {schedule[i].cluster}
  {
    assert schedule[..i + 1] == schedule[..i] + [schedule[i]];
  }

  lemma ClearedFacts(c: ClusterState, key: NsKey)
    requires Balanced(c.booked)
    ensures var d := ClearedOne(c, key);
            && RemoveItem(c.booked, key).Some? && Balanced(d.booked)
            && key !in d.booked.items && ClearedOne(d, key) == d
            && (key !in c.booked.items ==> d == c)
  {
    RemoveItemBalanced(c.booked, key);
  }

  lemma UnplaceCleared(cs: ClusterMap, key: NsKey, names: set<string>, c: string)
    requires AllBalanced(cs) && c in cs
    ensures Unplace(Cleared(cs, key, names), key, c) == Some(Cleared(cs, key, names + {c}))
  {
    ClearedFacts(cs[c], key);
    ClearedFacts(ClearedOne(cs[c], key), key);
    assert Cleared(cs, key, names)[c := ClearedOne(cs[c], key)] == Cleared(cs, key, names + {c});
  }

  lemma UnplaceTurn(cs: ClusterMap, ns: Namespace, i: nat)
    requires AllBalanced(cs) && i < |ns.schedule|
    ensures Unplace(Cleared(cs, ns.Key(), Names(ns.schedule[..i])), ns.Key(), ns.schedule[i].cluster)
            == if ns.schedule[i].cluster in cs then Some(Cleared(cs, ns.Key(), Names(ns.schedule[..i + 1]))) else None
  {
    if ns.schedule[i].cluster in cs {
      UnplaceCleared(cs, ns.Key(), Names(ns.schedule[..i]), ns.schedule[i].cluster);
      NamesSnoc(ns.schedule, i);
    }
  }

  /** `at[i]` is the state before placement `i` is taken out. */
  predicate TurnsOff(at: map<nat, ClusterMap>, cs: ClusterMap, ns: Namespace, i: nat)
    requires i < |ns.schedule|
  {
    && i in at && i + 1 in at
    && Unplace(at[i], ns.Key(), ns.schedule[i].cluster) == if ns.schedule[i].cluster in cs then Some(at[i + 1]) else None
  }

  lemma {:induction false} UnplaceFromFollows(at: map<nat, ClusterMap>, cs: ClusterMap, ns: Namespace, i: nat)
    requires i <= |ns.schedule| && i in at && LiveUpTo(cs, ns, i)
    requires forall j :: i <= j < |ns.schedule| ==> TurnsOff(at, cs, ns, j)
    ensures var r := UnplaceFrom(at[i], ns.Key(), ns.schedule, i);
            && r.done in at && r.cs == at[r.done] && LiveUpTo(cs, ns, r.done)
            && (r.done < |ns.schedule| ==> ns.schedule[r.done].cluster !in cs)
    decreases |ns.schedule| - i
  {
    if i < |ns.schedule| {
      assert TurnsOff(at, cs, ns, i);
      if ns.schedule[i].cluster in cs {
        UnplaceFromFollows(at, cs, ns, i + 1);
      }
    }
  }

  /** The states the removal loop goes through. */
  lemma RemovalStates(cs: ClusterMap, ns: Namespace) returns (at: map<nat, ClusterMap>)
    requires AllBalanced(cs)
    ensures forall i :: 0 <= i <= |ns.schedule| ==> i in at && at[i] == Cleared(cs, ns.Key(), Names(ns.schedule[..i]))
    ensures forall i :: 0 <= i < |ns.schedule| ==> TurnsOff(at, cs, ns, i)
  {
    at := map i: nat | i <= |ns.schedule| :: Cleared(cs, ns.Key(), Names(ns.schedule[..i]));
    forall i | 0 <= i < |ns.schedule|
      ensures TurnsOff(at, cs, ns, i)
    {
      UnplaceTurn(cs, ns, i);
    }
  }

  lemma RemovalCleared(cs: ClusterMap, ns: Namespace)
    requires AllBalanced(cs)
    ensures var r := UnplaceFrom(cs, ns.Key(), ns.schedule, 0);
            && r.cs == Cleared(cs, ns.Key(), Names(ns.schedule[..r.done]))
            && LiveUpTo(cs, ns, r.done)
            && (r.done < |ns.schedule| ==> ns.schedule[r.done].cluster !in cs)
  {
    var at := RemovalStates(cs, ns);
    UnplaceFromFollows(at, cs, ns, 0);
    assert Cleared(cs, ns.Key(), Names(ns.schedule[..0])) == cs;
  }

  // ---------- putting one placement back ----------

  lemma PlaceClearedOne(c: ClusterState, ns: Namespace, p: Placement)
    requires Balanced(c.booked) && c.name == p.cluster && ns.Key() in c.booked.items
    requires c.booked.items[ns.Key()] == SlicesFor(ns.Key(), p, ns.quotaSlice)
    ensures var slices := SlicesFor(ns.Key(), p, ns.quotaSlice);
            AddItem(c.name, c.capacity, ClearedOne(c, ns.Key()).booked, ns.Key(), slices)
            == if WithinCapacity(c.capacity, c.booked.alloc, slices) then Some(c.booked) else None
  {
    RestoreItem(c.name, c.capacity, c.booked, ns.Key());
  }

  lemma PlaceCleared(cs: ClusterMap, ns: Namespace, j: nat, names: set<string>)
    requires AllBalanced(cs) && j < |ns.schedule| && ns.schedule[j].num != 0
    requires Holds(cs, ns, ns.schedule[j]) && ns.schedule[j].cluster in names
    ensures var p := ns.schedule[j];
            Place(Cleared(cs, ns.Key(), names), ns.Key(), p, ns.quotaSlice)
            == if Fitting(cs, ns, p) then Some(Cleared(cs, ns.Key(), names - {p.cluster})) else None
  {
    var p := ns.schedule[j];
    var c := cs[p.cluster];
    PlaceClearedOne(c, ns, p);
    assert ClearedOne(c, ns.Key()).(booked := c.booked) == c;
    assert Cleared(cs, ns.Key(), names)[p.cluster := c] == Cleared(cs, ns.Key(), names - {p.cluster});
  }

  // ---------- the rollback of a failed removal ----------

  /** Clusters that get their slices back from placements `i` to `n - 1`. */
  function Back(cs: ClusterMap, ns: Namespace, i: nat, n: nat): set<string>
    requires n <= |ns.schedule|
  {
    set k | i <= k < n && Returns(cs, ns, ns.schedule[k]) :: ns.schedule[k].cluster
  }

  /** The state in which placements `n - 1` down to `i` have been put back. */
  function Undone(cs: ClusterMap, ns: Namespace, i: nat, n: nat): ClusterMap
    requires n <= |ns.schedule|
  {
    Cleared(cs, ns.Key(), Names(ns.schedule[..n]) - Back(cs, ns, i, n))
  }

  lemma BackStep(cs: ClusterMap, ns: Namespace, i: nat, n: nat)
    requires i < n <= |ns.schedule|
    ensures var p := ns.schedule[i];
            Back(cs, ns, i, n) == Back(cs, ns, i + 1, n) + if Returns(cs, ns, p) then {p.cluster} else {}
    ensures OncePerCluster(ns) && ns.schedule[i].num != 0 ==> ns.schedule[i].cluster !in Back(cs, ns, i + 1, n)
    ensures ns.schedule[i].cluster in Names(ns.schedule[..n])
  {
    assert ns.schedule[..n][i] == ns.schedule[i];
  }

  /** One step of the rollback: the placement comes back, or nothing changes. */
  lemma PlaceBackStep(cs: ClusterMap, ns: Namespace, i: nat, n: nat)
    requires Tracked(cs, ns) && i < n <= |ns.schedule| && ns.schedule[i].cluster in cs && !Intrudes(cs, ns, ns.schedule[i])
    ensures var before, p := Undone(cs, ns, i + 1, n), ns.schedule[i];
            PutBack(before, ns.Key(), p, ns.quotaSlice) == Undone(cs, ns, i, n)
  {
    var p := ns.schedule[i];
    BackStep(cs, ns, i, n);
    var all := Names(ns.schedule[..n]);
    var names := all - Back(cs, ns, i + 1, n);
    if p.num != 0 && Present(cs, ns, p) {
      PresentHolds(cs, ns, i);
      PlaceCleared(cs, ns, i, names);
    } else if p.num != 0 {
      PlaceRefused(cs, ns, p, names);
    }
    if Returns(cs, ns, p) {
      assert names - {p.cluster} == all - Back(cs, ns, i, n);
    } else {
      assert Back(cs, ns, i, n) == Back(cs, ns, i + 1, n);
    }
  }

  /** An absent placement that is no intruder is refused. */
  lemma PlaceRefused(cs: ClusterMap, ns: Namespace, p: Placement, names: set<string>)
    requires AllBalanced(cs) && p.num != 0 && p.cluster in cs && !Present(cs, ns, p) && !Intrudes(cs, ns, p)
    ensures Place(Cleared(cs, ns.Key(), names), ns.Key(), p, ns.quotaSlice).None?
  {
    ClearedFacts(cs[p.cluster], ns.Key());
    assert Cleared(cs, ns.Key(), names)[p.cluster] == cs[p.cluster];
  }

  /** `at[i]` is the state before placement `i - 1` is put back. */
  predicate TurnsBack(at: map<nat, ClusterMap>, ns: Namespace, n: nat)
    requires n <= |ns.schedule|
  {
    && (forall i :: 0 <= i <= n ==> i in at)
    && (forall i :: 0 <= i < n ==> TurnsBackAt(at, ns, i))
  }

  predicate TurnsBackAt(at: map<nat, ClusterMap>, ns: Namespace, i: nat)
    requires i < |ns.schedule|
  {
    i in at && i + 1 in at && PutBack(at[i + 1], ns.Key(), ns.schedule[i], ns.quotaSlice) == at[i]
  }

  lemma {:induction false} PlaceBackFollows(at: map<nat, ClusterMap>, ns: Namespace, i: nat, n: nat)
    requires i <= n <= |ns.schedule| && TurnsBack(at, ns, n)
    ensures PlaceBack(at[i], ns.Key(), ns.schedule, ns.quotaSlice, i) == at[0]
    decreases i
  {
    if i > 0 {
      assert TurnsBackAt(at, ns, i - 1);
      PlaceBackFollows(at, ns, i - 1, n);
    }
  }

  function BackStates(cs: ClusterMap, ns: Namespace, n: nat): map<nat, ClusterMap>
    requires n <= |ns.schedule|
  {
    map i: nat | i <= n :: Undone(cs, ns, i, n)
  }

  lemma BackStatesAt(cs: ClusterMap, ns: Namespace, i: nat, n: nat)
    requires i <= n <= |ns.schedule|
    ensures i in BackStates(cs, ns, n) && BackStates(cs, ns, n)[i] == Undone(cs, ns, i, n)
  {
  }

  lemma BackTurnsAt(cs: ClusterMap, ns: Namespace, i: nat, n: nat, before: ClusterMap, after: ClusterMap)
    requires i < n <= |ns.schedule| && before == Undone(cs, ns, i + 1, n) && after == Undone(cs, ns, i, n)
    requires PutBack(before, ns.Key(), ns.schedule[i], ns.quotaSlice) == after
    ensures TurnsBackAt(BackStates(cs, ns, n), ns, i)
  {
    BackStatesAt(cs, ns, i, n);
    BackStatesAt(cs, ns, i + 1, n);
    TurnedBack(BackStates(cs, ns, n), ns, i, before, after);
  }

  lemma TurnedBack(at: map<nat, ClusterMap>, ns: Namespace, i: nat, before: ClusterMap, after: ClusterMap)
    requires i < |ns.schedule| && i in at && at[i] == after && i + 1 in at && at[i + 1] == before
    requires PutBack(before, ns.Key(), ns.schedule[i], ns.quotaSlice) == after
    ensures TurnsBackAt(at, ns, i)
  {
  }

  lemma BackTurns(cs: ClusterMap, ns: Namespace, n: nat)
    requires Tracked(cs, ns) && n <= |ns.schedule| && LiveUpTo(cs, ns, n)
    requires forall j :: 0 <= j < n ==> !Intrudes(cs, ns, ns.schedule[j])
    ensures TurnsBack(BackStates(cs, ns, n), ns, n)
  {
    forall i | 0 <= i < n
      ensures TurnsBackAt(BackStates(cs, ns, n), ns, i)
    {
      PlaceBackStep(cs, ns, i, n);
      BackTurnsAt(cs, ns, i, n, Undone(cs, ns, i + 1, n), Undone(cs, ns, i, n));
    }
  }

  lemma PlaceBackRestores(cs: ClusterMap, ns: Namespace, n: nat)
    requires n <= |ns.schedule| && TurnsBack(BackStates(cs, ns, n), ns, n)
    ensures PlaceBack(Undone(cs, ns, n, n), ns.Key(), ns.schedule, ns.quotaSlice, n) == Undone(cs, ns, 0, n)
  {
    PlaceBackFollows(BackStates(cs, ns, n), ns, n, n);
  }

  lemma ClearedUnchanged(cs: ClusterMap, key: NsKey, names: set<string>)
    requires AllBalanced(cs)
    ensures Cleared(cs, key, names) == cs <==> forall c :: c in names && c in cs ==> key !in cs[c].booked.items
  {
    forall c | c in names && c in cs
      ensures Cleared(cs, key, names)[c] == cs[c] <==> key !in cs[c].booked.items
    {
      ClearedFacts(cs[c], key);
    }
    if forall c :: c in names && c in cs ==> key !in cs[c].booked.items {
      assert forall c :: c in cs ==> Cleared(cs, key, names)[c] == cs[c];
    }
  }

  /** Where a removal stops. */
  lemma FailedRemovalStops(st: CacheState, ns: Namespace) returns (done: nat)
    requires Inv(st) && ns.Key() in st.namespaces && st.namespaces[ns.Key()] == ns && !RemoveNs(st, ns).ok
    ensures done < |ns.schedule| && LiveUpTo(st.clusters, ns, done) && ns.schedule[done].cluster !in st.clusters
    ensures Tracked(st.clusters, ns)
    ensures var cleared := Cleared(st.clusters, ns.Key(), Names(ns.schedule[..done]));
            RemoveNs(st, ns).st == st.(clusters := PlaceBack(cleared, ns.Key(), ns.schedule, ns.quotaSlice, done))
  {
    RemovalCleared(st.clusters, ns);
    done := UnplaceFrom(st.clusters, ns.Key(), ns.schedule, 0).done;
  }

  lemma RollbackCleared(cs: ClusterMap, ns: Namespace, done: nat)
    requires Tracked(cs, ns) && done <= |ns.schedule| && LiveUpTo(cs, ns, done)
    requires forall j :: 0 <= j < done ==> !Intrudes(cs, ns, ns.schedule[j])
    ensures PlaceBack(Cleared(cs, ns.Key(), Names(ns.schedule[..done])), ns.Key(), ns.schedule, ns.quotaSlice, done)
            == Undone(cs, ns, 0, done)
  {
    assert Back(cs, ns, done, done) == {};
    assert Names(ns.schedule[..done]) - {} == Names(ns.schedule[..done]);
    BackTurns(cs, ns, done);
    PlaceBackRestores(cs, ns, done);
  }

  // ---------- an absent placement that is booked by the rollback ----------

  lemma PutBackElsewhere(now: ClusterMap, ns: Namespace, p: Placement, c: string)
    requires c in now && (p.num == 0 || p.cluster != c)
    ensures var r := PutBack(now, ns.Key(), p, ns.quotaSlice); c in r && r[c] == now[c]
  {
  }

  lemma {:induction false} PlaceBackElsewhere(now: ClusterMap, ns: Namespace, i: nat, c: string)
    requires i <= |ns.schedule| && c in now && forall j :: 0 <= j < i ==> ns.schedule[j].num == 0 || ns.schedule[j].cluster != c
    ensures var r := PlaceBack(now, ns.Key(), ns.schedule, ns.quotaSlice, i); c in r && r[c] == now[c]
    decreases i
  {
    if i > 0 {
      PutBackElsewhere(now, ns, ns.schedule[i - 1], c);
      PlaceBackElsewhere(PutBack(now, ns.Key(), ns.schedule[i - 1], ns.quotaSlice), ns, i - 1, c);
    }
  }

  lemma PutBackBooks(now: ClusterMap, ns: Namespace, p: Placement)
    requires Intrudes(now, ns, p)
    ensures Present(PutBack(now, ns.Key(), p, ns.quotaSlice), ns, p)
  {
  }

  /** The rollback gets to the intruder at placement `k`, and leaves it booked. */
  lemma {:induction false} IntruderStays(now: ClusterMap, ns: Namespace, i: nat, k: nat)
    requires k < i <= |ns.schedule| && OncePerCluster(ns) && Intrudes(now, ns, ns.schedule[k])
    ensures Present(PlaceBack(now, ns.Key(), ns.schedule, ns.quotaSlice, i), ns, ns.schedule[k])
    decreases i
  {
    var c := ns.schedule[k].cluster;
    var next := PutBack(now, ns.Key(), ns.schedule[i - 1], ns.quotaSlice);
    if i - 1 == k {
      PutBackBooks(now, ns, ns.schedule[k]);
      PlaceBackElsewhere(next, ns, k, c);
    } else {
      PutBackElsewhere(now, ns, ns.schedule[i - 1], c);
      IntruderStays(next, ns, i - 1, k);
    }
  }

  lemma IntruderChanges(cs: ClusterMap, ns: Namespace, done: nat, k: nat)
    requires Tracked(cs, ns) && k < done <= |ns.schedule| && Intrudes(cs, ns, ns.schedule[k])
    ensures PlaceBack(Cleared(cs, ns.Key(), Names(ns.schedule[..done])), ns.Key(), ns.schedule, ns.quotaSlice, done) != cs
  {
    var c := ns.schedule[k].cluster;
    var now := Cleared(cs, ns.Key(), Names(ns.schedule[..done]));
    ClearedFacts(cs[c], ns.Key());
    assert now[c] == cs[c];
    IntruderStays(now, ns, done, k);
  }

  /** Rolling back keeps the clusters that were there, and adds none. */
  lemma {:induction false} PlaceBackKeys(now: ClusterMap, ns: Namespace, i: nat)
    requires i <= |ns.schedule| && forall j :: 0 <= j < i ==> ns.schedule[j].cluster in now
    ensures PlaceBack(now, ns.Key(), ns.schedule, ns.quotaSlice, i).Keys == now.Keys
    decreases i
  {
    if i > 0 {
      PlaceBackKeys(PutBack(now, ns.Key(), ns.schedule[i - 1], ns.quotaSlice), ns, i - 1);
    }
  }

  lemma RollbackIff(cs: ClusterMap, ns: Namespace, done: nat)
    requires Tracked(cs, ns) && done < |ns.schedule| && LiveUpTo(cs, ns, done) && ns.schedule[done].cluster !in cs
    ensures PlaceBack(Cleared(cs, ns.Key(), Names(ns.schedule[..done])), ns.Key(), ns.schedule, ns.quotaSlice, done) == cs
            <==> Restorable(cs, ns) && NoIntruder(cs, ns)
  {
    assert forall i :: 0 < i <= |ns.schedule| ==> (LiveUpTo(cs, ns, i) <==> i <= done);
    if k :| 0 <= k < done && Intrudes(cs, ns, ns.schedule[k]) {
      IntruderChanges(cs, ns, done, k);
      assert LiveUpTo(cs, ns, k + 1);
    } else {
      RollbackCleared(cs, ns, done);
      ClearedUnchanged(cs, ns.Key(), Names(ns.schedule[..done]) - Back(cs, ns, 0, done));
      LostIffRestorable(cs, ns, done);
    }
  }

  /** A removal that fails gives everything back exactly when what it took out still fits and no absent placement is booked. */
  lemma FailedRemovalRestores(st: CacheState, ns: Namespace)
    requires Inv(st) && ns.Key() in st.namespaces && st.namespaces[ns.Key()] == ns && !RemoveNs(st, ns).ok
    ensures RemoveNs(st, ns).st == st <==> Undoable(st.clusters, ns)
    ensures RemoveNs(st, ns).st == st <==> Restored(st, RemoveNs(st, ns).st)
  {
    var done := FailedRemovalStops(st, ns);
    assert !AllLive(st.clusters, ns);
    RollbackIff(st.clusters, ns, done);
    RollbackNoShadows(st.clusters, ns, done);
  }

  lemma RollbackNoShadows(cs: ClusterMap, ns: Namespace, done: nat)
    requires done <= |ns.schedule| && LiveUpTo(cs, ns, done)
    ensures var ds := PlaceBack(Cleared(cs, ns.Key(), Names(ns.schedule[..done])), ns.Key(), ns.schedule, ns.quotaSlice, done);
            PlusShadows(cs, ds) <==> ds == cs
  {
    var cleared := Cleared(cs, ns.Key(), Names(ns.schedule[..done]));
    PlaceBackKeys(cleared, ns, done);
    SameKeysNoShadows(cs, PlaceBack(cleared, ns.Key(), ns.schedule, ns.quotaSlice, done));
  }

  /** The first placement holds nothing itself, and the second stops the removal. */
  lemma ZeroFirstIsLost(cs: ClusterMap, ns: Namespace)
    requires |ns.schedule| > 1 && ns.schedule[0].num == 0 && ns.schedule[1].cluster !in cs
    requires ns.schedule[0].cluster in cs && ns.Key() in cs[ns.schedule[0].cluster].booked.items
    ensures !Restorable(cs, ns) && !AllLive(cs, ns)
  {
    assert LiveUpTo(cs, ns, 1);
    assert forall i :: 1 < i <= |ns.schedule| ==> !LiveUpTo(cs, ns, i);
    assert !Recovered(cs, ns, ns.schedule[0].cluster);
  }

  /**
   A zero placement in front of a missing cluster: the failed removal loses what a later placement
   holds on its cluster, however much room there is.
   */
  lemma ZeroFirstLoses(st: CacheState, ns: Namespace)
    requires Inv(st) && ns.Key() in st.namespaces && st.namespaces[ns.Key()] == ns
    requires |ns.schedule| > 1 && ns.schedule[0].num == 0 && ns.schedule[1].cluster !in st.clusters
    requires ns.schedule[0].cluster in st.clusters && ns.Key() in st.clusters[ns.schedule[0].cluster].booked.items
    ensures !RemoveNs(st, ns).ok && RemoveNs(st, ns).st != st
  {
    ZeroFirstIsLost(st.clusters, ns);
    RemoveNsKeeps(st, ns);
    FailedRemovalRestores(st, ns);
  }

  lemma SameKeysNoShadows(cs: ClusterMap, ds: ClusterMap)
    requires ds.Keys == cs.Keys
    ensures PlusShadows(cs, ds) <==> ds == cs
  {
  }

  lemma RecoveredIff(cs: ClusterMap, ns: Namespace, done: nat, c: string)
    requires done < |ns.schedule| && LiveUpTo(cs, ns, done) && ns.schedule[done].cluster !in cs && c in cs
    ensures Recovered(cs, ns, c) <==> (ns.Key() in cs[c].booked.items ==> c in Back(cs, ns, 0, done))
  {
    assert forall i :: 0 < i <= |ns.schedule| ==> (LiveUpTo(cs, ns, i) <==> i <= done);
  }

  lemma LostIffRestorable(cs: ClusterMap, ns: Namespace, done: nat)
    requires done < |ns.schedule| && LiveUpTo(cs, ns, done) && ns.schedule[done].cluster !in cs
    ensures var names := Names(ns.schedule[..done]) - Back(cs, ns, 0, done);
            (forall c :: c in names && c in cs ==> ns.Key() !in cs[c].booked.items) <==> Restorable(cs, ns)
  {
    var names := Names(ns.schedule[..done]) - Back(cs, ns, 0, done);
    forall j | 0 <= j < done
      ensures ns.schedule[j].cluster in Names(ns.schedule[..done])
      ensures Recovered(cs, ns, ns.schedule[j].cluster) <==>
              (ns.Key() in cs[ns.schedule[j].cluster].booked.items ==> ns.schedule[j].cluster in Back(cs, ns, 0, done))
    {
      assert ns.schedule[..done][j] == ns.schedule[j];
      RecoveredIff(cs, ns, done, ns.schedule[j].cluster);
    }
    assert forall i :: 0 < i <= |ns.schedule| ==> (LiveUpTo(cs, ns, i) <==> i <= done);
    forall c | c in Names(ns.schedule[..done])
      ensures exists j :: 0 <= j < done && ns.schedule[j].cluster == c
    {
      var p :| p in ns.schedule[..done] && p.cluster == c;
    }
  }

  // ---------- adding the old namespace again ----------

  /** The clusters of the non-zero placements from `i` on. */
  function Used(ns: Namespace, i: nat): set<string> {
    set k | i <= k < |ns.schedule| && ns.schedule[k].num != 0 :: ns.schedule[k].cluster
  }

  lemma UsedStep(ns: Namespace, i: nat)
    requires i < |ns.schedule|
    ensures Used(ns, i) == Used(ns, i + 1) + if ns.schedule[i].num != 0 then {ns.schedule[i].cluster} else {}
    ensures OncePerCluster(ns) && ns.schedule[i].num != 0 ==> ns.schedule[i].cluster !in Used(ns, i + 1)
  {
  }

  lemma HeldIsUsed(cs: ClusterMap, ns: Namespace, n: string)
    requires OnlyBacked(cs, ns) && n in cs && ns.Key() in cs[n].booked.items
    ensures n in Used(ns, 0) && n in Names(ns.schedule)
  {
    assert Backed(ns, n, cs[n].booked.items[ns.Key()]);
    var j :| 0 <= j < |ns.schedule| && Accounts(ns, ns.schedule[j], n, cs[n].booked.items[ns.Key()]);
    assert ns.schedule[j] in ns.schedule;
  }

  /** Only clusters with a non-zero placement had anything to clear. */
  lemma OnlyUsedCleared(cs: ClusterMap, ns: Namespace)
    requires AllBalanced(cs) && OnlyBacked(cs, ns)
    ensures Cleared(cs, ns.Key(), Names(ns.schedule)) == Cleared(cs, ns.Key(), Used(ns, 0))
  {
    forall n | n in cs
      ensures ClearedOne(cs[n], ns.Key()) == cs[n] || (n in Used(ns, 0) && n in Names(ns.schedule))
    {
      ClearedFacts(cs[n], ns.Key());
      if ns.Key() in cs[n].booked.items {
        HeldIsUsed(cs, ns, n);
      }
    }
  }

  predicate FittingFrom(cs: ClusterMap, ns: Namespace, i: nat)
    requires i <= |ns.schedule|
  {
    forall j :: i <= j < |ns.schedule| ==> Fitting(cs, ns, ns.schedule[j])
  }

  /** One step of adding again. */
  ghost predicate Again(cs: ClusterMap, ns: Namespace, i: nat)
    requires i < |ns.schedule|
  {
    Place(Cleared(cs, ns.Key(), Used(ns, i)), ns.Key(), ns.schedule[i], ns.quotaSlice)
    == if Fitting(cs, ns, ns.schedule[i]) then Some(Cleared(cs, ns.Key(), Used(ns, i + 1))) else None
  }

  lemma PlaceAgain(cs: ClusterMap, ns: Namespace, i: nat)
    requires Ready(cs, ns) && i < |ns.schedule| && ns.schedule[i].cluster in cs
    ensures Again(cs, ns, i)
  {
    var p := ns.schedule[i];
    UsedStep(ns, i);
    if p.num != 0 {
      assert p in ns.schedule;
      PlaceCleared(cs, ns, i, Used(ns, i));
      assert Used(ns, i) - {p.cluster} == Used(ns, i + 1);
    } else {
      assert Used(ns, i) == Used(ns, i + 1);
    }
  }

  /** `at[i]` is the state before placement `i` is added again. */
  ghost predicate TurnsOn(at: map<nat, ClusterMap>, cs: ClusterMap, ns: Namespace, i: nat)
    requires i < |ns.schedule|
  {
    && i in at && i + 1 in at
    && Place(at[i], ns.Key(), ns.schedule[i], ns.quotaSlice) == if Fitting(cs, ns, ns.schedule[i]) then Some(at[i + 1]) else None
  }

  lemma {:induction false} PlaceFromFollows(at: map<nat, ClusterMap>, cs: ClusterMap, ns: Namespace, i: nat)
    requires i <= |ns.schedule| && i in at && |ns.schedule| in at
    requires forall j :: i <= j < |ns.schedule| ==> TurnsOn(at, cs, ns, j)
    ensures var r := PlaceFrom(at[i], ns.Key(), ns.schedule, ns.quotaSlice, i);
            if FittingFrom(cs, ns, i) then r == Progress(at[|ns.schedule|], |ns.schedule|) else r.done < |ns.schedule|
    decreases |ns.schedule| - i
  {
    if i < |ns.schedule| {
      assert TurnsOn(at, cs, ns, i);
      PlaceFromFollows(at, cs, ns, i + 1);
    }
  }

  function OnStates(cs: ClusterMap, ns: Namespace): map<nat, ClusterMap> {
    map i: nat | i <= |ns.schedule| :: Cleared(cs, ns.Key(), Used(ns, i))
  }

  lemma OnTurnsAt(cs: ClusterMap, ns: Namespace, i: nat)
    requires Ready(cs, ns) && i < |ns.schedule| && ns.schedule[i].cluster in cs
    ensures TurnsOn(OnStates(cs, ns), cs, ns, i)
  {
    PlaceAgain(cs, ns, i);
  }

  lemma OnStatesEnd(cs: ClusterMap, ns: Namespace)
    ensures OnStates(cs, ns)[0] == Cleared(cs, ns.Key(), Used(ns, 0)) && OnStates(cs, ns)[|ns.schedule|] == cs
  {
    assert Used(ns, |ns.schedule|) == {};
    assert Cleared(cs, ns.Key(), {}) == cs;
  }

  /** The placing loop on the state without the namespace. */
  lemma PlaceFromRestores(cs: ClusterMap, ns: Namespace)
    requires Ready(cs, ns) && AllLive(cs, ns)
    ensures var r := PlaceFrom(Cleared(cs, ns.Key(), Used(ns, 0)), ns.Key(), ns.schedule, ns.quotaSlice, 0);
            if FittingFrom(cs, ns, 0) then r == Progress(cs, |ns.schedule|) else r.done < |ns.schedule|
  {
    forall j | 0 <= j < |ns.schedule|
      ensures TurnsOn(OnStates(cs, ns), cs, ns, j)
    {
      OnTurnsAt(cs, ns, j);
    }
    PlaceFromFollows(OnStates(cs, ns), cs, ns, 0);
    OnStatesEnd(cs, ns);
  }

  /** Adding the namespace again, from the state its removal left. */
  lemma AddAgainRestores(cs: ClusterMap, ns: Namespace)
    requires Ready(cs, ns) && AllLive(cs, ns)
    ensures var r := PlaceFrom(Cleared(cs, ns.Key(), Names(ns.schedule)), ns.Key(), ns.schedule, ns.quotaSlice, 0);
            if FittingFrom(cs, ns, 0) then r == Progress(cs, |ns.schedule|) else r.done < |ns.schedule|
  {
    OnlyUsedCleared(cs, ns);
    PlaceFromRestores(cs, ns);
  }

  // ---------- the update transaction ----------

  /** The cache before, except that empty shadow clusters may have been left behind. */
  ghost predicate Restored(st: CacheState, after: CacheState) {
    after == st.(clusters := after.clusters) && PlusShadows(st.clusters, after.clusters)
  }

  lemma ClearedPlusShadows(cs: ClusterMap, ds: ClusterMap, key: NsKey, names: set<string>) returns (base: ClusterMap)
    requires PlusShadows(Cleared(cs, key, names), ds) && names <= cs.Keys && AllBalanced(cs)
    ensures PlusShadows(cs, base) && AllBalanced(base) && ds == Cleared(base, key, names)
  {
    base := map n | n in ds :: if n in cs then cs[n] else Shadow(n);
    PlusShadowsBalanced(cs, base);
    ClearingCommutes(cs, base, ds, key, names);
  }

  /** Empty shadow clusters come through the clearing of other clusters unchanged. */
  lemma ClearingCommutes(cs: ClusterMap, base: ClusterMap, ds: ClusterMap, key: NsKey, names: set<string>)
    requires PlusShadows(cs, base) && PlusShadows(Cleared(cs, key, names), ds) && base.Keys == ds.Keys && names <= cs.Keys
    ensures ds == Cleared(base, key, names)
  {
    forall n | n in ds
      ensures ds[n] == Cleared(base, key, names)[n]
    {
      if n in cs {
        assert ds[n] == Cleared(cs, key, names)[n];
      }
    }
  }

  lemma PlusShadowsBalanced(cs: ClusterMap, ds: ClusterMap)
    requires PlusShadows(cs, ds) && AllBalanced(cs)
    ensures AllBalanced(ds)
  {
    forall n | n in ds
      ensures ds[n].name == n && Balanced(ds[n].booked) && Balanced(ds[n].provisioned)
    {
      ShadowBalanced(n);
    }
  }

  lemma ReadyPlusShadows(cs: ClusterMap, base: ClusterMap, ns: Namespace)
    requires Ready(cs, ns) && AllLive(cs, ns) && PlusShadows(cs, base) && AllBalanced(base)
    ensures Ready(base, ns) && AllLive(base, ns)
    ensures FittingFrom(base, ns, 0) <==> FittingFrom(cs, ns, 0)
  {
    forall n | n in base && ns.Key() in base[n].booked.items
      ensures Backed(ns, n, base[n].booked.items[ns.Key()])
    {
      assert n in cs;
    }
    forall j | 0 <= j < |ns.schedule|
      ensures Fitting(base, ns, ns.schedule[j]) <==> Fitting(cs, ns, ns.schedule[j])
    {
    }
    forall p | p in ns.schedule && p.cluster in base && p.num != 0
      ensures Holds(base, ns, p)
    {
      assert p.cluster in cs;
    }
  }

  lemma RestorableWhenLive(cs: ClusterMap, ns: Namespace)
    requires Ready(cs, ns) && AllLive(cs, ns)
    ensures Restorable(cs, ns) <==> FittingFrom(cs, ns, 0)
  {
    assert forall i :: 0 <= i <= |ns.schedule| ==> LiveUpTo(cs, ns, i);
    if FittingFrom(cs, ns, 0) {
      forall j | 0 <= j < |ns.schedule|
        ensures Recovered(cs, ns, ns.schedule[j].cluster)
      {
        var c := ns.schedule[j].cluster;
        if ns.Key() in cs[c].booked.items {
          assert Backed(ns, c, cs[c].booked.items[ns.Key()]);
        }
      }
    }
    if Restorable(cs, ns) {
      forall j | 0 <= j < |ns.schedule|
        ensures Fitting(cs, ns, ns.schedule[j])
      {
        RecoveredFits(cs, ns, j);
      }
    }
  }

  lemma RecoveredFits(cs: ClusterMap, ns: Namespace, j: nat)
    requires Ready(cs, ns) && j < |ns.schedule| && Recovered(cs, ns, ns.schedule[j].cluster)
    ensures Fitting(cs, ns, ns.schedule[j])
  {
    var p := ns.schedule[j];
    if p.num != 0 && p.cluster in cs {
      assert p in ns.schedule;
      assert Holds(cs, ns, p);
      var k :| 0 <= k < |ns.schedule| && LiveUpTo(cs, ns, k + 1) && Returns(cs, ns, ns.schedule[k]) && ns.schedule[k].cluster == p.cluster;
      assert k == j;
    }
  }

  lemma RemovedWhole(st: CacheState, o: Namespace)
    requires Inv(st) && o.Key() in st.namespaces && st.namespaces[o.Key()] == o && RemoveNs(st, o).ok
    ensures RemoveNs(st, o).st == st.(clusters := Cleared(st.clusters, o.Key(), Names(o.schedule)),
                                      namespaces := st.namespaces - {o.Key()})
    ensures Names(o.schedule) <= st.clusters.Keys && AllLive(st.clusters, o)
  {
    RemovalCleared(st.clusters, o);
    assert o.schedule[..|o.schedule|] == o.schedule;
  }

  lemma AddNsUnfolds(mid: CacheState, o: Namespace)
    requires o.Key() !in mid.namespaces && CountsMatch(o)
    ensures var p := PlaceFrom(mid.clusters, o.Key(), o.schedule, o.quotaSlice, 0);
            var r := AddNs(mid, o);
            if p.done == |o.schedule|
            then r == Outcome(mid.(clusters := p.cs, namespaces := mid.namespaces[o.Key() := o]), true)
            else !r.ok && r.st.namespaces == mid.namespaces
  {
  }

  lemma PlaceOverShadows(cs: ClusterMap, ds: ClusterMap, o: Namespace) returns (base: ClusterMap)
    requires Ready(cs, o) && AllLive(cs, o) && Names(o.schedule) <= cs.Keys
    requires PlusShadows(Cleared(cs, o.Key(), Names(o.schedule)), ds)
    ensures PlusShadows(cs, base)
    ensures var r := PlaceFrom(ds, o.Key(), o.schedule, o.quotaSlice, 0);
            if FittingFrom(cs, o, 0) then r == Progress(base, |o.schedule|) else r.done < |o.schedule|
  {
    base := ClearedPlusShadows(cs, ds, o.Key(), Names(o.schedule));
    ReadyPlusShadows(cs, base, o);
    AddAgainRestores(base, o);
  }

  /** What adding `o` gives, once it is known how far the placing loop gets. */
  lemma ReAdded(st: CacheState, mid: CacheState, o: Namespace, base: ClusterMap, fits: bool)
    requires o.Key() in st.namespaces && st.namespaces[o.Key()] == o && CountsMatch(o)
    requires mid == st.(clusters := mid.clusters, namespaces := st.namespaces - {o.Key()})
    requires var p := PlaceFrom(mid.clusters, o.Key(), o.schedule, o.quotaSlice, 0);
             if fits then p == Progress(base, |o.schedule|) else p.done < |o.schedule|
    ensures AddNs(mid, o).ok == fits
    ensures fits ==> AddNs(mid, o).st == st.(clusters := base)
    ensures !fits ==> o.Key() !in AddNs(mid, o).st.namespaces
  {
    AddNsUnfolds(mid, o);
    assert (st.namespaces - {o.Key()})[o.Key() := o] == st.namespaces;
  }

  /**
   Putting the old namespace back after the new one was refused. `mid` is the cache in between:
   the old namespace taken out, possibly with empty shadow clusters from the refused one.
   */
  lemma ReAddRestores(st: CacheState, mid: CacheState, o: Namespace)
    requires o.Key() in st.namespaces && st.namespaces[o.Key()] == o && CountsMatch(o)
    requires Ready(st.clusters, o) && AllLive(st.clusters, o) && Names(o.schedule) <= st.clusters.Keys
    requires mid == st.(clusters := mid.clusters, namespaces := st.namespaces - {o.Key()})
    requires PlusShadows(Cleared(st.clusters, o.Key(), Names(o.schedule)), mid.clusters)
    ensures AddNs(mid, o).ok <==> FittingFrom(st.clusters, o, 0)
    ensures AddNs(mid, o).ok ==> Restored(st, AddNs(mid, o).st)
    ensures !AddNs(mid, o).ok ==> o.Key() !in AddNs(mid, o).st.namespaces
  {
    var base := PlaceOverShadows(st.clusters, mid.clusters, o);
    ReAdded(st, mid, o, base, FittingFrom(st.clusters, o, 0));
  }

  /** A state in which all placements are booked and that looks like `st` shows that they were booked in `st`. */
  lemma RestoredIsHealthy(st: CacheState, after: CacheState, o: Namespace)
    requires Restored(st, after) && PresentUpTo(after.clusters, o, |o.schedule|)
    ensures Healthy(st.clusters, o)
  {
    forall p | p in o.schedule && p.cluster in st.clusters && p.num != 0
      ensures Holds(st.clusters, o, p)
    {
      var j :| 0 <= j < |o.schedule| && o.schedule[j] == p;
      assert Holds(after.clusters, o, o.schedule[j]);
    }
  }

  /** Putting the old namespace back restores the cache exactly when it was all there and still fits. */
  lemma ReAddRestoresIff(st: CacheState, mid: CacheState, o: Namespace)
    requires Inv(st) && o.Key() in st.namespaces && st.namespaces[o.Key()] == o
    requires AllLive(st.clusters, o) && Names(o.schedule) <= st.clusters.Keys && Inv(mid)
    requires mid == st.(clusters := mid.clusters, namespaces := st.namespaces - {o.Key()})
    requires PlusShadows(Cleared(st.clusters, o.Key(), Names(o.schedule)), mid.clusters)
    ensures Restored(st, AddNs(mid, o).st) <==> Undoable(st.clusters, o)
    ensures Healthy(st.clusters, o) && !Restorable(st.clusters, o) ==> o.Key() !in AddNs(mid, o).st.namespaces
    ensures Undoable(st.clusters, o) ==> AddNs(mid, o).ok
  {
    var r := AddNs(mid, o);
    AddNsKeeps(mid, o);
    if Healthy(st.clusters, o) {
      assert Ready(st.clusters, o);
      ReAddRestores(st, mid, o);
      RestorableWhenLive(st.clusters, o);
    } else if r.ok && Restored(st, r.st) {
      RestoredIsHealthy(st, r.st, o);
    }
  }

  /**
   A failing update restores the cache exactly when the old namespace can be taken out and put back: with all
   its clusters cached, when it was all there and still fits; otherwise, when what the removal gets to still
   fits and nothing absent is booked instead.
   */
  lemma UpdateIsTransactional(st: CacheState, o: Namespace, n: Namespace)
    requires Inv(st) && o.Key() in st.namespaces && st.namespaces[o.Key()] == o && o.Key() == n.Key()
    requires !UpdateNs(st, o, n).ok
    ensures Restored(st, UpdateNs(st, o, n).st) <==> Undoable(st.clusters, o)
    ensures !AllLive(st.clusters, o) && Undoable(st.clusters, o) ==> UpdateNs(st, o, n).st == st
    ensures AllLive(st.clusters, o) && Healthy(st.clusters, o) && !Restorable(st.clusters, o) ==>
              o.Key() !in UpdateNs(st, o, n).st.namespaces
  {
    RemoveNsKeeps(st, o);
    var removed := RemoveNs(st, o);
    if removed.ok {
      RemovedWhole(st, o);
      AddNsKeeps(removed.st, n);
      ReAddRestoresIff(st, AddNs(removed.st, n).st, o);
    } else {
      FailedRemovalRestores(st, o);
    }
  }
}
