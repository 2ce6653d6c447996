/**
 Accounting over whole runs: the cached sums agree with the items, no cluster holds slices of a
 namespace that is not cached with exactly that placement, and (without cluster deletion) every
 cached placement is fully present.
 */
module CacheAccounting {
  import opened Resources
  import opened Clusters
  import opened CacheModel

  // ---------- invariants ----------

  ghost predicate AllBalanced(cs: ClusterMap) {
    forall n :: n in cs ==> cs[n].name == n && Balanced(cs[n].booked) && Balanced(cs[n].provisioned)
  }

  /** Some placement of `ns` on cluster `n` accounts for exactly these slices. */
  ghost predicate Backed(ns: Namespace, n: string, slices: seq<Slice>) {
    exists j :: 0 <= j < |ns.schedule| && Accounts(ns, ns.schedule[j], n, slices)
  }

  predicate Accounts(ns: Namespace, p: Placement, n: string, slices: seq<Slice>) {
    p.cluster == n && p.num != 0 && slices == SlicesFor(ns.Key(), p, ns.quotaSlice)
  }

  /** Whatever the clusters hold for `ns` is accounted for by its schedule. */
  ghost predicate OnlyBacked(cs: ClusterMap, ns: Namespace) {
    forall n :: n in cs && ns.Key() in cs[n].booked.items ==> Backed(ns, n, cs[n].booked.items[ns.Key()])
  }

  ghost predicate KeyFree(cs: ClusterMap, key: NsKey) {
    forall n :: n in cs ==> key !in cs[n].booked.items
  }

  ghost predicate Orphanless(st: CacheState) {
    && (forall key :: key in st.namespaces ==> OnlyBacked(st.clusters, st.namespaces[key]))
    && (forall key :: key !in st.namespaces ==> KeyFree(st.clusters, key))
  }

  /** Among the first `i` placements no two non-zero ones share a cluster: the cache refuses the second. */
  predicate DistinctUpTo(ns: Namespace, i: nat)
    requires i <= |ns.schedule|
  {
    forall j, k :: 0 <= j < k < i && ns.schedule[j].num != 0 && ns.schedule[k].num != 0 ==>
      ns.schedule[j].cluster != ns.schedule[k].cluster
  }

  /** Namespaces are filed under their key, hold what their quota asks for, and use each cluster once. */
  ghost predicate NamespacesOk(st: CacheState) {
    forall key :: key in st.namespaces ==>
      st.namespaces[key].Key() == key && CountsMatch(st.namespaces[key]) && OncePerCluster(st.namespaces[key])
  }

  predicate OncePerCluster(ns: Namespace) {
    DistinctUpTo(ns, |ns.schedule|)
  }

  /** The accounting invariant. */
  ghost predicate Inv(st: CacheState) {
    AllBalanced(st.clusters) && NamespacesOk(st) && Orphanless(st)
  }

  /** The first `i` placements of `ns` are present in the named clusters. */
  ghost predicate PresentUpTo(cs: ClusterMap, ns: Namespace, i: nat)
    requires i <= |ns.schedule|
  {
    forall j :: 0 <= j < i && ns.schedule[j].num != 0 ==> Holds(cs, ns, ns.schedule[j])
  }

  predicate Holds(cs: ClusterMap, ns: Namespace, p: Placement) {
    && p.cluster in cs
    && ns.Key() in cs[p.cluster].booked.items
    && cs[p.cluster].booked.items[ns.Key()] == SlicesFor(ns.Key(), p, ns.quotaSlice)
  }

  /** The converse of `Orphanless`: every cached non-zero placement is fully present. */
  ghost predicate Complete(st: CacheState) {
    forall key :: key in st.namespaces ==>
      PresentUpTo(st.clusters, st.namespaces[key], |st.namespaces[key].schedule|)
  }

  // ---------- what a change for one namespace leaves alone ----------

  /** The clusters differ at most in what they hold for `key`. */
  predicate Alike(c: ClusterState, d: ClusterState, key: NsKey) {
    && d == c.(booked := d.booked)
    && d.booked.alloc.Keys == c.booked.alloc.Keys
    && d.booked.items - {key} == c.booked.items - {key}
  }

  ghost predicate SameBut(cs: ClusterMap, ds: ClusterMap, key: NsKey) {
    && cs.Keys <= ds.Keys
    && (forall n :: n in ds ==> Alike(if n in cs then cs[n] else Shadow(n), ds[n], key))
  }

  /** Everything as before, except that empty shadow clusters may have appeared. */
  ghost predicate PlusShadows(cs: ClusterMap, ds: ClusterMap) {
    cs.Keys <= ds.Keys && forall n :: n in ds ==> ds[n] == if n in cs then cs[n] else Shadow(n)
  }

  lemma SameButTrans(cs: ClusterMap, ds: ClusterMap, es: ClusterMap, key: NsKey)
    requires SameBut(cs, ds, key) && SameBut(ds, es, key)
    ensures SameBut(cs, es, key)
  {
    forall n | n in es
      ensures Alike(if n in cs then cs[n] else Shadow(n), es[n], key)
    {
      if n in ds {
        assert Alike(if n in cs then cs[n] else Shadow(n), ds[n], key);
        assert Alike(ds[n], es[n], key);
      }
    }
  }

  lemma AlikeClear(c: ClusterState, d: ClusterState, key: NsKey)
    requires Alike(c, d, key) && Balanced(c.booked) && Balanced(d.booked)
    requires key !in c.booked.items && key !in d.booked.items
    ensures c == d
  {
    assert c.booked.items == c.booked.items - {key};
    assert d.booked.items == d.booked.items - {key};
    BalancedDetermined(c.booked, d.booked);
  }

  lemma ShadowBalanced(n: string)
    ensures Balanced(Shadow(n).booked) && Balanced(Shadow(n).provisioned) && Shadow(n).name == n
  {
    EmptyBalanced(SHADOW_CAPACITY);
  }

  lemma SameButClear(cs: ClusterMap, ds: ClusterMap, key: NsKey)
    requires SameBut(cs, ds, key) && AllBalanced(cs) && AllBalanced(ds)
    requires KeyFree(cs, key) && KeyFree(ds, key)
    ensures PlusShadows(cs, ds)
  {
    forall n | n in ds
      ensures ds[n] == if n in cs then cs[n] else Shadow(n)
    {
      ShadowBalanced(n);
      AlikeClear(if n in cs then cs[n] else Shadow(n), ds[n], key);
    }
  }

  /** Changing what is held for one key says nothing new about another. */
  lemma SameButOther(cs: ClusterMap, ds: ClusterMap, key: NsKey, other: NsKey)
    requires SameBut(cs, ds, key) && other != key
    ensures forall n :: n in cs ==>
              (other in cs[n].booked.items <==> other in ds[n].booked.items)
              && (other in cs[n].booked.items ==> cs[n].booked.items[other] == ds[n].booked.items[other])
    ensures forall n :: n in ds && n !in cs ==> other !in ds[n].booked.items
  {
    forall n | n in ds
      ensures var c := if n in cs then cs[n] else Shadow(n);
              && (other in c.booked.items <==> other in ds[n].booked.items)
              && (other in c.booked.items ==> c.booked.items[other] == ds[n].booked.items[other])
    {
      var c := if n in cs then cs[n] else Shadow(n);
      assert Alike(c, ds[n], key);
      assert other in c.booked.items <==> other in c.booked.items - {key};
      assert other in ds[n].booked.items <==> other in ds[n].booked.items - {key};
      if other in c.booked.items {
        assert (c.booked.items - {key})[other] == (ds[n].booked.items - {key})[other];
      }
    }
  }

  // ---------- single placements ----------

  lemma UpdateAlike(cs: ClusterMap, n: string, d: ClusterState, key: NsKey)
    requires AllBalanced(cs) && d.name == n && Balanced(d.booked) && Balanced(d.provisioned)
    requires Alike(if n in cs then cs[n] else Shadow(n), d, key)
    ensures AllBalanced(cs[n := d]) && SameBut(cs, cs[n := d], key)
  {
    var ds := cs[n := d];
    forall m | m in ds
      ensures Alike(if m in cs then cs[m] else Shadow(m), ds[m], key)
    {
    }
  }

  lemma AddItemAlike(c: ClusterState, key: NsKey, slices: seq<Slice>)
    requires Balanced(c.booked) && AddItem(c.name, c.capacity, c.booked, key, slices).Some?
    ensures var l := AddItem(c.name, c.capacity, c.booked, key, slices).value;
            && Balanced(l) && Alike(c, c.(booked := l), key)
            && key in l.items && l.items[key] == slices && key !in c.booked.items
  {
    AddItemBalanced(c.name, c.capacity, c.booked, key, slices);
    var l := AddItem(c.name, c.capacity, c.booked, key, slices).value;
    assert l.items - {key} == c.booked.items - {key};
  }

  lemma PlaceKeeps(cs: ClusterMap, ns: Namespace, p: Placement)
    requires AllBalanced(cs)
    requires Place(cs, ns.Key(), p, ns.quotaSlice).Some?
    ensures var ds := Place(cs, ns.Key(), p, ns.quotaSlice).value;
            && AllBalanced(ds) && SameBut(cs, ds, ns.Key())
            && (p.num == 0 ==> ds == cs)
            && (p.num != 0 ==> Holds(ds, ns, p) && (p.cluster in cs ==> ns.Key() !in cs[p.cluster].booked.items))
            && (forall n :: n in ds && n != p.cluster ==> n in cs && ds[n] == cs[n])
  {
    var key := ns.Key();
    if p.num == 0 {
      SameButRefl(cs, key);
    } else {
      ShadowBalanced(p.cluster);
      var c := if p.cluster in cs then cs[p.cluster] else Shadow(p.cluster);
      var slices := SlicesFor(key, p, ns.quotaSlice);
      AddItemAlike(c, key, slices);
      var l := AddItem(c.name, c.capacity, c.booked, key, slices).value;
      UpdateAlike(cs, p.cluster, c.(booked := l), key);
    }
  }

  lemma UnplaceKeeps(cs: ClusterMap, key: NsKey, cluster: string)
    requires AllBalanced(cs)
    ensures Unplace(cs, key, cluster).Some? <==> cluster in cs
    ensures cluster in cs ==>
              var ds := Unplace(cs, key, cluster).value;
              && AllBalanced(ds) && SameBut(cs, ds, key)
              && ds.Keys == cs.Keys && key !in ds[cluster].booked.items
              && (forall n :: n in ds && n != cluster ==> ds[n] == cs[n])
  {
    if cluster in cs {
      var c := cs[cluster];
      RemoveItemBalanced(c.booked, key);
      var l := RemoveItem(c.booked, key).value;
      assert l.items - {key} == c.booked.items - {key};
      UpdateAlike(cs, cluster, c.(booked := l), key);
    }
  }

  /** What every state of a loop for `ns` that started in `cs` satisfies. */
  ghost predicate Tidy(cs: ClusterMap, ds: ClusterMap, ns: Namespace) {
    AllBalanced(ds) && OnlyBacked(ds, ns) && SameBut(cs, ds, ns.Key())
  }

  lemma SameButRefl(cs: ClusterMap, key: NsKey)
    ensures SameBut(cs, cs, key)
  {
  }

  lemma PlaceTidy(cs: ClusterMap, ds: ClusterMap, ns: Namespace, j: nat)
    requires Tidy(cs, ds, ns) && j < |ns.schedule|
    requires Place(ds, ns.Key(), ns.schedule[j], ns.quotaSlice).Some?
    ensures Tidy(cs, Place(ds, ns.Key(), ns.schedule[j], ns.quotaSlice).value, ns)
  {
    var p := ns.schedule[j];
    var es := Place(ds, ns.Key(), p, ns.quotaSlice).value;
    PlaceKeeps(ds, ns, p);
    SameButTrans(cs, ds, es, ns.Key());
    forall n | n in es && ns.Key() in es[n].booked.items
      ensures Backed(ns, n, es[n].booked.items[ns.Key()])
    {
      if p.num != 0 && n == p.cluster {
        assert Accounts(ns, ns.schedule[j], n, es[n].booked.items[ns.Key()]);
      } else {
        assert n in ds && ns.Key() in ds[n].booked.items;
      }
    }
  }

  lemma UnplaceTidy(cs: ClusterMap, ds: ClusterMap, ns: Namespace, cluster: string)
    requires Tidy(cs, ds, ns) && cluster in ds
    ensures Unplace(ds, ns.Key(), cluster).Some?
    ensures Tidy(cs, Unplace(ds, ns.Key(), cluster).value, ns)
  {
    UnplaceKeeps(ds, ns.Key(), cluster);
    var es := Unplace(ds, ns.Key(), cluster).value;
    SameButTrans(cs, ds, es, ns.Key());
    forall n | n in es && ns.Key() in es[n].booked.items
      ensures Backed(ns, n, es[n].booked.items[ns.Key()])
    {
      assert n != cluster;
      assert n in ds && ns.Key() in ds[n].booked.items;
    }
  }

  // ---------- the four loops ----------

  /** The key is held at most by the clusters of the first `i` placements. */
  ghost predicate HeldWithin(cs: ClusterMap, ns: Namespace, i: nat)
    requires i <= |ns.schedule|
  {
    forall n :: n in cs && ns.Key() in cs[n].booked.items ==> PlacedBefore(ns, n, i)
  }

  ghost predicate PlacedBefore(ns: Namespace, n: string, i: nat)
    requires i <= |ns.schedule|
  {
    exists j :: 0 <= j < i && ns.schedule[j].cluster == n
  }

  /** One step of the placing loop. */
  lemma PlaceAdvances(ds: ClusterMap, ns: Namespace, i: nat)
    requires i < |ns.schedule| && AllBalanced(ds) && HeldWithin(ds, ns, i) && PresentUpTo(ds, ns, i)
    requires Place(ds, ns.Key(), ns.schedule[i], ns.quotaSlice).Some?
    ensures var es := Place(ds, ns.Key(), ns.schedule[i], ns.quotaSlice).value;
            HeldWithin(es, ns, i + 1) && PresentUpTo(es, ns, i + 1)
  {
    var p := ns.schedule[i];
    var es := Place(ds, ns.Key(), p, ns.quotaSlice).value;
    PlaceKeeps(ds, ns, p);
    forall n | n in es && ns.Key() in es[n].booked.items
      ensures PlacedBefore(ns, n, i + 1)
    {
      if n == p.cluster {
        assert ns.schedule[i].cluster == n;
      } else {
        assert PlacedBefore(ns, n, i);
      }
    }
    forall j | 0 <= j < i + 1 && ns.schedule[j].num != 0
      ensures Holds(es, ns, ns.schedule[j])
    {
      if j < i {
        assert Holds(ds, ns, ns.schedule[j]);
      }
    }
  }

  lemma {:induction false} PlaceFromTidy(cs: ClusterMap, ds: ClusterMap, ns: Namespace, i: nat)
    requires i <= |ns.schedule| && Tidy(cs, ds, ns) && HeldWithin(ds, ns, i) && PresentUpTo(ds, ns, i)
    ensures var r := PlaceFrom(ds, ns.Key(), ns.schedule, ns.quotaSlice, i);
            Tidy(cs, r.cs, ns) && HeldWithin(r.cs, ns, r.done) && PresentUpTo(r.cs, ns, r.done)
    decreases |ns.schedule| - i
  {
    if i < |ns.schedule| {
      var next := Place(ds, ns.Key(), ns.schedule[i], ns.quotaSlice);
      if next.Some? {
        PlaceTidy(cs, ds, ns, i);
        PlaceAdvances(ds, ns, i);
        PlaceFromTidy(cs, next.value, ns, i + 1);
      }
    }
  }

  lemma HeldWithinLess(ds: ClusterMap, es: ClusterMap, ns: Namespace, i: nat)
    requires i < |ns.schedule| && HeldWithin(ds, ns, i + 1)
    requires es.Keys == ds.Keys && forall n :: n in es && n != ns.schedule[i].cluster ==> es[n] == ds[n]
    requires ns.schedule[i].cluster in es ==> ns.Key() !in es[ns.schedule[i].cluster].booked.items
    ensures HeldWithin(es, ns, i)
  {
    forall n | n in es && ns.Key() in es[n].booked.items
      ensures PlacedBefore(ns, n, i)
    {
      assert PlacedBefore(ns, n, i + 1);
      var j :| 0 <= j < i + 1 && ns.schedule[j].cluster == n;
      assert j != i;
    }
  }

  lemma TakeOffTidy(cs: ClusterMap, ds: ClusterMap, ns: Namespace, i: nat)
    requires i < |ns.schedule| && Tidy(cs, ds, ns) && HeldWithin(ds, ns, i + 1)
    ensures var es := TakeOff(ds, ns.Key(), ns.schedule[i].cluster); Tidy(cs, es, ns) && HeldWithin(es, ns, i)
  {
    var c := ns.schedule[i].cluster;
    UnplaceKeeps(ds, ns.Key(), c);
    if c in ds {
      UnplaceTidy(cs, ds, ns, c);
    }
    HeldWithinLess(ds, TakeOff(ds, ns.Key(), c), ns, i);
  }

  lemma {:induction false} UnplaceBackTidy(cs: ClusterMap, ds: ClusterMap, ns: Namespace, i: nat)
    requires i <= |ns.schedule| && Tidy(cs, ds, ns) && HeldWithin(ds, ns, i)
    ensures var es := UnplaceBack(ds, ns.Key(), ns.schedule, i);
            Tidy(cs, es, ns) && KeyFree(es, ns.Key())
    decreases i
  {
    if i > 0 {
      TakeOffTidy(cs, ds, ns, i - 1);
      UnplaceBackTidy(cs, TakeOff(ds, ns.Key(), ns.schedule[i - 1].cluster), ns, i - 1);
    } else {
      assert forall n :: !PlacedBefore(ns, n, i);
    }
  }

  ghost predicate GoneUpTo(cs: ClusterMap, ns: Namespace, i: nat)
    requires i <= |ns.schedule|
  {
    forall j :: 0 <= j < i ==> ns.schedule[j].cluster in cs && ns.Key() !in cs[ns.schedule[j].cluster].booked.items
  }

  lemma GoneAdvances(ds: ClusterMap, es: ClusterMap, ns: Namespace, i: nat)
    requires i < |ns.schedule| && GoneUpTo(ds, ns, i)
    requires ds.Keys == es.Keys && ns.schedule[i].cluster in es
    requires ns.Key() !in es[ns.schedule[i].cluster].booked.items
    requires forall n :: n in es && n != ns.schedule[i].cluster ==> es[n] == ds[n]
    ensures GoneUpTo(es, ns, i + 1)
  {
    forall j | 0 <= j < i + 1
      ensures ns.schedule[j].cluster in es && ns.Key() !in es[ns.schedule[j].cluster].booked.items
    {
    }
  }

  lemma {:induction false} UnplaceFromTidy(cs: ClusterMap, ds: ClusterMap, ns: Namespace, i: nat)
    requires i <= |ns.schedule| && Tidy(cs, ds, ns) && GoneUpTo(ds, ns, i)
    ensures var r := UnplaceFrom(ds, ns.Key(), ns.schedule, i);
            && Tidy(cs, r.cs, ns) && r.cs.Keys == ds.Keys && GoneUpTo(r.cs, ns, r.done)
            && (r.done < |ns.schedule| ==> ns.schedule[r.done].cluster !in ds)
    decreases |ns.schedule| - i
  {
    if i < |ns.schedule| {
      var c := ns.schedule[i].cluster;
      UnplaceKeeps(ds, ns.Key(), c);
      if c in ds {
        UnplaceTidy(cs, ds, ns, c);
        var es := Unplace(ds, ns.Key(), c).value;
        GoneAdvances(ds, es, ns, i);
        UnplaceFromTidy(cs, es, ns, i + 1);
      }
    }
  }

  lemma {:induction false} PlaceBackTidy(cs: ClusterMap, ds: ClusterMap, ns: Namespace, i: nat)
    requires i <= |ns.schedule| && Tidy(cs, ds, ns)
    ensures Tidy(cs, PlaceBack(ds, ns.Key(), ns.schedule, ns.quotaSlice, i), ns)
    decreases i
  {
    if i > 0 {
      var next := Place(ds, ns.Key(), ns.schedule[i - 1], ns.quotaSlice);
      if next.Some? {
        PlaceTidy(cs, ds, ns, i - 1);
      }
      PlaceBackTidy(cs, PutBack(ds, ns.Key(), ns.schedule[i - 1], ns.quotaSlice), ns, i - 1);
    }
  }

  // ---------- a second placement on the same cluster is refused ----------

  lemma PlacedIsNew(cs: ClusterMap, key: NsKey, p: Placement, unit: ResourceList)
    requires Place(cs, key, p, unit).Some? && p.num != 0 && p.cluster in cs
    ensures key !in cs[p.cluster].booked.items
  {
  }

  lemma PlaceDistinct(ds: ClusterMap, ns: Namespace, i: nat)
    requires i < |ns.schedule| && PresentUpTo(ds, ns, i) && DistinctUpTo(ns, i)
    requires Place(ds, ns.Key(), ns.schedule[i], ns.quotaSlice).Some?
    ensures DistinctUpTo(ns, i + 1)
  {
    var p := ns.schedule[i];
    forall j | 0 <= j < i && ns.schedule[j].num != 0 && p.num != 0
      ensures ns.schedule[j].cluster != p.cluster
    {
      assert Holds(ds, ns, ns.schedule[j]);
      if p.cluster in ds {
        PlacedIsNew(ds, ns.Key(), p, ns.quotaSlice);
      }
    }
  }

  lemma DistinctAdvances(ds: ClusterMap, ns: Namespace, i: nat, es: ClusterMap)
    requires i < |ns.schedule| && AllBalanced(ds) && HeldWithin(ds, ns, i) && PresentUpTo(ds, ns, i) && DistinctUpTo(ns, i)
    requires Place(ds, ns.Key(), ns.schedule[i], ns.quotaSlice) == Some(es)
    ensures AllBalanced(es) && HeldWithin(es, ns, i + 1) && PresentUpTo(es, ns, i + 1) && DistinctUpTo(ns, i + 1)
  {
    PlaceAdvances(ds, ns, i);
    PlaceKeeps(ds, ns, ns.schedule[i]);
    PlaceDistinct(ds, ns, i);
  }

  lemma {:induction false} PlaceFromDistinct(ds: ClusterMap, ns: Namespace, i: nat)
    requires i <= |ns.schedule| && AllBalanced(ds) && HeldWithin(ds, ns, i) && PresentUpTo(ds, ns, i)
    requires DistinctUpTo(ns, i)
    ensures DistinctUpTo(ns, PlaceFrom(ds, ns.Key(), ns.schedule, ns.quotaSlice, i).done)
    decreases |ns.schedule| - i
  {
    if i < |ns.schedule| {
      var next := Place(ds, ns.Key(), ns.schedule[i], ns.quotaSlice);
      if next.Some? {
        DistinctAdvances(ds, ns, i, next.value);
        PlaceFromDistinct(next.value, ns, i + 1);
      }
    }
  }

  // ---------- namespace operations ----------

  /** A loop for `ns` that changes the clusters keeps the invariant for all other namespaces. */
  lemma OthersKept(st: CacheState, ds: ClusterMap, ns: Namespace)
    requires Orphanless(st) && SameBut(st.clusters, ds, ns.Key())
    ensures forall key :: key in st.namespaces && st.namespaces[key].Key() == key && key != ns.Key() ==> OnlyBacked(ds, st.namespaces[key])
    ensures forall key :: key !in st.namespaces && key != ns.Key() ==> KeyFree(ds, key)
  {
    forall key | key in st.namespaces && st.namespaces[key].Key() == key && key != ns.Key()
      ensures OnlyBacked(ds, st.namespaces[key])
    {
      SameButOther(st.clusters, ds, ns.Key(), key);
      assert OnlyBacked(st.clusters, st.namespaces[key]);
      forall n | n in ds && key in ds[n].booked.items
        ensures Backed(st.namespaces[key], n, ds[n].booked.items[key])
      {
        assert n in st.clusters && key in st.clusters[n].booked.items;
      }
    }
    forall key | key !in st.namespaces && key != ns.Key()
      ensures KeyFree(ds, key)
    {
      SameButOther(st.clusters, ds, ns.Key(), key);
      assert KeyFree(st.clusters, key);
    }
  }

  lemma InvWith(st: CacheState, after: CacheState, ns: Namespace)
    requires Inv(st) && AllBalanced(after.clusters) && SameBut(st.clusters, after.clusters, ns.Key())
    requires after.namespaces == st.namespaces[ns.Key() := ns] && CountsMatch(ns) && OncePerCluster(ns)
    requires OnlyBacked(after.clusters, ns)
    ensures Inv(after)
  {
    OthersKept(st, after.clusters, ns);
  }

  lemma InvWithout(st: CacheState, after: CacheState, ns: Namespace)
    requires Inv(st) && AllBalanced(after.clusters) && SameBut(st.clusters, after.clusters, ns.Key())
    requires after.namespaces == st.namespaces - {ns.Key()} && KeyFree(after.clusters, ns.Key())
    ensures Inv(after)
  {
    OthersKept(st, after.clusters, ns);
  }

  /** How far the placing loop got, for a namespace that is not cached. */
  lemma PlacedSoFar(st: CacheState, ns: Namespace)
    requires Inv(st) && ns.Key() !in st.namespaces
    ensures KeyFree(st.clusters, ns.Key()) && HeldWithin(st.clusters, ns, 0)
    ensures var p := PlaceFrom(st.clusters, ns.Key(), ns.schedule, ns.quotaSlice, 0);
            Tidy(st.clusters, p.cs, ns) && HeldWithin(p.cs, ns, p.done) && PresentUpTo(p.cs, ns, p.done)
  {
    assert KeyFree(st.clusters, ns.Key());
    SameButRefl(st.clusters, ns.Key());
    PlaceFromTidy(st.clusters, st.clusters, ns, 0);
  }

  /** The rollback of the addition leaves at most empty shadow clusters. */
  lemma PlacedThenUndone(st: CacheState, ns: Namespace, p: Progress)
    requires Inv(st) && ns.Key() !in st.namespaces && KeyFree(st.clusters, ns.Key()) && p.done <= |ns.schedule|
    requires Tidy(st.clusters, p.cs, ns) && HeldWithin(p.cs, ns, p.done)
    ensures var ds := UnplaceBack(p.cs, ns.Key(), ns.schedule, p.done);
            Inv(st.(clusters := ds)) && PlusShadows(st.clusters, ds)
  {
    UnplaceBackTidy(st.clusters, p.cs, ns, p.done);
    var ds := UnplaceBack(p.cs, ns.Key(), ns.schedule, p.done);
    SameButClear(st.clusters, ds, ns.Key());
    assert st.namespaces - {ns.Key()} == st.namespaces;
    InvWithout(st, st.(clusters := ds), ns);
  }

  lemma AddNsKeeps(st: CacheState, ns: Namespace)
    requires Inv(st)
    ensures var r := AddNs(st, ns);
            && Inv(r.st)
            && (r.ok ==> PresentUpTo(r.st.clusters, ns, |ns.schedule|)
                         && SameBut(st.clusters, r.st.clusters, ns.Key())
                         && r.st.namespaces == st.namespaces[ns.Key() := ns])
            && (!r.ok ==> r.st == st.(clusters := r.st.clusters) && PlusShadows(st.clusters, r.st.clusters))
            && (r.ok ==> ns.Key() !in st.namespaces && CountsMatch(ns))
            && r.st.tenants == st.tenants && r.st.pods == st.pods
  {
    if ns.Key() !in st.namespaces && CountsMatch(ns) {
      PlacedSoFar(st, ns);
      var p := PlaceFrom(st.clusters, ns.Key(), ns.schedule, ns.quotaSlice, 0);
      if p.done == |ns.schedule| {
        PlaceFromDistinct(st.clusters, ns, 0);
        InvWith(st, AddNs(st, ns).st, ns);
      } else {
        PlacedThenUndone(st, ns, p);
      }
    }
  }

  lemma GoneIsFree(cs: ClusterMap, ns: Namespace)
    requires OnlyBacked(cs, ns) && GoneUpTo(cs, ns, |ns.schedule|)
    ensures KeyFree(cs, ns.Key())
  {
  }

  ghost predicate AllLive(cs: ClusterMap, ns: Namespace) {
    forall j :: 0 <= j < |ns.schedule| ==> ns.schedule[j].cluster in cs
  }

  /**
   Removing the cached namespace succeeds exactly when all clusters in its schedule are cached,
   placements of zero slices included.
   */
  lemma RemoveNsKeeps(st: CacheState, ns: Namespace)
    requires Inv(st) && ns.Key() in st.namespaces && st.namespaces[ns.Key()] == ns
    ensures var r := RemoveNs(st, ns);
            && Inv(r.st)
            && (r.ok <==> AllLive(st.clusters, ns))
            && r.st.namespaces == (if r.ok then st.namespaces - {ns.Key()} else st.namespaces)
            && SameBut(st.clusters, r.st.clusters, ns.Key())
            && (r.ok ==> KeyFree(r.st.clusters, ns.Key()) && r.st.clusters.Keys == st.clusters.Keys)
            && r.st.tenants == st.tenants && r.st.pods == st.pods
  {
    var key := ns.Key();
    var cs := st.clusters;
    assert Tidy(cs, cs, ns) by {
      SameButRefl(cs, key);
    }
    UnplaceFromTidy(cs, cs, ns, 0);
    var p := UnplaceFrom(cs, key, ns.schedule, 0);
    if p.done == |ns.schedule| {
      GoneIsFree(p.cs, ns);
      InvWithout(st, RemoveNs(st, ns).st, ns);
    } else {
      PlaceBackTidy(cs, p.cs, ns, p.done);
      assert st.namespaces[key := ns] == st.namespaces;
      InvWith(st, RemoveNs(st, ns).st, ns);
    }
  }

  lemma UpdateNsKeeps(st: CacheState, o: Namespace, n: Namespace)
    requires Inv(st) && o.Key() in st.namespaces && st.namespaces[o.Key()] == o
    ensures var r := UpdateNs(st, o, n);
            Inv(r.st) && r.st.tenants == st.tenants && r.st.pods == st.pods
  {
    if o.Key() == n.Key() {
      RemoveNsKeeps(st, o);
      var removed := RemoveNs(st, o);
      if removed.ok {
        AddNsKeeps(removed.st, n);
        AddNsKeeps(AddNs(removed.st, n).st, o);
      }
    }
  }
}
