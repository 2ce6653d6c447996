/** `RemoveTenant` is all-or-nothing: its outer rollback undoes a sequence of inner removals. */
module TenantRemoval {
  import opened Resources
  import opened Clusters
  import opened CacheModel
  import opened CacheAccounting
  import opened CacheRuns
  import opened CacheTransactions

  /** Nothing stands in the way of putting `ns` back after taking it out. */
  ghost predicate Sound(cs: ClusterMap, ns: Namespace) {
    Healthy(cs, ns) && Restorable(cs, ns)
  }

  /** Adding is the inverse of a successful removal. */
  lemma RemoveThenAdd(st: CacheState, ns: Namespace)
    requires Inv(st) && ns.Key() in st.namespaces && st.namespaces[ns.Key()] == ns
    requires Sound(st.clusters, ns) && RemoveNs(st, ns).ok
    ensures AddNs(RemoveNs(st, ns).st, ns) == Outcome(st, true)
  {
    RemovedWhole(st, ns);
    var mid := RemoveNs(st, ns).st;
    assert Ready(st.clusters, ns);
    RestorableWhenLive(st.clusters, ns);
    AddAgainRestores(st.clusters, ns);
    AddNsUnfolds(mid, ns);
    assert (st.namespaces - {ns.Key()})[ns.Key() := ns] == st.namespaces;
  }

  /** Adding is the inverse of a successful removal exactly when the namespace was all there and still fits. */
  lemma RemoveThenAddIff(st: CacheState, ns: Namespace)
    requires Inv(st) && ns.Key() in st.namespaces && st.namespaces[ns.Key()] == ns && RemoveNs(st, ns).ok
    ensures AddNs(RemoveNs(st, ns).st, ns) == Outcome(st, true) <==> Undoable(st.clusters, ns)
  {
    RemoveNsKeeps(st, ns);
    RemovedWhole(st, ns);
    ReAddRestoresIff(st, RemoveNs(st, ns).st, ns);
    if Undoable(st.clusters, ns) {
      RemoveThenAdd(st, ns);
    }
  }

  lemma RemovedIsSmaller(l: Ledger, key: NsKey)
    requires RemoveItem(l, key).Some?
    ensures var m := RemoveItem(l, key).value;
            l.alloc.Keys <= m.alloc.Keys && forall k :: k in l.alloc ==> m.alloc[k] <= l.alloc[k]
  {
  }

  lemma ClearedShrinks(c: ClusterState, key: NsKey, other: NsKey)
    requires Balanced(c.booked) && other != key
    ensures var d := ClearedOne(c, key);
            && d == c.(booked := d.booked)
            && (other in d.booked.items <==> other in c.booked.items)
            && (other in c.booked.items ==> d.booked.items[other] == c.booked.items[other])
            && d.booked.alloc.Keys == c.booked.alloc.Keys
            && forall k :: k in c.booked.alloc ==> d.booked.alloc[k] <= c.booked.alloc[k]
  {
    RemoveItemBalanced(c.booked, key);
    RemovedIsSmaller(c.booked, key);
  }

  lemma PlacementKept(cs: ClusterMap, key: NsKey, names: set<string>, other: Namespace, p: Placement)
    requires AllBalanced(cs) && other.Key() != key
    ensures Holds(cs, other, p) ==> Holds(Cleared(cs, key, names), other, p)
    ensures Fitting(cs, other, p) ==> Fitting(Cleared(cs, key, names), other, p)
  {
    if p.cluster in cs {
      ClearedShrinks(cs[p.cluster], key, other.Key());
    }
  }

  /** Removing one namespace takes nothing from another and only makes room. */
  lemma RecoveredKept(cs: ClusterMap, key: NsKey, names: set<string>, other: Namespace, c: string)
    requires AllBalanced(cs) && other.Key() != key && Recovered(cs, other, c)
    ensures Recovered(Cleared(cs, key, names), other, c)
  {
    var ds := Cleared(cs, key, names);
    if c in cs && other.Key() in ds[c].booked.items {
      ClearedShrinks(cs[c], key, other.Key());
      var k :| 0 <= k < |other.schedule| && LiveUpTo(cs, other, k + 1) && Returns(cs, other, other.schedule[k]) && other.schedule[k].cluster == c;
      PlacementKept(cs, key, names, other, other.schedule[k]);
      assert LiveUpTo(ds, other, k + 1) && Returns(ds, other, other.schedule[k]);
    }
  }

  lemma SoundKept(st: CacheState, ns: Namespace, other: Namespace)
    requires Inv(st) && ns.Key() in st.namespaces && st.namespaces[ns.Key()] == ns && RemoveNs(st, ns).ok
    requires Sound(st.clusters, other) && other.Key() != ns.Key()
    ensures Sound(RemoveNs(st, ns).st.clusters, other)
  {
    RemovedWhole(st, ns);
    var cs := st.clusters;
    var ds := Cleared(cs, ns.Key(), Names(ns.schedule));
    forall p | p in other.schedule && p.cluster in ds && p.num != 0
      ensures Holds(ds, other, p)
    {
      PlacementKept(cs, ns.Key(), Names(ns.schedule), other, p);
    }
    forall j | 0 <= j < |other.schedule| && LiveUpTo(ds, other, j + 1)
      ensures Recovered(ds, other, other.schedule[j].cluster)
    {
      assert LiveUpTo(cs, other, j + 1);
      RecoveredKept(cs, ns.Key(), Names(ns.schedule), other, other.schedule[j].cluster);
    }
  }

  lemma {:induction false} AddBackSplit(st: CacheState, nss: seq<Namespace>, lo: nat, hi: nat)
    requires lo < hi <= |nss|
    ensures AddBack(st, nss, lo, hi) == AddNs(AddBack(st, nss, lo + 1, hi), nss[lo]).st
    decreases hi
  {
    if lo + 1 < hi {
      AddBackSplit(AddNs(st, nss[hi - 1]).st, nss, lo, hi - 1);
    }
  }

  ghost predicate SoundFrom(cs: ClusterMap, nss: seq<Namespace>, i: nat)
    requires i <= |nss|
  {
    forall j :: i <= j < |nss| ==> Sound(cs, nss[j])
  }

  lemma SoundFromKept(st: CacheState, nss: seq<Namespace>, i: nat)
    requires i < |nss| && Inv(st) && CachedFrom(st, nss, i) && SoundFrom(st.clusters, nss, i)
    requires RemoveNs(st, nss[i]).ok
    ensures SoundFrom(RemoveNs(st, nss[i]).st.clusters, nss, i + 1)
  {
    forall j | i + 1 <= j < |nss|
      ensures Sound(RemoveNs(st, nss[i]).st.clusters, nss[j])
    {
      SoundKept(st, nss[i], nss[j]);
    }
  }

  lemma {:induction false} RollbackUndoes(st: CacheState, nss: seq<Namespace>, i: nat)
    requires i <= |nss| && Inv(st) && CachedFrom(st, nss, i) && SoundFrom(st.clusters, nss, i)
    ensures var r := RemoveEach(st, nss, i);
            r.done < |nss| ==> AddBack(r.st, nss, i, r.done) == st
    decreases |nss| - i
  {
    if i < |nss| {
      var next := RemoveFirst(st, nss, i);
      if next.ok {
        SoundFromKept(st, nss, i);
        RollbackUndoes(next.st, nss, i + 1);
        var r := RemoveEach(next.st, nss, i + 1);
        if r.done < |nss| {
          AddBackSplit(r.st, nss, i, r.done);
          RemoveThenAdd(st, nss[i]);
        }
      } else {
        FailedRemovalRestores(st, nss[i]);
        HealthyHasNoIntruder(st.clusters, nss[i]);
      }
    }
  }

  lemma HealthyHasNoIntruder(cs: ClusterMap, ns: Namespace)
    requires Healthy(cs, ns)
    ensures NoIntruder(cs, ns)
  {
    forall j | 0 <= j < |ns.schedule| && LiveUpTo(cs, ns, j + 1)
      ensures !Intrudes(cs, ns, ns.schedule[j])
    {
      assert ns.schedule[j] in ns.schedule;
    }
  }

  /**
   All or nothing. The tenant goes completely exactly when all its clusters are cached; otherwise,
   as long as its live placements are present and fit, the cache is the very state it was before.
   */
  lemma TenantRemovalIsAtomic(st: CacheState, t: string, nss: seq<Namespace>)
    requires Inv(st) && Collects(st, t, nss)
    requires forall ns :: ns in nss ==> Sound(st.clusters, ns)
    ensures var r := RemoveTenantOf(st, t, nss);
            if forall ns :: ns in nss ==> AllLive(st.clusters, ns)
            then r.ok && TenantGone(r.st, t)
            else !r.ok && r.st == st
  {
    RemoveTenantOutcome(st, t, nss);
    CollectedCached(st, t, nss);
    RollbackUndoes(st, nss, 0);
  }

  // ---------- exactly when a failed removal changes nothing ----------

  /** Each namespace can be undone in the state its removal finds, up to the one that stops the loop. */
  ghost predicate UndoableAlong(st: CacheState, nss: seq<Namespace>, i: nat)
    requires i <= |nss|
    decreases |nss| - i
  {
    i == |nss| ||
    (&& Undoable(st.clusters, nss[i])
     && (RemoveNs(st, nss[i]).ok ==> UndoableAlong(RemoveNs(st, nss[i]).st, nss, i + 1)))
  }

  /** Adding `ns` to `mid` can only give `st` if `mid` is `st` without `ns`. */
  lemma OnlyRemovedComesBack(st: CacheState, mid: CacheState, ns: Namespace)
    requires Inv(st) && ns.Key() in st.namespaces && st.namespaces[ns.Key()] == ns && RemoveNs(st, ns).ok
    requires Inv(mid) && ns.Key() !in mid.namespaces && st.clusters.Keys <= mid.clusters.Keys && AddNs(mid, ns).st == st
    ensures mid == RemoveNs(st, ns).st && AddNs(mid, ns).ok
  {
    AddedFacts(mid, ns, st);
    RemovedFacts(st, ns, RemoveNs(st, ns).st);
    SameWithout(mid.clusters, st.clusters, RemoveNs(st, ns).st.clusters, ns.Key());
    assert RemoveNs(st, ns).st.namespaces == mid.namespaces;
  }

  lemma AddedFacts(mid: CacheState, ns: Namespace, st: CacheState)
    requires Inv(mid) && ns.Key() !in mid.namespaces && ns.Key() in st.namespaces && AddNs(mid, ns).st == st
    ensures AddNs(mid, ns).ok && SameBut(mid.clusters, st.clusters, ns.Key()) && KeyFree(mid.clusters, ns.Key())
    ensures AllBalanced(mid.clusters)
    ensures st == mid.(clusters := st.clusters, namespaces := mid.namespaces[ns.Key() := ns])
  {
    AddNsKeeps(mid, ns);
  }

  lemma RemovedFacts(st: CacheState, ns: Namespace, less: CacheState)
    requires Inv(st) && ns.Key() in st.namespaces && st.namespaces[ns.Key()] == ns && RemoveNs(st, ns) == Outcome(less, true)
    ensures SameBut(st.clusters, less.clusters, ns.Key()) && KeyFree(less.clusters, ns.Key()) && AllBalanced(less.clusters)
    ensures less == st.(clusters := less.clusters, namespaces := st.namespaces - {ns.Key()})
    ensures less.clusters.Keys == st.clusters.Keys
  {
    RemoveNsKeeps(st, ns);
    RemovedWhole(st, ns);
  }

  /** Two caches that differ from a third in one namespace only, and both lack it, are the same. */
  lemma SameWithout(ms: ClusterMap, cs: ClusterMap, ls: ClusterMap, key: NsKey)
    requires SameBut(ms, cs, key) && SameBut(cs, ls, key) && AllBalanced(ms) && AllBalanced(ls)
    requires KeyFree(ms, key) && KeyFree(ls, key) && cs.Keys <= ms.Keys && ls.Keys == cs.Keys
    ensures ms == ls
  {
    SameButTrans(ms, cs, ls, key);
    SameButClear(ms, ls, key);
    SameKeysNoShadows(ms, ls);
  }

  lemma ComesBackIff(st: CacheState, mid: CacheState, ns: Namespace)
    requires Inv(st) && ns.Key() in st.namespaces && st.namespaces[ns.Key()] == ns && RemoveNs(st, ns).ok
    requires Inv(mid) && ns.Key() !in mid.namespaces && st.clusters.Keys <= mid.clusters.Keys
    ensures AddNs(mid, ns).st == st <==> mid == RemoveNs(st, ns).st && Undoable(st.clusters, ns)
  {
    RemoveThenAddIff(st, ns);
    if AddNs(mid, ns).st == st {
      OnlyRemovedComesBack(st, mid, ns);
      assert AddNs(mid, ns) == Outcome(st, true);
    }
  }

  lemma {:induction false} AddBackGrows(st: CacheState, nss: seq<Namespace>, lo: nat, hi: nat, key: NsKey)
    requires lo <= hi <= |nss| && Inv(st) && key !in st.namespaces && forall j :: lo <= j < hi ==> nss[j].Key() != key
    ensures st.clusters.Keys <= AddBack(st, nss, lo, hi).clusters.Keys && key !in AddBack(st, nss, lo, hi).namespaces
    ensures Inv(AddBack(st, nss, lo, hi))
    decreases hi
  {
    if lo < hi {
      AddNsKeeps(st, nss[hi - 1]);
      AddBackGrows(AddNs(st, nss[hi - 1]).st, nss, lo, hi - 1, key);
    }
  }

  lemma {:induction false} RemoveEachGrows(st: CacheState, nss: seq<Namespace>, i: nat, key: NsKey)
    requires i <= |nss| && Inv(st) && CachedFrom(st, nss, i) && key !in st.namespaces
    ensures var r := RemoveEach(st, nss, i).st; Inv(r) && st.clusters.Keys <= r.clusters.Keys && key !in r.namespaces
    decreases |nss| - i
  {
    if i < |nss| {
      RemoveNsKeeps(st, nss[i]);
      var next := RemoveFirst(st, nss, i);
      if next.ok {
        RemoveEachGrows(next.st, nss, i + 1, key);
      }
    }
  }

  /** What the rollback has put back before it comes to namespace `i`. */
  lemma PutBackSoFar(st: CacheState, nss: seq<Namespace>, i: nat) returns (mid: CacheState)
    requires i < |nss| && Inv(st) && CachedFrom(st, nss, i) && RemoveNs(st, nss[i]).ok
    ensures var next, r := RemoveNs(st, nss[i]).st, RemoveEach(st, nss, i);
            && Inv(next) && CachedFrom(next, nss, i + 1) && r == RemoveEach(next, nss, i + 1)
            && mid == AddBack(r.st, nss, i + 1, r.done) && AddBack(r.st, nss, i, r.done) == AddNs(mid, nss[i]).st
            && Inv(mid) && nss[i].Key() !in mid.namespaces && st.clusters.Keys <= mid.clusters.Keys
  {
    var next := RemoveFirst(st, nss, i);
    var r := RemoveEach(next.st, nss, i + 1);
    RemoveEachGrows(next.st, nss, i + 1, nss[i].Key());
    AddBackGrows(r.st, nss, i + 1, r.done, nss[i].Key());
    mid := AddBack(r.st, nss, i + 1, r.done);
    AddBackSplit(r.st, nss, i, r.done);
  }

  /** The rollback from namespace `i` on ends where the removal began. */
  ghost predicate RollsBack(st: CacheState, nss: seq<Namespace>, i: nat)
    requires i <= |nss|
  {
    var r := RemoveEach(st, nss, i);
    AddBack(r.st, nss, i, r.done) == st
  }

  lemma RollsBackStops(st: CacheState, nss: seq<Namespace>, i: nat)
    requires i < |nss| && Inv(st) && CachedFrom(st, nss, i) && !RemoveNs(st, nss[i]).ok
    ensures RollsBack(st, nss, i) <==> UndoableAlong(st, nss, i)
  {
    FailedRemovalRestores(st, nss[i]);
    assert RemoveEach(st, nss, i) == TenantProgress(RemoveNs(st, nss[i]).st, i);
  }

  lemma RollsBackGoesOn(st: CacheState, nss: seq<Namespace>, i: nat)
    requires i < |nss| && Inv(st) && CachedFrom(st, nss, i) && RemoveNs(st, nss[i]).ok
    ensures RollsBack(st, nss, i) <==> RollsBack(RemoveNs(st, nss[i]).st, nss, i + 1) && Undoable(st.clusters, nss[i])
  {
    var mid := PutBackSoFar(st, nss, i);
    ComesBackIff(st, mid, nss[i]);
  }

  lemma RollsBackStep(st: CacheState, nss: seq<Namespace>, i: nat)
    requires i < |nss| && Inv(st) && CachedFrom(st, nss, i) && RemoveNs(st, nss[i]).ok
    requires var next := RemoveNs(st, nss[i]).st; RollsBack(next, nss, i + 1) <==> UndoableAlong(next, nss, i + 1)
    ensures RollsBack(st, nss, i) <==> UndoableAlong(st, nss, i)
  {
    RollsBackGoesOn(st, nss, i);
  }

  lemma {:induction false} RollbackIffAlong(st: CacheState, nss: seq<Namespace>, i: nat)
    requires i <= |nss| && Inv(st) && CachedFrom(st, nss, i)
    ensures RollsBack(st, nss, i) <==> UndoableAlong(st, nss, i)
    decreases |nss| - i
  {
    if i < |nss| {
      var next := RemoveNs(st, nss[i]);
      RemoveFirstKeeps(st, nss, i, next);
      if next.ok {
        RollbackIffAlong(next.st, nss, i + 1);
        RollsBackStep(st, nss, i);
      } else {
        RollsBackStops(st, nss, i);
      }
    }
  }

  /** A tenant removal that fails changes nothing exactly when each step along its order can be undone. */
  lemma TenantRemovalIff(st: CacheState, t: string, nss: seq<Namespace>)
    requires Inv(st) && Collects(st, t, nss) && !RemoveTenantOf(st, t, nss).ok
    ensures RemoveTenantOf(st, t, nss).st == st <==> UndoableAlong(st, nss, 0)
  {
    CollectedCached(st, t, nss);
    RollbackIffAlong(st, nss, 0);
  }
}
