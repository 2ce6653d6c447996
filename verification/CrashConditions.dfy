/**
 Exactly when no order of the placement maps makes the engine crash. With a quota smaller than the old and
 the requested placements together, which old placements become hints depends on that order.
 */
module CrashConditions {
  import opened SliceMath
  import opened CacheModel
  import opened Algorithm
  import opened NamespaceSnapshot
  import opened SliceRequests
  import opened PlanAcceptance
  import opened Engine

  // ---------- slices in a row ----------

  function Row(n: nat, s: SliceInfo): (r: seq<SliceInfo>)
    ensures |r| == n && forall t :: t in r ==> t == s
  {
    if n == 0 then [] else Row(n - 1, s) + [s]
  }

  lemma {:induction false} CountAppend(a: seq<SliceInfo>, b: seq<SliceInfo>, mandatory: string, hint: string)
    ensures Count(a + b, mandatory, hint) == Count(a, mandatory, hint) + Count(b, mandatory, hint)
  {
    if b == [] {
      assert a + b == a;
    } else {
      var n := |b| - 1;
      CountAppend(a, b[..n], mandatory, hint);
      assert (a + b)[..|a| + n] == a + b[..n];
    }
  }

  lemma {:induction false} CountRow(n: nat, s: SliceInfo, mandatory: string, hint: string)
    ensures Count(Row(n, s), mandatory, hint) == if Tags(s, mandatory, hint) == 1 then n else 0
  {
    if n > 0 {
      CountRow(n - 1, s, mandatory, hint);
      var less := Row(n - 1, s);
      assert (less + [s])[..n - 1] == less;
    }
  }

  /** `n` more slices of one kind, the counts followed. */
  lemma RowAdded(slices: seq<SliceInfo>, n: nat, s: SliceInfo)
    ensures Added(slices, slices + Row(n, s), n, s.mandatory, s.hint)
  {
    forall m, h
      ensures Count(slices + Row(n, s), m, h) == Count(slices, m, h) + if s.mandatory == m && s.hint == h then n else 0
    {
      CountAppend(slices, Row(n, s), m, h);
      CountRow(n, s, m, h);
    }
  }

  // ---------- an order for each loop ----------

  /** The first loop, when all its slices fit. */
  lemma {:induction false} NamedOrder(ns: Namespace, requested: map<string, int>, previous: map<string, int>, total: nat,
                                      todo: set<string>, before: seq<SliceInfo>, had: map<string, int>, toGo: int)
    returns (slices: seq<SliceInfo>, left: map<string, int>, remaining: int)
    requires NonNegative(requested) && NonNegative(previous) && todo <= requested.Keys
    requires NamedSoFar(requested, previous, total, todo, before, had, toGo)
    requires forall s :: s in before ==> WellTagged(ns, requested, previous, s) && Named(requested, s)
    ensures NamedSoFar(requested, previous, total, {}, slices, left, remaining)
    ensures forall s :: s in slices ==> WellTagged(ns, requested, previous, s) && Named(requested, s)
    decreases todo
  {
    if todo == {} {
      slices, left, remaining := before, had, toGo;
    } else {
      var c :| c in todo;
      var num := Min(requested[c], toGo);
      var more := before + Row(num, Blank(ns, c, ""));
      RowAdded(before, num, Blank(ns, c, ""));
      NamedStep(requested, previous, total, todo, c, before, had, toGo, more);
      slices, left, remaining := NamedOrder(ns, requested, previous, total, todo - {c}, more, Taken(had, c, num), toGo - num);
    }
  }

  /** The second loop, in any order from here. */
  lemma {:induction false} HintOrder(ns: Namespace, requested: map<string, int>, previous: map<string, int>,
                                     named: seq<SliceInfo>, left: map<string, int>, toGo: nat,
                                     todo: set<string>, before: seq<SliceInfo>, had: int)
    returns (slices: seq<SliceInfo>, remaining: int)
    requires NonNegative(left) && left.Keys == previous.Keys && todo <= left.Keys
    requires HintedSoFar(named, left, toGo, todo, before, had)
    requires forall s :: s in before ==> WellTagged(ns, requested, previous, s) && (s in named || Hinted(previous, s))
    ensures HintedSoFar(named, left, toGo, {}, slices, remaining)
    ensures forall s :: s in slices ==> WellTagged(ns, requested, previous, s) && (s in named || Hinted(previous, s))
    ensures forall s :: s in before ==> s in slices
    decreases todo
  {
    if todo == {} {
      slices, remaining := before, had;
    } else {
      var c :| c in todo;
      var more := HintTurn(ns, requested, previous, named, left, toGo, todo, before, had, c);
      slices, remaining := HintOrder(ns, requested, previous, named, left, toGo, todo - {c}, more, had - Min(left[c], had));
    }
  }

  lemma HintTurn(ns: Namespace, requested: map<string, int>, previous: map<string, int>,
                 named: seq<SliceInfo>, left: map<string, int>, toGo: nat,
                 todo: set<string>, before: seq<SliceInfo>, had: int, c: string)
    returns (more: seq<SliceInfo>)
    requires NonNegative(left) && left.Keys == previous.Keys && todo <= left.Keys && c in todo
    requires HintedSoFar(named, left, toGo, todo, before, had)
    requires forall s :: s in before ==> WellTagged(ns, requested, previous, s) && (s in named || Hinted(previous, s))
    ensures HintedSoFar(named, left, toGo, todo - {c}, more, had - Min(left[c], had))
    ensures forall s :: s in more ==> WellTagged(ns, requested, previous, s) && (s in named || Hinted(previous, s))
    ensures forall s :: s in before ==> s in more
    ensures left[c] > 0 && had > 0 ==> Blank(ns, "", c) in more
  {
    var num := Min(left[c], had);
    var s := Blank(ns, "", c);
    more := before + Row(num, s);
    RowAdded(before, num, s);
    HintedNext(named, left, toGo, todo, c, before, had, more);
    if num > 0 {
      assert Row(num, s)[0] in Row(num, s);
    }
  }

  /** The requested placements leave slices: then some order makes hints of what is left on cluster `c`. */
  lemma HintFirst(ns: Namespace, requested: map<string, int>, previous: map<string, int>, total: nat, c: string)
    returns (asked: seq<SliceInfo>)
    requires NonNegative(requested) && NonNegative(previous) && SumOver(requested, requested.Keys) < total
    requires var left := LeftOf(requested, previous, requested.Keys); c in left && left[c] > 0
    ensures forall s :: s in asked ==> WellTagged(ns, requested, previous, s)
    ensures Asked(asked, requested, previous, total) && Blank(ns, "", c) in asked
  {
    var named, toGo := AllNamed(ns, requested, previous, total);
    var left := LeftOf(requested, previous, requested.Keys);
    var hinted, rest := HintsFrom(ns, requested, previous, named, left, toGo, c);
    asked := hinted + Row(rest, Blank(ns, "", ""));
    RowAdded(hinted, rest, Blank(ns, "", ""));
    AskedInAll(requested, previous, total, named, left, toGo, hinted, rest, asked);
  }

  lemma AllNamed(ns: Namespace, requested: map<string, int>, previous: map<string, int>, total: nat)
    returns (named: seq<SliceInfo>, toGo: nat)
    requires NonNegative(requested) && NonNegative(previous) && SumOver(requested, requested.Keys) < total
    ensures NamedSoFar(requested, previous, total, {}, named, LeftOf(requested, previous, requested.Keys), toGo) && toGo > 0
    ensures forall s :: s in named ==> WellTagged(ns, requested, previous, s) && Named(requested, s)
  {
    assert LeftOf(requested, previous, {}) == previous && requested.Keys - requested.Keys == {};
    var left, remaining;
    named, left, remaining := NamedOrder(ns, requested, previous, total, requested.Keys, [], previous, total);
    assert requested.Keys - {} == requested.Keys;
    toGo := remaining;
  }

  /** The hints of cluster `c` first, then the others. */
  lemma HintsFrom(ns: Namespace, requested: map<string, int>, previous: map<string, int>,
                  named: seq<SliceInfo>, left: map<string, int>, toGo: nat, c: string)
    returns (hinted: seq<SliceInfo>, rest: nat)
    requires NonNegative(left) && left.Keys == previous.Keys && c in left && left[c] > 0 && toGo > 0 && NoHints(named)
    requires forall s :: s in named ==> WellTagged(ns, requested, previous, s)
    ensures HintedSoFar(named, left, toGo, {}, hinted, rest) && Blank(ns, "", c) in hinted
    ensures forall s :: s in hinted ==> WellTagged(ns, requested, previous, s) && (s in named || Hinted(previous, s))
  {
    assert left.Keys - left.Keys == {};
    assert HintedSoFar(named, left, toGo, left.Keys, named, toGo);
    var first := HintTurn(ns, requested, previous, named, left, toGo, left.Keys, named, toGo, c);
    var remaining;
    hinted, remaining := HintOrder(ns, requested, previous, named, left, toGo, left.Keys - {c}, first, toGo - Min(left[c], toGo));
    rest := remaining;
  }

  // ---------- the condition ----------

  ghost predicate NeverCrashes(st: CacheState, ns: Namespace) {
    forall asked, out, r :: PlansAs(st, ns, asked, out, r) ==> !r.Crashed?
  }

  /** When the requested placements use up the quota, every slice is mandatory and no hint is read. */
  lemma NamedNeverCrashes(st: CacheState, ns: Namespace, asked: seq<SliceInfo>, out: seq<SliceInfo>, r: Plan)
    requires var requested, previous := PlacementMap(ns.schedule), Previous(st, ns.Key());
             && NonNegative(requested) && NonNegative(previous)
             && SumOver(requested, requested.Keys) >= TotalSlices(LeastFit(ns.quota, ns.quotaSlice))
    requires PlansAs(st, ns, asked, out, r)
    ensures !r.Crashed?
  {
    if !SliceChanged(st, ns) && !Untraceable(st, ns.Key()) {
      forall s | s in asked
        ensures !Perilous(LiveUsage(Base(st, ns.Key())), s)
      {
        assert Named(PlacementMap(ns.schedule), s);
      }
    }
  }

  /** A hint that is read comes from what the requested placements leave of an old one. */
  lemma HintIsLeft(st: CacheState, ns: Namespace, asked: seq<SliceInfo>, s: SliceInfo)
    requires var requested, previous := PlacementMap(ns.schedule), Previous(st, ns.Key());
             && NonNegative(requested) && NonNegative(previous)
             && SumOver(requested, requested.Keys) <= TotalSlices(LeastFit(ns.quota, ns.quotaSlice))
    requires Requests(st, ns, asked) && s in asked && Perilous(LiveUsage(st.clusters), s)
    ensures StaleHint(st, ns, s.hint)
  {
    var requested, previous := PlacementMap(ns.schedule), Previous(st, ns.Key());
    assert WellTagged(ns, requested, previous, s);
    TaggedIff(asked, "", s.hint);
    assert Count(asked, "", s.hint) <= previous[s.hint] - Min(previous[s.hint], Count(asked, s.hint, ""));
  }

  lemma FreshNeverCrashes(st: CacheState, ns: Namespace, asked: seq<SliceInfo>, out: seq<SliceInfo>, r: Plan)
    requires var requested, previous := PlacementMap(ns.schedule), Previous(st, ns.Key());
             && NonNegative(requested) && NonNegative(previous)
             && SumOver(requested, requested.Keys) <= TotalSlices(LeastFit(ns.quota, ns.quotaSlice))
    requires PlansAs(st, ns, asked, out, r) && forall c :: !StaleHint(st, ns, c)
    ensures !r.Crashed?
  {
    LiveBase(st, ns.Key());
    if r.Crashed? {
      var s :| s in asked && Perilous(LiveUsage(Base(st, ns.Key())), s);
      HintIsLeft(st, ns, asked, s);
      assert false;
    }
  }

  /** The order that crashes. */
  lemma StaleCrashes(st: CacheState, ns: Namespace, c: string) returns (asked: seq<SliceInfo>)
    requires var requested := PlacementMap(ns.schedule);
             && NonNegative(requested) && NonNegative(Previous(st, ns.Key()))
             && SumOver(requested, requested.Keys) < TotalSlices(LeastFit(ns.quota, ns.quotaSlice))
    requires !SliceChanged(st, ns) && !Untraceable(st, ns.Key()) && StaleHint(st, ns, c)
    ensures PlansAs(st, ns, asked, [], Crashed)
  {
    LiveBase(st, ns.Key());
    asked := HintFirst(ns, PlacementMap(ns.schedule), Previous(st, ns.Key()), TotalSlices(LeastFit(ns.quota, ns.quotaSlice)), c);
    assert Perilous(LiveUsage(Base(st, ns.Key())), Blank(ns, "", c));
  }

  /**
   With non-negative placements, an unchanged slice and traceable old placements: the engine is safe in every
   order exactly when the requested placements use up the quota, or leave nothing of an old placement on a
   cluster outside the snapshot.
   */
  lemma NeverCrashesIff(st: CacheState, ns: Namespace)
    requires NonNegative(PlacementMap(ns.schedule)) && NonNegative(Previous(st, ns.Key()))
    requires !SliceChanged(st, ns) && !Untraceable(st, ns.Key())
    ensures var requested := PlacementMap(ns.schedule);
            NeverCrashes(st, ns) <==>
              || SumOver(requested, requested.Keys) >= TotalSlices(LeastFit(ns.quota, ns.quotaSlice))
              || forall c :: !StaleHint(st, ns, c)
  {
    var requested := PlacementMap(ns.schedule);
    if SumOver(requested, requested.Keys) >= TotalSlices(LeastFit(ns.quota, ns.quotaSlice)) {
      forall asked, out, r | PlansAs(st, ns, asked, out, r)
        ensures !r.Crashed?
      {
        NamedNeverCrashes(st, ns, asked, out, r);
      }
    } else if c :| StaleHint(st, ns, c) {
      var asked := StaleCrashes(st, ns, c);
    } else {
      forall asked, out, r | PlansAs(st, ns, asked, out, r)
        ensures !r.Crashed?
      {
        FreshNeverCrashes(st, ns, asked, out, r);
      }
    }
  }
}
