/** `GetSlicesToSchedule`: which slices the engine asks the algorithm to place. */
module SliceRequests {
  import opened Sums
  import opened Resources
  import opened SliceMath
  import opened CacheModel
  import opened Algorithm
  import opened NamespaceSnapshot

  function Min(a: int, b: int): int { if a < b then a else b }

  function Blank(ns: Namespace, mandatory: string, hint: string): SliceInfo {
    SliceInfo(ns.Key(), ns.quotaSlice, mandatory, hint, "", false)
  }

  function Tags(s: SliceInfo, mandatory: string, hint: string): nat {
    if s.mandatory == mandatory && s.hint == hint then 1 else 0
  }

  /** How many slices carry exactly this mandatory cluster and this hint. */
  function Count(slices: seq<SliceInfo>, mandatory: string, hint: string): nat {
    if slices == [] then 0
    else Count(slices[..|slices| - 1], mandatory, hint) + Tags(slices[|slices| - 1], mandatory, hint)
  }

  /** The slices number `total` when no placement is negative; then the counts below hold as well. */
  ghost predicate NonNegative(m: map<string, int>) {
    forall c :: c in m ==> m[c] >= 0
  }

  predicate WellTagged(ns: Namespace, requested: map<string, int>, previous: map<string, int>, s: SliceInfo) {
    && s == Blank(ns, s.mandatory, s.hint)
    && (s.mandatory != "" ==> s.mandatory in requested && s.hint == "")
    && (s.hint != "" ==> s.hint in previous)
  }

  function TotalSlices(need: Option<nat>): nat {
    if need.Some? then need.value else 0
  }

  // ---------- sums over placements ----------

  function Only(m: map<string, int>, keys: set<string>): map<string, int>
    requires keys <= m.Keys
  {
    map c | c in keys :: m[c]
  }

  ghost function SumOver(m: map<string, int>, keys: set<string>): int
    requires keys <= m.Keys
  {
    Sum(Only(m, keys))
  }

  lemma SumOverSplit(m: map<string, int>, keys: set<string>, c: string)
    requires keys <= m.Keys && c in keys
    ensures SumOver(m, keys) == m[c] + SumOver(m, keys - {c})
  {
    SumSplit(Only(m, keys), c);
    assert Only(m, keys) - {c} == Only(m, keys - {c});
  }

  /** With no negative entry a sum of nothing is a sum of zeroes. */
  lemma SumOverBounds(m: map<string, int>, keys: set<string>)
    requires keys <= m.Keys && NonNegative(m)
    ensures SumOver(m, keys) >= 0
    ensures SumOver(m, keys) == 0 ==> forall c :: c in keys ==> m[c] == 0
  {
    SumBounds(Only(m, keys));
    assert forall c :: c in keys ==> Only(m, keys)[c] == m[c];
  }

  function Max0(n: int): nat { if n < 0 then 0 else n }

  /** Old placements minus the requested ones in `keys`, cluster by cluster. */
  function LeftOf(requested: map<string, int>, previous: map<string, int>, keys: set<string>): map<string, int> {
    map c | c in previous :: previous[c] - Min(previous[c], if c in keys && c in requested then requested[c] else 0)
  }

  /** `Repeat` appends `n` equal slices, none when `n` is not positive. */
  method Repeat(slices: seq<SliceInfo>, n: int, s: SliceInfo) returns (r: seq<SliceInfo>)
    ensures forall t :: t in r ==> t in slices || t == s
    ensures Added(slices, r, n, s.mandatory, s.hint)
    ensures n <= 0 ==> r == slices
  {
    r := slices;
    for i := 0 to if n > 0 then n else 0
      invariant |r| == |slices| + i && (i == 0 ==> r == slices)
      invariant forall t :: t in r ==> t in slices || t == s
      invariant forall m, h :: Count(r, m, h) == Count(slices, m, h) + if s.mandatory == m && s.hint == h then i else 0
    {
      var more := r + [s];
      assert more[..|r|] == r;
      r := more;
    }
  }

  /** State between the two loops: what was asked for by name, and what is left of the old placements. */
  ghost predicate MandatoryDone(slices: seq<SliceInfo>, requested: map<string, int>, previous: map<string, int>,
                                left: map<string, int>, todo: set<string>)
  {
    && left.Keys == previous.Keys
    && (forall c :: c in left ==> left[c] >= 0)
    && (forall c :: c != "" && c in requested && c !in todo ==> Count(slices, c, "") <= requested[c])
    && (forall c :: c != "" && (c !in requested || c in todo) ==> Count(slices, c, "") == 0)
    && (forall c :: c != "" && c in previous ==> left[c] == previous[c] - Min(previous[c], Count(slices, c, "")))
    && (forall c :: c != "" ==> Count(slices, "", c) == 0)
  }

  function Taken(left: map<string, int>, c: string, num: int): map<string, int> {
    if c in left then left[c := left[c] - Min(left[c], num)] else left
  }

  lemma MandatoryStep(slices: seq<SliceInfo>, more: seq<SliceInfo>, requested: map<string, int>,
                      previous: map<string, int>, left: map<string, int>, todo: set<string>, c: string, num: nat)
    requires MandatoryDone(slices, requested, previous, left, todo)
    requires c in todo && c in requested && num <= requested[c]
    requires Added(slices, more, num, c, "")
    ensures MandatoryDone(more, requested, previous, Taken(left, c, num), todo - {c})
  {
    var next := Taken(left, c, num);
    forall d | d != "" && d in previous
      ensures next[d] == previous[d] - Min(previous[d], Count(more, d, ""))
    {
      assert Count(more, d, "") == Count(slices, d, "") + if d == c then num else 0;
    }
  }

  /** A slice of the first loop. */
  predicate Named(requested: map<string, int>, s: SliceInfo) {
    s.hint == "" && s.mandatory in requested
  }

  /** A slice of the second loop. */
  predicate Hinted(previous: map<string, int>, s: SliceInfo) {
    s.mandatory == "" && s.hint in previous
  }

  /** `more` is `slices` with `n` slices of one kind added. */
  ghost predicate Added(slices: seq<SliceInfo>, more: seq<SliceInfo>, n: int, mandatory: string, hint: string) {
    && |more| == |slices| + Max0(n)
    && forall m, h :: Count(more, m, h) == Count(slices, m, h) + if mandatory == m && hint == h then Max0(n) else 0
  }

  /** The requested placements on one cluster, as far as slices remain; old placements there are used up first. */
  method TakeOne(ns: Namespace, requested: map<string, int>, previous: map<string, int>,
                 before: seq<SliceInfo>, had: map<string, int>, toGo: int, c: string)
    returns (slices: seq<SliceInfo>, left: map<string, int>, remaining: int)
    requires c in requested
    requires forall s :: s in before ==> WellTagged(ns, requested, previous, s) && Named(requested, s)
    ensures forall s :: s in slices ==> WellTagged(ns, requested, previous, s) && Named(requested, s)
    ensures var num := Min(requested[c], toGo);
            remaining == toGo - num && left == Taken(had, c, num) && Added(before, slices, num, c, "")
  {
    var mandatory := Min(requested[c], toGo);
    left := had;
    if c in left {
      left := left[c := left[c] - Min(left[c], mandatory)];
    }
    slices := Repeat(before, mandatory, Blank(ns, c, ""));
    remaining := toGo - mandatory;
  }

  /** What one more cluster does to the slices that remain and to the old placements that are left. */
  lemma TakenStep(requested: map<string, int>, previous: map<string, int>, todo: set<string>, c: string, total: nat)
    requires c in todo && todo <= requested.Keys && NonNegative(requested) && NonNegative(previous)
    ensures var before := Max0(total - SumOver(requested, requested.Keys) + SumOver(requested, todo));
            var after := Max0(total - SumOver(requested, requested.Keys) + SumOver(requested, todo - {c}));
            && after == before - Min(requested[c], before)
            && (SumOver(requested, requested.Keys) <= total ==>
                  && requested[c] <= before
                  && Taken(LeftOf(requested, previous, requested.Keys - todo), c, requested[c])
                     == LeftOf(requested, previous, requested.Keys - (todo - {c})))
  {
    SumOverSplit(requested, todo, c);
    SumOverBounds(requested, todo - {c});
    LeftStep(requested, previous, todo, c);
  }

  lemma LeftStep(requested: map<string, int>, previous: map<string, int>, todo: set<string>, c: string)
    requires c in todo && todo <= requested.Keys && NonNegative(requested) && NonNegative(previous)
    ensures Taken(LeftOf(requested, previous, requested.Keys - todo), c, requested[c])
            == LeftOf(requested, previous, requested.Keys - (todo - {c}))
  {
    var before, after := requested.Keys - todo, requested.Keys - (todo - {c});
    assert forall d :: d != c ==> (d in before <==> d in after);
  }

  /** Nothing remains, yet everything fitted: the clusters not looked at asked for nothing. */
  lemma TakenStop(requested: map<string, int>, previous: map<string, int>, todo: set<string>, total: nat)
    requires todo <= requested.Keys && NonNegative(requested) && NonNegative(previous)
    requires todo == {} || total - SumOver(requested, requested.Keys) + SumOver(requested, todo) <= 0
    ensures SumOver(requested, requested.Keys) <= total ==>
              && SumOver(requested, todo) == 0
              && (forall c :: c in todo ==> requested[c] == 0)
              && LeftOf(requested, previous, requested.Keys - todo) == LeftOf(requested, previous, requested.Keys)
  {
    SumOverBounds(requested, todo);
  }

  /** The first loop with the clusters in `todo` still to come. */
  ghost predicate NamedSoFar(requested: map<string, int>, previous: map<string, int>, total: nat, todo: set<string>,
                             slices: seq<SliceInfo>, left: map<string, int>, remaining: int)
    requires todo <= requested.Keys
  {
    && remaining == total - |slices| == Max0(total - SumOver(requested, requested.Keys) + SumOver(requested, todo))
    && MandatoryDone(slices, requested, previous, left, todo)
    && (SumOver(requested, requested.Keys) <= total ==>
          left == LeftOf(requested, previous, requested.Keys - todo) && ExactNamed(requested, requested.Keys - todo, slices))
  }

  ghost predicate ExactNamed(requested: map<string, int>, keys: set<string>, slices: seq<SliceInfo>) {
    forall c :: c in requested && c in keys && c != "" ==> Count(slices, c, "") == requested[c]
  }

  lemma ExactStep(requested: map<string, int>, previous: map<string, int>, todo: set<string>, c: string,
                  before: seq<SliceInfo>, had: map<string, int>, slices: seq<SliceInfo>)
    requires c in todo && todo <= requested.Keys && requested[c] >= 0 && MandatoryDone(before, requested, previous, had, todo)
    requires ExactNamed(requested, requested.Keys - todo, before) && Added(before, slices, requested[c], c, "")
    ensures ExactNamed(requested, requested.Keys - (todo - {c}), slices)
  {
    forall d | d in requested && d in requested.Keys - (todo - {c}) && d != ""
      ensures Count(slices, d, "") == requested[d]
    {
      if d == c {
        assert Count(before, c, "") == 0;
      }
    }
  }

  lemma NamedStep(requested: map<string, int>, previous: map<string, int>, total: nat, todo: set<string>, c: string,
                  before: seq<SliceInfo>, had: map<string, int>, toGo: int, slices: seq<SliceInfo>)
    requires NonNegative(requested) && NonNegative(previous) && todo <= requested.Keys && c in todo
    requires NamedSoFar(requested, previous, total, todo, before, had, toGo)
    requires Added(before, slices, Min(requested[c], toGo), c, "")
    ensures var num := Min(requested[c], toGo);
            NamedSoFar(requested, previous, total, todo - {c}, slices, Taken(had, c, num), toGo - num)
  {
    TakenStep(requested, previous, todo, c, total);
    MandatoryStep(before, slices, requested, previous, had, todo, c, Min(requested[c], toGo));
    if SumOver(requested, requested.Keys) <= total {
      ExactStep(requested, previous, todo, c, before, had, slices);
    }
  }

  lemma NamedEnd(requested: map<string, int>, previous: map<string, int>, total: nat, todo: set<string>,
                 slices: seq<SliceInfo>, left: map<string, int>, remaining: int)
    requires NonNegative(requested) && NonNegative(previous) && todo <= requested.Keys
    requires NamedSoFar(requested, previous, total, todo, slices, left, remaining) && (todo == {} || remaining == 0)
    ensures NamedSoFar(requested, previous, total, {}, slices, left, remaining)
  {
    SumOverBounds(requested, todo);
    TakenStop(requested, previous, todo, total);
    MandatoryStop(slices, requested, previous, left);
    assert requested.Keys - {} == requested.Keys;
  }

  method TakeMandatory(ns: Namespace, requested: map<string, int>, previous: map<string, int>, total: nat)
    returns (slices: seq<SliceInfo>, left: map<string, int>, remaining: int)
    ensures forall s :: s in slices ==> WellTagged(ns, requested, previous, s) && Named(requested, s)
    ensures left.Keys == previous.Keys
    ensures NonNegative(requested) && NonNegative(previous) ==>
              NamedSoFar(requested, previous, total, {}, slices, left, remaining)
  {
    ghost var plain := NonNegative(requested) && NonNegative(previous);
    slices, left, remaining := [], previous, total;
    var todo := requested.Keys;
    assert plain ==> LeftOf(requested, previous, {}) == previous;
    assert requested.Keys - requested.Keys == {};
    while todo != {}
      invariant todo <= requested.Keys && left.Keys == previous.Keys
      invariant forall s :: s in slices ==> WellTagged(ns, requested, previous, s) && Named(requested, s)
      invariant plain ==> NamedSoFar(requested, previous, total, todo, slices, left, remaining)
      decreases todo
    {
      if remaining == 0 {
        break;
      }
      var c :| c in todo;
      ghost var before, had, toGo := slices, left, remaining;
      slices, left, remaining := TakeOne(ns, requested, previous, slices, left, remaining, c);
      if plain {
        NamedStep(requested, previous, total, todo, c, before, had, toGo, slices);
      }
      todo := todo - {c};
    }
    if plain {
      NamedEnd(requested, previous, total, todo, slices, left, remaining);
    }
  }

  lemma MandatoryStop(slices: seq<SliceInfo>, requested: map<string, int>, previous: map<string, int>, left: map<string, int>)
    requires NonNegative(requested) && exists todo :: MandatoryDone(slices, requested, previous, left, todo)
    ensures MandatoryDone(slices, requested, previous, left, {})
  {
  }

  /** What one more hint does to the slices that remain. */
  lemma HintedStep(left: map<string, int>, todo: set<string>, c: string, toGo: nat)
    requires c in todo && todo <= left.Keys && NonNegative(left)
    ensures var before := Max0(toGo - SumOver(left, left.Keys) + SumOver(left, todo));
            var after := Max0(toGo - SumOver(left, left.Keys) + SumOver(left, todo - {c}));
            && after == before - Min(left[c], before)
            && (SumOver(left, left.Keys) <= toGo ==> left[c] <= before)
  {
    SumOverSplit(left, todo, c);
    SumOverBounds(left, todo - {c});
  }

  /** The second loop with the clusters in `todo` still to come. */
  ghost predicate HintedSoFar(before: seq<SliceInfo>, left: map<string, int>, toGo: nat, todo: set<string>,
                              slices: seq<SliceInfo>, remaining: int)
    requires todo <= left.Keys
  {
    && |slices| + remaining == |before| + toGo
    && remaining == Max0(toGo - SumOver(left, left.Keys) + SumOver(left, todo))
    && (forall c :: c != "" ==> Count(slices, c, "") == Count(before, c, ""))
    && (forall c :: c != "" ==> Count(slices, "", c) <= if c in left && c !in todo then left[c] else 0)
    && (SumOver(left, left.Keys) <= toGo ==> ExactHinted(left, left.Keys - todo, slices))
  }

  ghost predicate ExactHinted(left: map<string, int>, keys: set<string>, slices: seq<SliceInfo>) {
    forall c :: c in left && c in keys && c != "" ==> Count(slices, "", c) == left[c]
  }

  lemma HintedNext(before: seq<SliceInfo>, left: map<string, int>, toGo: nat, todo: set<string>, c: string,
                   slices: seq<SliceInfo>, remaining: int, more: seq<SliceInfo>)
    requires todo <= left.Keys && c in todo && NonNegative(left) && HintedSoFar(before, left, toGo, todo, slices, remaining)
    requires Added(slices, more, Min(left[c], remaining), "", c)
    ensures HintedSoFar(before, left, toGo, todo - {c}, more, remaining - Min(left[c], remaining))
  {
    HintedStep(left, todo, c, toGo);
    if SumOver(left, left.Keys) <= toGo {
      forall d | d in left && d in left.Keys - (todo - {c}) && d != ""
        ensures Count(more, "", d) == left[d]
      {
        assert d == c ==> Count(slices, "", c) == 0;
      }
    }
  }

  lemma HintedEnd(before: seq<SliceInfo>, left: map<string, int>, toGo: nat, todo: set<string>,
                  slices: seq<SliceInfo>, remaining: int)
    requires todo <= left.Keys && NonNegative(left) && HintedSoFar(before, left, toGo, todo, slices, remaining)
    requires todo == {} || remaining == 0
    ensures HintedSoFar(before, left, toGo, {}, slices, remaining)
  {
    SumOverBounds(left, todo);
    assert left.Keys - {} == left.Keys;
  }

  method TakeHints(ns: Namespace, requested: map<string, int>, previous: map<string, int>,
                   before: seq<SliceInfo>, left: map<string, int>, toGo: int)
    returns (slices: seq<SliceInfo>, remaining: int)
    requires forall s :: s in before ==> WellTagged(ns, requested, previous, s)
    requires left.Keys == previous.Keys
    ensures forall s :: s in slices ==> WellTagged(ns, requested, previous, s) && (s in before || Hinted(previous, s))
    ensures toGo == 0 ==> slices == before && remaining == 0
    ensures NonNegative(left) && toGo >= 0 && NoHints(before) ==> HintedSoFar(before, left, toGo, {}, slices, remaining)
  {
    ghost var plain := NonNegative(left) && toGo >= 0 && NoHints(before);
    slices, remaining := before, toGo;
    var todo := left.Keys;
    while todo != {}
      invariant todo <= left.Keys
      invariant forall s :: s in slices ==> WellTagged(ns, requested, previous, s) && (s in before || Hinted(previous, s))
      invariant toGo == 0 ==> slices == before && remaining == 0
      invariant plain ==> HintedSoFar(before, left, toGo, todo, slices, remaining)
      decreases todo
    {
      if remaining == 0 {
        break;
      }
      var c :| c in todo;
      var hinted := Min(left[c], remaining);
      var more := Repeat(slices, hinted, Blank(ns, "", c));
      if plain {
        HintedNext(before, left, toGo, todo, c, slices, remaining, more);
      }
      slices, remaining, todo := more, remaining - hinted, todo - {c};
    }
    if plain {
      HintedEnd(before, left, toGo, todo, slices, remaining);
    }
  }

  ghost predicate NoHints(slices: seq<SliceInfo>) {
    forall c :: c != "" ==> Count(slices, "", c) == 0
  }

  /** The slices asked for, when no placement is negative: counted exactly as far as the quota reaches. */
  ghost predicate Asked(slices: seq<SliceInfo>, requested: map<string, int>, previous: map<string, int>, total: nat) {
    var named, left := SumOver(requested, requested.Keys), LeftOf(requested, previous, requested.Keys);
    && |slices| == total
    && (forall c :: c != "" ==> Count(slices, c, "") <= if c in requested then requested[c] else 0)
    && (forall c :: c != "" ==>
          Count(slices, "", c) <= if c in previous then previous[c] - Min(previous[c], Count(slices, c, "")) else 0)
    && (named >= total ==> forall s :: s in slices ==> Named(requested, s))
    && (named <= total ==> forall c :: c != "" && c in requested ==> Count(slices, c, "") == requested[c])
    && (named <= total <= named + SumOver(left, left.Keys) ==>
          forall s :: s in slices ==> Named(requested, s) || Hinted(previous, s))
    && (named + SumOver(left, left.Keys) <= total ==> forall c :: c != "" && c in previous ==> Count(slices, "", c) == left[c])
  }

  /**
   Mandatory slices first, then old placements as hints, then free ones. With non-negative placements
   the slices number what the quota asks for. Each requested placement becomes as many mandatory slices
   if the quota has room for all of them, and otherwise there are only mandatory slices; what mandatory
   slices leave of the old placements becomes hints under the same rule.
   */
  method GetSlicesToSchedule(ns: Namespace, previous: map<string, int>) returns (slices: seq<SliceInfo>)
    ensures var requested := PlacementMap(ns.schedule);
            && (forall s :: s in slices ==> WellTagged(ns, requested, previous, s))
            && (forall s :: s in slices ==> s.ns == ns.Key() && s.request == ns.quotaSlice && s.result == "" && !s.failed)
            && (NonNegative(requested) && NonNegative(previous) ==>
                  Asked(slices, requested, previous, TotalSlices(LeastFit(ns.quota, ns.quotaSlice))))
  {
    var requested := GetPlacementMap(ns.schedule);
    var need := GetLeastFitSliceNum(ns.quota, ns.quotaSlice);
    var total := TotalSlices(need);
    var named, left, toGo := TakeMandatory(ns, requested, previous, total);
    var hinted, rest := TakeHints(ns, requested, previous, named, left, toGo);
    slices := Repeat(hinted, rest, Blank(ns, "", ""));
    if NonNegative(requested) && NonNegative(previous) {
      AskedInAll(requested, previous, total, named, left, toGo, hinted, rest, slices);
    }
  }

  lemma AskedInAll(requested: map<string, int>, previous: map<string, int>, total: nat, named: seq<SliceInfo>,
                   left: map<string, int>, toGo: int, hinted: seq<SliceInfo>, rest: int, slices: seq<SliceInfo>)
    requires NonNegative(requested) && NonNegative(previous) && NamedSoFar(requested, previous, total, {}, named, left, toGo)
    requires HintedSoFar(named, left, toGo, {}, hinted, rest) && (toGo == 0 ==> hinted == named)
    requires Added(hinted, slices, rest, "", "") && (rest <= 0 ==> slices == hinted)
    requires forall s :: s in named ==> Named(requested, s)
    requires forall s :: s in hinted ==> s in named || Hinted(previous, s)
    ensures Asked(slices, requested, previous, total)
  {
    assert forall c :: c != "" ==> Count(slices, c, "") == Count(named, c, "") && Count(slices, "", c) == Count(hinted, "", c);
    NamedInAll(requested, previous, total, named, left, toGo);
    HintedInAll(named, left, toGo, hinted, rest);
    var all := LeftOf(requested, previous, requested.Keys);
    SumOverBounds(all, all.Keys);
  }

  /** What the first loop leaves behind, read off the sums. */
  lemma NamedInAll(requested: map<string, int>, previous: map<string, int>, total: nat, named: seq<SliceInfo>,
                   left: map<string, int>, toGo: int)
    requires NonNegative(requested) && NonNegative(previous) && NamedSoFar(requested, previous, total, {}, named, left, toGo)
    ensures toGo == Max0(total - SumOver(requested, requested.Keys)) && |named| + toGo == total
    ensures SumOver(requested, requested.Keys) <= total ==>
              && left == LeftOf(requested, previous, requested.Keys)
              && forall c :: c in requested && c != "" ==> Count(named, c, "") == requested[c]
  {
    assert requested.Keys - {} == requested.Keys && Only(requested, {}) == map[];
  }

  lemma HintedInAll(named: seq<SliceInfo>, left: map<string, int>, toGo: nat, hinted: seq<SliceInfo>, rest: int)
    requires HintedSoFar(named, left, toGo, {}, hinted, rest)
    ensures rest == Max0(toGo - SumOver(left, left.Keys))
    ensures SumOver(left, left.Keys) <= toGo ==> forall c :: c in left && c != "" ==> Count(hinted, "", c) == left[c]
  {
    assert left.Keys - {} == left.Keys && Only(left, {}) == map[];
  }
}
