/**
 The two condition checks do not fight: in every run, once a downward repair has been followed by an
 upward one, neither check asks for anything more, whatever order the appends took.
 */
module PodConditionSync {
  import opened Directions
  import opened PodConditions

  /** Each tenant gate has at most one condition in the list. */
  ghost predicate OneEach(cs: seq<Condition>, gates: set<string>) {
    forall i, j :: 0 <= i < j < |cs| && cs[i].kind in gates ==> cs[i].kind != cs[j].kind
  }

  // ---------- closed forms of the loops ----------

  function Over(cs: seq<Condition>, m: Pending): (r: seq<Condition>)
    ensures |r| == |cs|
  {
    if cs == [] then []
    else
      var c := cs[|cs| - 1];
      Over(cs[..|cs| - 1], m) + [if c.kind in m then m[c.kind] else c]
  }

  /** What of the super pod's list is visible to the tenant. */
  function Kept(cs: seq<Condition>, gates: Gates): seq<Condition> {
    if cs == [] then []
    else
      var c := cs[|cs| - 1];
      Kept(cs[..|cs| - 1], gates) + if c.kind in gates.super - gates.tenant then [] else [c]
  }

  lemma KindsSplit(cs: seq<Condition>)
    requires cs != []
    ensures Kinds(cs) == Kinds(cs[..|cs| - 1]) + {cs[|cs| - 1].kind}
  {
    var n := |cs| - 1;
    assert forall i :: 0 <= i < n ==> cs[..n][i] == cs[i];
  }

  lemma LastIsNew(cs: seq<Condition>, gates: set<string>)
    requires cs != [] && OneEach(cs, gates)
    ensures OneEach(cs[..|cs| - 1], gates)
    ensures cs[|cs| - 1].kind in gates ==> cs[|cs| - 1].kind !in Kinds(cs[..|cs| - 1])
  {
    var n := |cs| - 1;
    assert forall i :: 0 <= i < n ==> cs[..n][i] == cs[i];
  }

  lemma {:induction false} DownWalkForm(cs: seq<Condition>, gates: set<string>, m: Pending)
    requires OneEach(cs, gates) && WellFiled(m, gates)
    ensures DownWalk(cs, gates, m) == Walk(Over(cs, m), m - Kinds(cs))
  {
    if cs != [] {
      LastIsNew(cs, gates);
      KindsSplit(cs);
      DownWalkForm(cs[..|cs| - 1], gates, m);
    }
  }

  lemma OverAppend(cs: seq<Condition>, c: Condition, m: Pending)
    ensures Over(cs + [c], m) == Over(cs, m) + [if c.kind in m then m[c.kind] else c]
  {
    assert (cs + [c])[..|cs|] == cs;
  }

  lemma {:induction false} UpWalkForm(cs: seq<Condition>, gates: Gates, m: Pending)
    requires OneEach(cs, gates.tenant) && WellFiled(m, gates.tenant)
    ensures UpWalk(cs, gates, m) == Walk(Over(Kept(cs, gates), m), m - Kinds(cs))
  {
    if cs != [] {
      var n := |cs| - 1;
      LastIsNew(cs, gates.tenant);
      KindsSplit(cs);
      UpWalkForm(cs[..n], gates, m);
      OverAppend(Kept(cs[..n], gates), cs[n], m);
      if cs[n].kind !in gates.tenant {
        assert m - Kinds(cs) == m - Kinds(cs[..n]);
      }
      if cs[n].kind in gates.super - gates.tenant {
        assert Kept(cs, gates) == Kept(cs[..n], gates);
      }
    }
  }

  lemma {:induction false} OverAt(cs: seq<Condition>, m: Pending, i: nat)
    requires i < |cs|
    ensures Over(cs, m)[i] == if cs[i].kind in m then m[cs[i].kind] else cs[i]
  {
    if i < |cs| - 1 {
      OverAt(cs[..|cs| - 1], m, i);
    }
  }

  /** Overwriting changes no kind. */
  lemma OverKinds(cs: seq<Condition>, m: Pending, gates: set<string>)
    requires WellFiled(m, gates)
    ensures forall i :: 0 <= i < |cs| ==> Over(cs, m)[i].kind == cs[i].kind
    ensures Kinds(Over(cs, m)) == Kinds(cs)
  {
    forall i | 0 <= i < |cs|
      ensures Over(cs, m)[i].kind == cs[i].kind
    {
      OverAt(cs, m, i);
    }
    assert forall k :: k in Kinds(cs) ==> exists i :: 0 <= i < |cs| && cs[i].kind == k && Over(cs, m)[i].kind == k;
  }

  lemma OverOneEach(cs: seq<Condition>, m: Pending, gates: set<string>)
    requires WellFiled(m, gates) && OneEach(cs, gates)
    ensures OneEach(Over(cs, m), gates)
  {
    OverKinds(cs, m, gates);
  }

  /** Every listed condition of a pending kind is the pending one. */
  ghost predicate Agrees(cs: seq<Condition>, m: Pending) {
    forall i :: 0 <= i < |cs| && cs[i].kind in m ==> cs[i] == m[cs[i].kind]
  }

  lemma OverAgrees(cs: seq<Condition>, m: Pending)
    requires Agrees(cs, m)
    ensures Over(cs, m) == cs
  {
    forall i | 0 <= i < |cs|
      ensures Over(cs, m)[i] == cs[i]
    {
      OverAt(cs, m, i);
    }
  }

  lemma OverMakesAgree(cs: seq<Condition>, m: Pending, gates: set<string>)
    requires WellFiled(m, gates)
    ensures Agrees(Over(cs, m), m)
  {
    forall i | 0 <= i < |cs| && Over(cs, m)[i].kind in m
      ensures Over(cs, m)[i] == m[Over(cs, m)[i].kind]
    {
      OverAt(cs, m, i);
    }
  }

  lemma {:induction false} KeptContents(cs: seq<Condition>, gates: Gates)
    ensures forall c :: c in Kept(cs, gates) <==> c in cs && c.kind !in gates.super - gates.tenant
  {
    if cs != [] {
      var n := |cs| - 1;
      KeptContents(cs[..n], gates);
      assert cs == cs[..n] + [cs[n]];
    }
  }

  lemma {:induction false} KeptOneEach(cs: seq<Condition>, gates: Gates)
    requires OneEach(cs, gates.tenant)
    ensures OneEach(Kept(cs, gates), gates.tenant)
  {
    if cs != [] {
      var n := |cs| - 1;
      LastIsNew(cs, gates.tenant);
      KeptOneEach(cs[..n], gates);
      KeptContents(cs[..n], gates);
      var before := Kept(cs[..n], gates);
      assert forall i :: 0 <= i < |before| ==> before[i] in cs[..n];
      assert forall i :: 0 <= i < |before| ==> before[i].kind in Kinds(cs[..n]);
    }
  }

  // ---------- lists completed with what was pending ----------

  lemma TailAgrees(out: seq<Condition>, tail: seq<Condition>, m: Pending, left: Pending)
    requires Agrees(out, m) && Enumerates(tail, left)
    requires forall k :: k in left ==> k in m && left[k] == m[k]
    ensures Agrees(out + tail, m)
  {
  }

  lemma TailOneEach(out: seq<Condition>, tail: seq<Condition>, left: Pending, gates: set<string>)
    requires OneEach(out, gates) && Enumerates(tail, left)
    requires forall k :: k in left ==> k !in Kinds(out)
    ensures OneEach(out + tail, gates)
  {
    forall i, j | 0 <= i < j < |out + tail| && (out + tail)[i].kind in gates
      ensures (out + tail)[i].kind != (out + tail)[j].kind
    {
      if i < |out| <= j {
        assert out[i].kind in Kinds(out);
        assert tail[j - |out|].kind in left;
      }
    }
  }

  lemma KindsPlus(a: seq<Condition>, b: seq<Condition>)
    ensures Kinds(a + b) == Kinds(a) + Kinds(b)
  {
    forall k
      ensures k in Kinds(a + b) <==> k in Kinds(a) || k in Kinds(b)
    {
      if i :| 0 <= i < |a| && a[i].kind == k {
        assert (a + b)[i].kind == k;
      } else if i :| 0 <= i < |b| && b[i].kind == k {
        assert (a + b)[|a| + i].kind == k;
      }
    }
  }

  /** A list that agrees with `m`, completed with the part of `m` it does not mention. */
  lemma Completed(out: seq<Condition>, m: Pending, left: Pending, list: seq<Condition>, gates: set<string>)
    requires Completes(Walk(out, left), list) && Agrees(out, m) && OneEach(out, gates)
    requires forall k :: k in left ==> k in m && left[k] == m[k] && k !in Kinds(out)
    ensures Agrees(list, m) && OneEach(list, gates) && Kinds(list) == Kinds(out) + left.Keys
  {
    var tail := list[|out|..];
    assert list == out + tail;
    TailAgrees(out, tail, m, left);
    TailOneEach(out, tail, left, gates);
    KindsPlus(out, tail);
  }

  lemma NoKinds(cs: seq<Condition>)
    ensures Kinds(cs) == {} <==> cs == []
  {
    if cs != [] {
      assert cs[0].kind in Kinds(cs);
    }
  }

  /** Nothing pending, nothing appended. */
  lemma NothingLeft(w: Walk, out: seq<Condition>)
    requires Completes(w, out) && w.left == map[]
    ensures out == w.out
  {
    NoKinds(out[|w.out|..]);
  }

  // ---------- the phases of a run ----------

  /** The super pod holds the tenant's value of every gate the tenant reports. */
  ghost predicate Pushed(p: PodStatus, v: PodStatus, gates: Gates) {
    var m := GateMap(v.conditions, gates.tenant);
    Agrees(p.conditions, m) && m.Keys <= Kinds(p.conditions)
  }

  /** The tenant pod shows the super pod's status without the gates of the super pod alone. */
  ghost predicate Settled(p: PodStatus, v: PodStatus, gates: Gates) {
    v == PodStatus(p.rest, Kept(p.conditions, gates))
  }

  lemma FiledGates(v: PodStatus, gates: Gates)
    ensures WellFiled(GateMap(v.conditions, gates.tenant), gates.tenant)
  {
    GateMapKinds(v.conditions, gates.tenant);
  }

  lemma DownPushes(p: PodStatus, v: PodStatus, gates: Gates, q: PodStatus)
    requires OneEach(p.conditions, gates.tenant) && DownRepair(p, v, gates, q)
    ensures Pushed(q, v, gates) && OneEach(q.conditions, gates.tenant)
  {
    var m, cs := GateMap(v.conditions, gates.tenant), p.conditions;
    FiledGates(v, gates);
    DownWalkForm(cs, gates.tenant, m);
    OverKinds(cs, m, gates.tenant);
    OverOneEach(cs, m, gates.tenant);
    OverMakesAgree(cs, m, gates.tenant);
    Completed(Over(cs, m), m, m - Kinds(cs), q.conditions, gates.tenant);
  }

  lemma DownWhenPushed(p: PodStatus, v: PodStatus, gates: Gates, q: PodStatus)
    requires OneEach(p.conditions, gates.tenant) && Pushed(p, v, gates) && DownRepair(p, v, gates, q)
    ensures q == p
  {
    var m := GateMap(v.conditions, gates.tenant);
    FiledGates(v, gates);
    DownWalkForm(p.conditions, gates.tenant, m);
    OverAgrees(p.conditions, m);
    NothingLeft(DownWalk(p.conditions, gates.tenant, m), q.conditions);
  }

  lemma UpWhenPushed(p: PodStatus, v: PodStatus, gates: Gates, u: PodStatus)
    requires OneEach(p.conditions, gates.tenant) && Pushed(p, v, gates) && UpRepair(p, v, gates, u)
    ensures Settled(p, u, gates)
  {
    var m, cs := GateMap(v.conditions, gates.tenant), Kept(p.conditions, gates);
    FiledGates(v, gates);
    UpWalkForm(p.conditions, gates, m);
    KeptContents(p.conditions, gates);
    forall i | 0 <= i < |cs| && cs[i].kind in m
      ensures cs[i] == m[cs[i].kind]
    {
      assert cs[i] in p.conditions;
    }
    OverAgrees(cs, m);
    NothingLeft(UpWalk(p.conditions, gates, m), u.conditions);
  }

  lemma SettledIsPushed(p: PodStatus, v: PodStatus, gates: Gates)
    requires OneEach(p.conditions, gates.tenant) && Settled(p, v, gates)
    ensures Pushed(p, v, gates)
  {
    var m := GateMap(v.conditions, gates.tenant);
    GateMapKinds(v.conditions, gates.tenant);
    KeptContents(p.conditions, gates);
    assert forall k :: k in m ==> m[k] in p.conditions;
  }

  // ---------- runs ----------

  datatype Pods = Pods(p: PodStatus, v: PodStatus)

  ghost predicate SyncStep(s: Pods, d: Direction, gates: Gates, t: Pods) {
    match d
    case Down => t.v == s.v && DownRepair(s.p, s.v, gates, t.p)
    case Up => t.p == s.p && UpRepair(s.p, s.v, gates, t.v)
  }

  ghost predicate SyncRun(run: seq<Pods>, ds: seq<Direction>, gates: Gates) {
    && |run| == |ds| + 1
    && forall i :: 0 <= i < |ds| ==> SyncStep(run[i], ds[i], gates, run[i + 1])
  }

  /** Neither check has anything to say. */
  ghost predicate Quiet(s: Pods, gates: Gates) {
    && (forall t :: SyncStep(s, Down, gates, t) ==> t == s)
    && (forall t :: SyncStep(s, Up, gates, t) ==> t == s)
  }

  lemma SettledIsQuiet(s: Pods, gates: Gates)
    requires OneEach(s.p.conditions, gates.tenant) && Settled(s.p, s.v, gates)
    ensures Quiet(s, gates)
  {
    SettledIsPushed(s.p, s.v, gates);
    forall t | SyncStep(s, Down, gates, t)
      ensures t == s
    {
      DownWhenPushed(s.p, s.v, gates, t.p);
    }
    forall t | SyncStep(s, Up, gates, t)
      ensures t == s
    {
      UpWhenPushed(s.p, s.v, gates, t.v);
    }
  }

  /** Repairs never give a gate a second condition. */
  lemma {:induction false} RunOneEach(run: seq<Pods>, ds: seq<Direction>, gates: Gates, i: nat)
    requires SyncRun(run, ds, gates) && OneEach(run[0].p.conditions, gates.tenant) && i < |run|
    ensures OneEach(run[i].p.conditions, gates.tenant)
  {
    if i > 0 {
      RunOneEach(run, ds, gates, i - 1);
      assert SyncStep(run[i - 1], ds[i - 1], gates, run[i]);
      if ds[i - 1] == Down {
        DownPushes(run[i - 1].p, run[i - 1].v, gates, run[i].p);
      }
    }
  }

  /** After a downward repair the super pod stays up to date, through repairs in either direction. */
  lemma {:induction false} RunStaysPushed(run: seq<Pods>, ds: seq<Direction>, gates: Gates, d: nat, i: nat)
    requires SyncRun(run, ds, gates) && OneEach(run[0].p.conditions, gates.tenant)
    requires d < i < |run| && ds[d] == Down
    ensures Pushed(run[i].p, run[i].v, gates)
  {
    RunOneEach(run, ds, gates, i - 1);
    var s, t := run[i - 1], run[i];
    assert SyncStep(s, ds[i - 1], gates, t);
    if ds[i - 1] == Down {
      DownPushes(s.p, s.v, gates, t.p);
    } else {
      RunStaysPushed(run, ds, gates, d, i - 1);
      UpWhenPushed(s.p, s.v, gates, t.v);
      SettledIsPushed(t.p, t.v, gates);
    }
  }

  /** One downward and one later upward repair are enough: from there on both checks are quiet. */
  lemma {:induction false} ConditionsConverge(run: seq<Pods>, ds: seq<Direction>, gates: Gates, d: nat, u: nat, i: nat)
    requires SyncRun(run, ds, gates) && OneEach(run[0].p.conditions, gates.tenant)
    requires d < u < |ds| && ds[d] == Down && ds[u] == Up && u < i < |run|
    ensures Settled(run[i].p, run[i].v, gates) && Quiet(run[i], gates) && run[i] == run[u + 1]
  {
    if i == u + 1 {
      RunOneEach(run, ds, gates, u);
      RunStaysPushed(run, ds, gates, d, u);
      assert SyncStep(run[u], ds[u], gates, run[i]);
      UpWhenPushed(run[u].p, run[u].v, gates, run[i].v);
      SettledIsQuiet(run[i], gates);
    } else {
      ConditionsConverge(run, ds, gates, d, u, i - 1);
      assert SyncStep(run[i - 1], ds[i - 1], gates, run[i]);
    }
  }

  // ---------- who owns which condition ----------

  lemma GateMapAt(cs: seq<Condition>, gates: set<string>, i: nat)
    requires OneEach(cs, gates) && i < |cs| && cs[i].kind in gates
    ensures cs[i].kind in GateMap(cs, gates) && GateMap(cs, gates)[cs[i].kind] == cs[i]
  {
    GateMapKinds(cs, gates);
    var k := cs[i].kind;
    assert k in Kinds(cs);
    var j :| 0 <= j < |cs| && cs[j] == GateMap(cs, gates)[k];
  }

  lemma {:induction false} KeptKinds(cs: seq<Condition>, gates: Gates)
    ensures forall k :: k in Kinds(Kept(cs, gates)) ==> k in Kinds(cs) && k !in gates.super - gates.tenant
  {
    KeptContents(cs, gates);
    var kept := Kept(cs, gates);
    forall i | 0 <= i < |kept|
      ensures kept[i].kind in Kinds(cs) && kept[i].kind !in gates.super - gates.tenant
    {
      assert kept[i] in cs;
    }
  }

  lemma KeptHasGates(cs: seq<Condition>, gates: Gates, k: string)
    requires k in gates.tenant && k in Kinds(cs)
    ensures k in Kinds(Kept(cs, gates))
  {
    KeptContents(cs, gates);
    var i :| 0 <= i < |cs| && cs[i].kind == k;
    assert cs[i] in Kept(cs, gates);
  }

  /** What the upward repair shows the tenant: its own gate values, each once, and no gate of the super pod alone. */
  lemma UpShape(p: PodStatus, v: PodStatus, gates: Gates, u: PodStatus)
    requires OneEach(p.conditions, gates.tenant) && UpRepair(p, v, gates, u)
    ensures Agrees(u.conditions, GateMap(v.conditions, gates.tenant))
    ensures OneEach(u.conditions, gates.tenant)
    ensures Kinds(u.conditions) ==
            Kinds(Kept(p.conditions, gates)) + (GateMap(v.conditions, gates.tenant) - Kinds(p.conditions)).Keys
  {
    var m, kept := GateMap(v.conditions, gates.tenant), Kept(p.conditions, gates);
    FiledGates(v, gates);
    UpWalkForm(p.conditions, gates, m);
    KeptOneEach(p.conditions, gates);
    KeptKinds(p.conditions, gates);
    OverKinds(kept, m, gates.tenant);
    OverOneEach(kept, m, gates.tenant);
    OverMakesAgree(kept, m, gates.tenant);
    Completed(Over(kept, m), m, m - Kinds(p.conditions), u.conditions, gates.tenant);
  }

  /** The upward repair leaves every gate condition of the tenant as it is and lets no other gate in. */
  lemma UpKeepsTenantGates(p: PodStatus, v: PodStatus, gates: Gates, u: PodStatus)
    requires OneEach(p.conditions, gates.tenant) && UpRepair(p, v, gates, u)
    ensures forall k :: k in GateMap(v.conditions, gates.tenant) ==>
      k in GateMap(u.conditions, gates.tenant) && GateMap(u.conditions, gates.tenant)[k] == GateMap(v.conditions, gates.tenant)[k]
    ensures forall k :: k in Kinds(u.conditions) ==> k !in gates.super - gates.tenant
  {
    var m := GateMap(v.conditions, gates.tenant);
    FiledGates(v, gates);
    UpShape(p, v, gates, u);
    KeptKinds(p.conditions, gates);
    forall k | k in m
      ensures k in GateMap(u.conditions, gates.tenant) && GateMap(u.conditions, gates.tenant)[k] == m[k]
    {
      if k in Kinds(p.conditions) {
        KeptHasGates(p.conditions, gates, k);
      }
      var i :| 0 <= i < |u.conditions| && u.conditions[i].kind == k;
      GateMapAt(u.conditions, gates.tenant, i);
    }
  }

  /** Over a whole run no gate condition of the tenant is ever overwritten. */
  lemma {:induction false} RunKeepsTenantGates(run: seq<Pods>, ds: seq<Direction>, gates: Gates, i: nat, k: string)
    requires SyncRun(run, ds, gates) && OneEach(run[0].p.conditions, gates.tenant) && i < |run|
    requires k in GateMap(run[0].v.conditions, gates.tenant)
    ensures k in GateMap(run[i].v.conditions, gates.tenant)
    ensures GateMap(run[i].v.conditions, gates.tenant)[k] == GateMap(run[0].v.conditions, gates.tenant)[k]
  {
    if i > 0 {
      RunKeepsTenantGates(run, ds, gates, i - 1, k);
      RunOneEach(run, ds, gates, i - 1);
      assert SyncStep(run[i - 1], ds[i - 1], gates, run[i]);
      if ds[i - 1] == Up {
        UpKeepsTenantGates(run[i - 1].p, run[i - 1].v, gates, run[i].v);
      }
    }
  }

  // ---------- the hypotheses are needed ----------

  lemma GateMapTwo(a: Condition, b: Condition, gates: set<string>)
    requires a.kind in gates && b.kind in gates
    ensures GateMap([a, b], gates) == map[a.kind := a][b.kind := b]
  {
    assert [a, b][..1] == [a] && [a][..0] == [];
    assert GateMap([a], gates) == map[a.kind := a];
  }

  /** Two conditions of one gate in the super pod: after one repair each way the downward check still changes it. */
  lemma DuplicateGatesNeedMore(k: string, x: string, y: string, rest: string)
    requires x != y
    ensures var gates := Gates({k}, {});
      var p := PodStatus(rest, [Condition(k, x), Condition(k, y)]);
      var none := PodStatus(rest, []);
      var later := PodStatus(rest, [Condition(k, y), Condition(k, y)]);
      && SyncStep(Pods(p, none), Down, gates, Pods(p, none))
      && SyncStep(Pods(p, none), Up, gates, Pods(p, p))
      && SyncStep(Pods(p, p), Down, gates, Pods(later, p))
      && later != p
  {
    var gates, a, b := Gates({k}, {}), Condition(k, x), Condition(k, y);
    var cs := [a, b];
    assert cs[..1] == [a] && [a][..0] == [];
    assert UpStep(Walk([], map[]), a, gates) == Walk([a], map[]);
    assert UpWalk([a], gates, map[]) == Walk([a], map[]);
    assert UpWalk(cs, gates, map[]) == Walk(cs, map[]);
    assert DownWalk([a], {k}, map[]) == Walk([a], map[]);
    assert DownWalk(cs, {k}, map[]) == Walk(cs, map[]);
    GateMapTwo(a, b, {k});
    assert map[k := a][k := b] == map[k := b];
    assert DownWalk([a], {k}, map[k := b]) == Walk([b], map[]);
    assert DownWalk(cs, {k}, map[k := b]) == Walk([b, b], map[]);
    assert cs[..2] == cs && cs[2..] == [] && [b, b][..2] == [b, b] && [b, b][2..] == [];
    NoKinds([]);
    assert [b, b][0] != a;
  }

  lemma EitherOrder(a: Condition, b: Condition)
    requires a.kind != b.kind
    ensures Enumerates([a, b], map[a.kind := a, b.kind := b])
  {
    var cs := [a, b];
    assert cs[0].kind in Kinds(cs) && cs[1].kind in Kinds(cs);
    assert Kinds(cs) == {a.kind, b.kind};
  }

  lemma UpWalkTwo(a: Condition, b: Condition, gates: Gates)
    requires a.kind != b.kind && gates.tenant == {a.kind, b.kind}
    ensures UpWalk([b, a], gates, map[a.kind := a, b.kind := b]).out == [b, a]
  {
    var m := map[a.kind := a, b.kind := b];
    assert [b, a][..1] == [b] && [b][..0] == [];
    assert UpWalk([b], gates, m) == UpStep(Walk([], m), b, gates);
    assert UpWalk([b, a], gates, m) == UpStep(UpWalk([b], gates, m), a, gates);
  }

  lemma OnlyAppended(m: Pending, cs: seq<Condition>)
    requires Enumerates(cs, m)
    ensures Completes(Walk([], m), cs)
  {
    assert cs[0..] == cs;
  }

  /** The order matters: an upward repair followed by a downward one may leave the tenant's list in another order. */
  lemma UpThenDownNeedsMore(a: Condition, b: Condition, rest: string)
    requires a.kind != b.kind
    ensures var gates := Gates({a.kind, b.kind}, {});
      var p, v, q := PodStatus(rest, []), PodStatus(rest, [a, b]), PodStatus(rest, [b, a]);
      && SyncStep(Pods(p, v), Up, gates, Pods(p, v))
      && SyncStep(Pods(p, v), Down, gates, Pods(q, v))
      && !SyncStep(Pods(q, v), Up, gates, Pods(q, v))
  {
    var gates := Gates({a.kind, b.kind}, {});
    var m := map[a.kind := a, b.kind := b];
    GateMapTwo(a, b, gates.tenant);
    assert m == map[a.kind := a][b.kind := b] == map[b.kind := b, a.kind := a];
    EitherOrder(a, b);
    EitherOrder(b, a);
    OnlyAppended(m, [a, b]);
    OnlyAppended(m, [b, a]);
    UpWalkTwo(a, b, gates);
    assert [a, b][..2][0] != [b, a][0];
  }
}
