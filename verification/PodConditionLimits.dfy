/**
 Exactly when the condition checks settle outside the regular case: several conditions of one gate in the
 super pod, and an upward repair that comes before the downward one.
 */
module PodConditionLimits {
  import opened Directions
  import opened PodConditions
  import opened PodConditionSync

  // ---------- the first and the last condition of a kind ----------

  function First(cs: seq<Condition>, k: string): Condition
    requires k in Kinds(cs)
  {
    KindsSplit(cs);
    if k in Kinds(cs[..|cs| - 1]) then First(cs[..|cs| - 1], k) else cs[|cs| - 1]
  }

  predicate Repeated(cs: seq<Condition>, k: string) {
    exists i, j :: 0 <= i < j < |cs| && cs[i].kind == k && cs[j].kind == k
  }

  lemma RepeatedStep(cs: seq<Condition>, k: string)
    requires cs != []
    ensures var n := |cs| - 1;
            Repeated(cs, k) <==> Repeated(cs[..n], k) || (cs[n].kind == k && k in Kinds(cs[..n]))
  {
    var n := |cs| - 1;
    var front := cs[..n];
    if Repeated(front, k) {
      var i, j :| 0 <= i < j < |front| && front[i].kind == k && front[j].kind == k;
      assert cs[i].kind == k && cs[j].kind == k;
    }
    if cs[n].kind == k && k in Kinds(front) {
      var i :| 0 <= i < |front| && front[i].kind == k;
      assert cs[i].kind == k && cs[n].kind == k;
    }
    if Repeated(cs, k) {
      var i, j :| 0 <= i < j < |cs| && cs[i].kind == k && cs[j].kind == k;
      assert front[i].kind == k;
      if j < n {
        assert front[j].kind == k;
      }
    }
  }

  /** A gate that occurs once has its first condition as its last. */
  lemma {:induction false} OnceIsFirst(cs: seq<Condition>, gates: set<string>, k: string)
    requires k in Kinds(cs) && k in gates && !Repeated(cs, k)
    ensures k in GateMap(cs, gates) && GateMap(cs, gates)[k] == First(cs, k)
  {
    RepeatedStep(cs, k);
    KindsSplit(cs);
    if cs[|cs| - 1].kind != k {
      OnceIsFirst(cs[..|cs| - 1], gates, k);
    }
  }

  lemma {:induction false} FirstAppend(a: seq<Condition>, b: seq<Condition>, k: string)
    requires k in Kinds(a)
    ensures k in Kinds(a + b) && First(a + b, k) == First(a, k)
    decreases |b|
  {
    KindsPlus(a, b);
    if b == [] {
      assert a + b == a;
    } else {
      var front := b[..|b| - 1];
      FirstAppend(a, front, k);
      assert (a + b)[..|a + b| - 1] == a + front;
    }
  }

  lemma {:induction false} GateMapAppend(a: seq<Condition>, b: seq<Condition>, gates: set<string>, k: string)
    requires k in Kinds(a) && k in gates && k !in Kinds(b)
    ensures k in GateMap(a, gates) && k in GateMap(a + b, gates) && GateMap(a + b, gates)[k] == GateMap(a, gates)[k]
    decreases |b|
  {
    GateMapKinds(a, gates);
    if b == [] {
      assert a + b == a;
    } else {
      var front := b[..|b| - 1];
      KindsSplit(b);
      GateMapAppend(a, front, gates, k);
      assert (a + b)[..|a + b| - 1] == a + front;
    }
  }

  // ---------- the walks, whatever the list ----------

  /** The first condition of every pending kind is the pending one. */
  ghost predicate Leads(cs: seq<Condition>, m: Pending) {
    forall k :: k in m && k in Kinds(cs) ==> First(cs, k) == m[k]
  }

  lemma {:induction false} WalkKinds(cs: seq<Condition>, gates: set<string>, m: Pending)
    requires WellFiled(m, gates)
    ensures var w := DownWalk(cs, gates, m);
            && |w.out| == |cs| && w.left == m - Kinds(cs) && Kinds(w.out) == Kinds(cs)
            && forall i :: 0 <= i < |cs| ==> w.out[i].kind == cs[i].kind
  {
    if cs != [] {
      var n := |cs| - 1;
      WalkKinds(cs[..n], gates, m);
      KindsSplit(cs);
      var w, c := DownWalk(cs[..n], gates, m), cs[n];
      var x := if c.kind in gates && c.kind in w.left then w.left[c.kind] else c;
      assert DownWalk(cs, gates, m).out == w.out + [x] && x.kind == c.kind;
      KindsPlus(w.out, [x]);
      OneKind(x);
      assert m - Kinds(cs) == (m - Kinds(cs[..n])) - {c.kind};
    }
  }

  /** The walk overwrites the first condition of each pending kind. */
  lemma {:induction false} WalkFirst(cs: seq<Condition>, gates: set<string>, m: Pending, k: string)
    requires WellFiled(m, gates) && k in Kinds(cs)
    ensures var out := DownWalk(cs, gates, m).out;
            k in Kinds(out) && First(out, k) == if k in m then m[k] else First(cs, k)
  {
    var n := |cs| - 1;
    WalkKinds(cs, gates, m);
    WalkKinds(cs[..n], gates, m);
    KindsSplit(cs);
    var out := DownWalk(cs, gates, m).out;
    assert out[..n] == DownWalk(cs[..n], gates, m).out;
    if k in Kinds(cs[..n]) {
      WalkFirst(cs[..n], gates, m, k);
    }
  }

  /** It does not touch a later one. */
  lemma {:induction false} WalkLast(cs: seq<Condition>, gates: set<string>, m: Pending, k: string)
    requires WellFiled(m, gates) && k in Kinds(cs) && k in gates && Repeated(cs, k)
    ensures var out := DownWalk(cs, gates, m).out;
            k in GateMap(out, gates) && k in GateMap(cs, gates) && GateMap(out, gates)[k] == GateMap(cs, gates)[k]
  {
    var n := |cs| - 1;
    WalkKinds(cs, gates, m);
    WalkKinds(cs[..n], gates, m);
    KindsSplit(cs);
    RepeatedStep(cs, k);
    var out := DownWalk(cs, gates, m).out;
    assert out[..n] == DownWalk(cs[..n], gates, m).out;
    if cs[n].kind != k {
      WalkLast(cs[..n], gates, m, k);
    }
  }

  lemma LeadsFront(cs: seq<Condition>, m: Pending)
    requires cs != [] && Leads(cs, m)
    ensures Leads(cs[..|cs| - 1], m)
    ensures var c := cs[|cs| - 1]; c.kind in m && c.kind !in Kinds(cs[..|cs| - 1]) ==> m[c.kind] == c
  {
    var front := cs[..|cs| - 1];
    KindsSplit(cs);
    forall k | k in m && k in Kinds(front)
      ensures First(front, k) == m[k]
    {
      assert First(cs, k) == First(front, k);
    }
    var k := cs[|cs| - 1].kind;
    assert k in m && k !in Kinds(front) ==> First(cs, k) == m[k];
  }

  lemma {:induction false} LeadsIsUnchanged(cs: seq<Condition>, gates: set<string>, m: Pending)
    requires WellFiled(m, gates) && Leads(cs, m)
    ensures DownWalk(cs, gates, m).out == cs
  {
    if cs != [] {
      var n := |cs| - 1;
      LeadsFront(cs, m);
      WalkKinds(cs[..n], gates, m);
      LeadsIsUnchanged(cs[..n], gates, m);
      assert cs == cs[..n] + [cs[n]];
    }
  }

  lemma UnchangedIffLeads(cs: seq<Condition>, gates: set<string>, m: Pending)
    requires WellFiled(m, gates)
    ensures DownWalk(cs, gates, m).out == cs <==> Leads(cs, m)
  {
    if Leads(cs, m) {
      LeadsIsUnchanged(cs, gates, m);
    } else {
      var k :| k in m && k in Kinds(cs) && First(cs, k) != m[k];
      WalkFirst(cs, gates, m, k);
    }
  }

  lemma KeptSnoc(cs: seq<Condition>, c: Condition, gates: Gates)
    ensures Kept(cs + [c], gates) == Kept(cs, gates) + if c.kind in gates.super - gates.tenant then [] else [c]
  {
    assert (cs + [c])[..|cs|] == cs;
  }

  /** Upwards the same happens to what the tenant may see. */
  lemma {:induction false} UpIsKeptDown(cs: seq<Condition>, gates: Gates, m: Pending)
    requires WellFiled(m, gates.tenant)
    ensures var w := DownWalk(cs, gates.tenant, m);
            UpWalk(cs, gates, m) == Walk(Kept(w.out, gates), w.left)
  {
    if cs != [] {
      var n := |cs| - 1;
      UpIsKeptDown(cs[..n], gates, m);
      WalksFile(cs[..n], gates, m);
      var w, c := DownWalk(cs[..n], gates.tenant, m), cs[n];
      var x := if c.kind in gates.tenant && c.kind in w.left then w.left[c.kind] else c;
      assert DownWalk(cs, gates.tenant, m).out == w.out + [x] && x.kind == c.kind;
      assert UpWalk(cs, gates, m) == UpStep(Walk(Kept(w.out, gates), w.left), c, gates);
      KeptSnoc(w.out, x, gates);
    }
  }

  // ---------- a settled pair ----------

  lemma {:induction false} KeptGateMap(cs: seq<Condition>, gates: Gates)
    ensures GateMap(Kept(cs, gates), gates.tenant) == GateMap(cs, gates.tenant)
  {
    if cs != [] {
      var n := |cs| - 1;
      KeptGateMap(cs[..n], gates);
      var kept := Kept(cs[..n], gates);
      GateMapSnoc(kept, cs[n], gates.tenant);
      assert cs[n].kind in gates.super - gates.tenant ==> Kept(cs, gates) == kept;
    }
  }

  lemma GateMapSnoc(cs: seq<Condition>, c: Condition, gates: set<string>)
    ensures GateMap(cs + [c], gates) == if c.kind in gates then GateMap(cs, gates)[c.kind := c] else GateMap(cs, gates)
  {
    assert (cs + [c])[..|cs|] == cs;
  }

  lemma NoTail(w: Walk)
    requires w.left == map[]
    ensures Completes(w, w.out)
  {
    NoKinds([]);
    assert w.out[|w.out|..] == [];
  }

  /** Neither check changes a settled pair exactly when every gate's first condition is also its last. */
  lemma SettledQuietIff(s: Pods, gates: Gates)
    requires Settled(s.p, s.v, gates)
    ensures Quiet(s, gates) <==> Leads(s.p.conditions, GateMap(s.p.conditions, gates.tenant))
  {
    var cs, m := s.p.conditions, GateMap(s.p.conditions, gates.tenant);
    KeptGateMap(cs, gates);
    GateMapKinds(cs, gates.tenant);
    WalkKinds(cs, gates.tenant, m);
    UpIsKeptDown(cs, gates, m);
    UnchangedIffLeads(cs, gates.tenant, m);
    var w := DownWalk(cs, gates.tenant, m);
    assert w.left == map[];
    if Quiet(s, gates) {
      NoTail(w);
      assert SyncStep(s, Down, gates, s.(p := s.p.(conditions := w.out)));
    }
    if Leads(cs, m) {
      forall t | SyncStep(s, Down, gates, t) ensures t == s { NothingLeft(w, t.p.conditions); }
      forall t | SyncStep(s, Up, gates, t) ensures t == s { NothingLeft(UpWalk(cs, gates, m), t.v.conditions); }
    }
  }

  // ---------- several conditions of one gate ----------

  /** A repeated gate ends with the tenant's value, or with what it starts with if the tenant reports none. */
  ghost predicate Steady(p: PodStatus, v: PodStatus, gates: Gates) {
    forall k :: k in gates.tenant && Repeated(p.conditions, k) ==> SteadyAt(p, v, gates, k)
  }

  ghost predicate SteadyAt(p: PodStatus, v: PodStatus, gates: Gates, k: string) {
    var m, last := GateMap(v.conditions, gates.tenant), GateMap(p.conditions, gates.tenant);
    k in last && k in Kinds(p.conditions) && last[k] == if k in m then m[k] else First(p.conditions, k)
  }

  lemma RepeatedIn(cs: seq<Condition>, k: string)
    ensures Repeated(cs, k) ==> k in Kinds(cs)
  {
  }

  /** The super pod after a downward repair: the gates it had, then the ones that were missing. */
  lemma AfterDown(p: PodStatus, v: PodStatus, gates: Gates, q: PodStatus) returns (out: seq<Condition>, tail: seq<Condition>)
    requires DownRepair(p, v, gates, q)
    ensures var m := GateMap(v.conditions, gates.tenant);
            && WellFiled(m, gates.tenant) && out == DownWalk(p.conditions, gates.tenant, m).out
            && q.conditions == out + tail && Enumerates(tail, m - Kinds(p.conditions))
            && Kinds(out) == Kinds(p.conditions) && Kinds(q.conditions) == Kinds(out) + Kinds(tail)
  {
    var m := GateMap(v.conditions, gates.tenant);
    FiledGates(v, gates);
    WalkKinds(p.conditions, gates.tenant, m);
    out := DownWalk(p.conditions, gates.tenant, m).out;
    tail := q.conditions[|out|..];
    assert q.conditions == out + tail;
    KindsPlus(out, tail);
  }

  lemma TailOnce(out: seq<Condition>, tail: seq<Condition>, left: Pending, k: string)
    requires Enumerates(tail, left) && k in left && k !in Kinds(out)
    ensures k in Kinds(out + tail) && !Repeated(out + tail, k) && First(out + tail, k) == left[k]
  {
    var q := out + tail;
    KindsPlus(out, tail);
    assert forall i :: 0 <= i < |out| ==> q[i] == out[i] && out[i].kind in Kinds(out);
    forall i, j | 0 <= i < j < |q|
      ensures q[i].kind != k || q[j].kind != k
    {
      if i >= |out| {
        assert tail[i - |out|].kind != tail[j - |out|].kind;
      }
    }
    OnceIsFirst(q, {k}, k);
    GateMapKinds(q, {k});
    var i :| 0 <= i < |q| && q[i] == First(q, k);
    assert i >= |out| && q[i] == tail[i - |out|];
  }

  lemma DownLeads(p: PodStatus, v: PodStatus, gates: Gates, q: PodStatus)
    requires DownRepair(p, v, gates, q)
    ensures Leads(q.conditions, GateMap(v.conditions, gates.tenant))
    ensures GateMap(v.conditions, gates.tenant).Keys <= Kinds(q.conditions)
  {
    var m := GateMap(v.conditions, gates.tenant);
    var out, tail := AfterDown(p, v, gates, q);
    forall k | k in m
      ensures k in Kinds(q.conditions) && First(q.conditions, k) == m[k]
    {
      if k in Kinds(p.conditions) {
        WalkFirst(p.conditions, gates.tenant, m, k);
        FirstAppend(out, tail, k);
      } else {
        TailOnce(out, tail, m - Kinds(p.conditions), k);
      }
    }
  }

  /** After a downward repair the upward one makes the tenant show what it may see, also with repeated gates. */
  lemma DownUpSettles(p: PodStatus, v: PodStatus, gates: Gates, q: PodStatus, u: PodStatus)
    requires DownRepair(p, v, gates, q) && UpRepair(q, v, gates, u)
    ensures Settled(q, u, gates)
  {
    var m := GateMap(v.conditions, gates.tenant);
    FiledGates(v, gates);
    DownLeads(p, v, gates, q);
    LeadsIsUnchanged(q.conditions, gates.tenant, m);
    WalkKinds(q.conditions, gates.tenant, m);
    UpIsKeptDown(q.conditions, gates, m);
    NothingLeft(UpWalk(q.conditions, gates, m), u.conditions);
  }

  /** The walk makes a gate's first condition its last one exactly when the gate is single or steady. */
  lemma WalkSteady(p: PodStatus, v: PodStatus, gates: Gates, k: string)
    requires k in gates.tenant && k in Kinds(p.conditions)
    ensures var out := DownWalk(p.conditions, gates.tenant, GateMap(v.conditions, gates.tenant)).out;
            && k in Kinds(out) && k in GateMap(out, gates.tenant)
            && (First(out, k) == GateMap(out, gates.tenant)[k] <==> (Repeated(p.conditions, k) ==> SteadyAt(p, v, gates, k)))
  {
    var m, cs := GateMap(v.conditions, gates.tenant), p.conditions;
    FiledGates(v, gates);
    WalkFirst(cs, gates.tenant, m, k);
    if Repeated(cs, k) {
      WalkLast(cs, gates.tenant, m, k);
    } else {
      WalkOnce(cs, gates.tenant, m, k);
      OnceIsFirst(DownWalk(cs, gates.tenant, m).out, gates.tenant, k);
    }
  }

  lemma SteadyKind(p: PodStatus, v: PodStatus, gates: Gates, q: PodStatus, k: string)
    requires DownRepair(p, v, gates, q) && k in gates.tenant && k in Kinds(q.conditions)
    ensures k in GateMap(q.conditions, gates.tenant)
    ensures First(q.conditions, k) == GateMap(q.conditions, gates.tenant)[k] <==>
            (Repeated(p.conditions, k) ==> SteadyAt(p, v, gates, k))
  {
    var cs := p.conditions;
    var out, tail := AfterDown(p, v, gates, q);
    if k in Kinds(cs) {
      WalkSteady(p, v, gates, k);
      FirstAppend(out, tail, k);
      GateMapAppend(out, tail, gates.tenant, k);
    } else {
      TailOnce(out, tail, GateMap(v.conditions, gates.tenant) - Kinds(cs), k);
      OnceIsFirst(q.conditions, gates.tenant, k);
      RepeatedIn(cs, k);
    }
  }

  lemma WalkOnce(cs: seq<Condition>, gates: set<string>, m: Pending, k: string)
    requires WellFiled(m, gates)
    ensures Repeated(DownWalk(cs, gates, m).out, k) ==> Repeated(cs, k)
  {
    WalkKinds(cs, gates, m);
    var out := DownWalk(cs, gates, m).out;
    if Repeated(out, k) {
      var i, j :| 0 <= i < j < |out| && out[i].kind == k && out[j].kind == k;
      assert cs[i].kind == k && cs[j].kind == k;
    }
  }

  /** One downward and one upward repair settle any pair exactly when the repeated gates are steady. */
  lemma DownThenUpQuietIff(p: PodStatus, v: PodStatus, gates: Gates, q: PodStatus, u: PodStatus)
    requires DownRepair(p, v, gates, q) && UpRepair(q, v, gates, u)
    ensures Quiet(Pods(q, u), gates) <==> Steady(p, v, gates)
  {
    DownUpSettles(p, v, gates, q, u);
    SettledQuietIff(Pods(q, u), gates);
    GateMapKinds(q.conditions, gates.tenant);
    var out, tail := AfterDown(p, v, gates, q);
    forall k | k in GateMap(q.conditions, gates.tenant)
      ensures First(q.conditions, k) == GateMap(q.conditions, gates.tenant)[k] <==>
              (Repeated(p.conditions, k) ==> SteadyAt(p, v, gates, k))
    {
      SteadyKind(p, v, gates, q, k);
    }
    forall k | k in gates.tenant && Repeated(p.conditions, k)
      ensures k in GateMap(q.conditions, gates.tenant)
    {
      RepeatedIn(p.conditions, k);
    }
  }

  /** Whatever the lists, two downward repairs, each followed by an upward one, leave nothing to do. */
  lemma TwoRoundsQuiet(p: PodStatus, v: PodStatus, gates: Gates, q: PodStatus, u: PodStatus, r: PodStatus, w: PodStatus)
    requires DownRepair(p, v, gates, q) && UpRepair(q, v, gates, u)
    requires DownRepair(q, u, gates, r) && UpRepair(r, u, gates, w)
    ensures Quiet(Pods(r, w), gates)
  {
    DownUpSettles(p, v, gates, q, u);
    KeptGateMap(q.conditions, gates);
    GateMapKinds(q.conditions, gates.tenant);
    forall k | k in gates.tenant && Repeated(q.conditions, k)
      ensures SteadyAt(q, u, gates, k)
    {
      RepeatedIn(q.conditions, k);
    }
    DownThenUpQuietIff(q, u, gates, r, w);
  }

  // ---------- upwards first ----------

  lemma {:induction false} KeptAppend(a: seq<Condition>, b: seq<Condition>, gates: Gates)
    ensures Kept(a + b, gates) == Kept(a, gates) + Kept(b, gates)
  {
    if b == [] {
      assert a + b == a;
    } else {
      var n := |b| - 1;
      KeptAppend(a, b[..n], gates);
      assert a + b == (a + b[..n]) + [b[n]];
      KeptSnoc(a + b[..n], b[n], gates);
    }
  }

  lemma {:induction false} KeptAll(cs: seq<Condition>, gates: Gates)
    requires forall i :: 0 <= i < |cs| ==> cs[i].kind in gates.tenant
    ensures Kept(cs, gates) == cs
  {
    if cs != [] {
      var n := |cs| - 1;
      KeptAll(cs[..n], gates);
      assert cs == cs[..n] + [cs[n]];
    }
  }

  /** Two lists that differ only in tenant gates. */
  ghost predicate Alike(a: seq<Condition>, b: seq<Condition>, gates: set<string>) {
    |a| == |b| && forall i :: 0 <= i < |a| ==> a[i].kind == b[i].kind && (a[i].kind in gates || a[i] == b[i])
  }

  lemma {:induction false} WalkAlike(cs: seq<Condition>, gates: set<string>, m: Pending)
    requires WellFiled(m, gates)
    ensures Alike(DownWalk(cs, gates, m).out, cs, gates)
  {
    if cs != [] {
      var n := |cs| - 1;
      WalkAlike(cs[..n], gates, m);
      WalkKinds(cs, gates, m);
      WalkKinds(cs[..n], gates, m);
    }
  }

  lemma SameParts(a: seq<Condition>, b: seq<Condition>, x: seq<Condition>, y: seq<Condition>)
    requires |a| == |b|
    ensures a + x == b + y <==> a == b && x == y
  {
    assert (a + x)[..|a|] == a && (b + y)[..|b|] == b;
    assert (a + x)[|a|..] == x && (b + y)[|b|..] == y;
  }

  lemma KeptStep(x: seq<Condition>, y: seq<Condition>, a: Condition, b: Condition, gates: Gates)
    requires a.kind == b.kind && (a.kind in gates.tenant || a == b) && |Kept(x, gates)| == |Kept(y, gates)|
    ensures |Kept(x + [a], gates)| == |Kept(y + [b], gates)|
    ensures Kept(x + [a], gates) == Kept(y + [b], gates) <==> Kept(x, gates) == Kept(y, gates) && a == b
  {
    KeptSnoc(x, a, gates);
    KeptSnoc(y, b, gates);
    if a.kind in gates.super - gates.tenant {
      assert Kept(x + [a], gates) == Kept(x, gates) && Kept(y + [b], gates) == Kept(y, gates);
    } else {
      SameParts(Kept(x, gates), Kept(y, gates), [a], [b]);
      assert [a][0] == a && [b][0] == b;
    }
  }

  /** The tenant sees every difference between two such lists. */
  lemma {:induction false} KeptAlike(a: seq<Condition>, b: seq<Condition>, gates: Gates)
    requires Alike(a, b, gates.tenant)
    ensures |Kept(a, gates)| == |Kept(b, gates)|
    ensures Kept(a, gates) == Kept(b, gates) <==> a == b
  {
    if a != [] {
      var n := |a| - 1;
      KeptAlike(a[..n], b[..n], gates);
      KeptStep(a[..n], b[..n], a[n], b[n], gates);
      assert a == a[..n] + [a[n]] && b == b[..n] + [b[n]];
    }
  }

  /** What a walk wrote is overwritten by a later walk that has every gate of the list pending. */
  lemma {:induction false} WalkTwice(cs: seq<Condition>, gates: set<string>, m: Pending, m1: Pending)
    requires WellFiled(m, gates) && WellFiled(m1, gates) && Kinds(cs) * gates <= m1.Keys
    ensures DownWalk(DownWalk(cs, gates, m).out, gates, m1).out == DownWalk(cs, gates, m1).out
  {
    if cs != [] {
      var n := |cs| - 1;
      KindsSplit(cs);
      WalkTwice(cs[..n], gates, m, m1);
      var out := DownWalk(cs, gates, m).out;
      WalkKinds(cs, gates, m);
      WalkKinds(cs[..n], gates, m);
      assert out[..n] == DownWalk(cs[..n], gates, m).out;
      WalkKinds(cs[..n], gates, m1);
      WalkKinds(out[..n], gates, m1);
    }
  }

  ghost function Missing(p: PodStatus, v: PodStatus, gates: Gates): Pending {
    GateMap(v.conditions, gates.tenant) - Kinds(p.conditions)
  }

  /** The super pod's list with the tenant's gate values written into it. */
  ghost function Written(p: PodStatus, v: PodStatus, gates: Gates): seq<Condition> {
    DownWalk(p.conditions, gates.tenant, GateMap(v.conditions, gates.tenant)).out
  }

  /** The tenant's list after the upward repair. */
  lemma UpList(p: PodStatus, v: PodStatus, gates: Gates, u: PodStatus) returns (shown: seq<Condition>)
    requires UpRepair(p, v, gates, u)
    ensures u.conditions == Kept(Written(p, v, gates), gates) + shown
    ensures Enumerates(shown, Missing(p, v, gates))
  {
    var m := GateMap(v.conditions, gates.tenant);
    FiledGates(v, gates);
    UpIsKeptDown(p.conditions, gates, m);
    WalkKinds(p.conditions, gates.tenant, m);
    shown := u.conditions[|Kept(Written(p, v, gates), gates)|..];
  }

  /** What the tenant shows for a gate after the upward repair: the last one of the written list, or its own value. */
  lemma ShownGate(p: PodStatus, v: PodStatus, gates: Gates, u: PodStatus, k: string)
    requires UpRepair(p, v, gates, u) && k in gates.tenant
    ensures var m, m1, last := GateMap(v.conditions, gates.tenant), GateMap(u.conditions, gates.tenant), GateMap(Written(p, v, gates), gates.tenant);
            if k in Kinds(p.conditions) then k in m1 && k in last && m1[k] == last[k]
            else (k in m1 <==> k in m) && (k in m ==> m1[k] == m[k])
  {
    var m, out := GateMap(v.conditions, gates.tenant), Written(p, v, gates);
    var shown := UpList(p, v, gates, u);
    var kept := Kept(out, gates);
    FiledGates(v, gates);
    WalkKinds(p.conditions, gates.tenant, m);
    KeptKinds(out, gates);
    KindsPlus(kept, shown);
    GateMapKinds(u.conditions, gates.tenant);
    if k in Kinds(p.conditions) {
      KeptHasGates(out, gates, k);
      GateMapAppend(kept, shown, gates.tenant, k);
      KeptGateMap(out, gates);
    } else if k in m {
      TailOnce(kept, shown, Missing(p, v, gates), k);
      OnceIsFirst(u.conditions, gates.tenant, k);
    }
  }

  /** The gates missing in the super pod are the same before and after the upward repair. */
  lemma SameMissing(p: PodStatus, v: PodStatus, gates: Gates, u: PodStatus)
    requires UpRepair(p, v, gates, u)
    ensures Missing(p, u, gates) == Missing(p, v, gates)
    ensures Kinds(p.conditions) * gates.tenant <= GateMap(u.conditions, gates.tenant).Keys
  {
    FiledGates(u, gates);
    FiledGates(v, gates);
    forall k | k in gates.tenant
      ensures k in Missing(p, u, gates) <==> k in Missing(p, v, gates)
      ensures k in Missing(p, u, gates) ==> Missing(p, u, gates)[k] == Missing(p, v, gates)[k]
      ensures k in Kinds(p.conditions) ==> k in GateMap(u.conditions, gates.tenant)
    {
      ShownGate(p, v, gates, u, k);
    }
  }

  /** The downward repair that follows writes the same list exactly when the repeated gates are steady. */
  lemma SameWritten(p: PodStatus, v: PodStatus, gates: Gates, u: PodStatus)
    requires UpRepair(p, v, gates, u)
    ensures Written(p, u, gates) == Written(p, v, gates) <==> Steady(p, v, gates)
  {
    var m, m1, out := GateMap(v.conditions, gates.tenant), GateMap(u.conditions, gates.tenant), Written(p, v, gates);
    FiledGates(u, gates);
    FiledGates(v, gates);
    SameMissing(p, v, gates, u);
    WalkTwice(p.conditions, gates.tenant, m, m1);
    UnchangedIffLeads(out, gates.tenant, m1);
    WalkKinds(p.conditions, gates.tenant, m);
    forall k | k in gates.tenant && k in Kinds(out)
      ensures k in m1 && (First(out, k) == m1[k] <==> (Repeated(p.conditions, k) ==> SteadyAt(p, v, gates, k)))
    {
      ShownGate(p, v, gates, u, k);
      WalkSteady(p, v, gates, k);
    }
    forall k | Repeated(p.conditions, k) ensures k in Kinds(out) { RepeatedIn(p.conditions, k); }
  }

  /** What the tenant sees of the super pod's list after that repair. */
  lemma DownList(p: PodStatus, v: PodStatus, gates: Gates, u: PodStatus, q: PodStatus) returns (pushed: seq<Condition>)
    requires UpRepair(p, v, gates, u) && DownRepair(p, u, gates, q)
    ensures q.conditions == Written(p, u, gates) + pushed && Enumerates(pushed, Missing(p, v, gates))
    ensures Kept(q.conditions, gates) == Kept(Written(p, u, gates), gates) + pushed
  {
    var out, tail := AfterDown(p, u, gates, q);
    SameMissing(p, v, gates, u);
    FiledGates(v, gates);
    KeptAppend(out, tail, gates);
    KeptAll(tail, gates);
    pushed := tail;
  }

  /** After a downward repair the pair is quiet exactly when it is settled. */
  lemma QuietIffSettled(p: PodStatus, u: PodStatus, gates: Gates, q: PodStatus)
    requires DownRepair(p, u, gates, q)
    ensures Quiet(Pods(q, u), gates) <==> Settled(q, u, gates)
  {
    var s, cs, m := Pods(q, u), q.conditions, GateMap(u.conditions, gates.tenant);
    FiledGates(u, gates);
    DownLeads(p, u, gates, q);
    LeadsIsUnchanged(cs, gates.tenant, m);
    WalkKinds(cs, gates.tenant, m);
    UpIsKeptDown(cs, gates, m);
    var down, up := DownWalk(cs, gates.tenant, m), UpWalk(cs, gates, m);
    assert down == Walk(cs, map[]) && up == Walk(Kept(cs, gates), map[]);
    NoTail(up);
    assert SyncStep(s, Up, gates, s.(v := PodStatus(q.rest, up.out)));
    forall t | SyncStep(s, Down, gates, t) ensures t == s { NothingLeft(down, t.p.conditions); }
    forall t | SyncStep(s, Up, gates, t) ensures t.v == PodStatus(q.rest, up.out) { NothingLeft(up, t.v.conditions); }
  }

  /** An upward and a downward repair settle the pair exactly with steady gates and the same order of appending. */
  lemma UpDownQuietIff(p: PodStatus, v: PodStatus, gates: Gates, u: PodStatus, q: PodStatus)
    returns (shown: seq<Condition>, pushed: seq<Condition>)
    requires UpRepair(p, v, gates, u) && DownRepair(p, u, gates, q)
    ensures Quiet(Pods(q, u), gates) <==> Steady(p, v, gates) && shown == pushed
    ensures u.conditions == Kept(Written(p, v, gates), gates) + shown && q.conditions == Written(p, u, gates) + pushed
    ensures Enumerates(shown, Missing(p, v, gates)) && Enumerates(pushed, Missing(p, v, gates))
  {
    shown := UpList(p, v, gates, u);
    pushed := DownList(p, v, gates, u, q);
    QuietIffSettled(p, u, gates, q);
    SameWritten(p, v, gates, u);
    var before, after := Written(p, v, gates), Written(p, u, gates);
    FiledGates(u, gates);
    FiledGates(v, gates);
    WalkAlike(p.conditions, gates.tenant, GateMap(v.conditions, gates.tenant));
    WalkAlike(p.conditions, gates.tenant, GateMap(u.conditions, gates.tenant));
    KeptAlike(before, after, gates);
    SameParts(Kept(before, gates), Kept(after, gates), shown, pushed);
  }

  // ---------- orders of appending ----------

  lemma {:induction false} EnumeratesLength(tail: seq<Condition>, m: Pending)
    requires Enumerates(tail, m)
    ensures |tail| == |m.Keys|
    decreases |tail|
  {
    NoKinds(tail);
    if tail != [] {
      var n := |tail| - 1;
      var k := tail[n].kind;
      LastIsNew(tail, {k});
      KindsSplit(tail);
      var front := tail[..n];
      assert Kinds(front) == (m - {k}).Keys;
      EnumeratesLength(front, m - {k});
      assert m.Keys == (m - {k}).Keys + {k};
    }
  }

  /** A single pending condition leaves no choice. */
  lemma OneOrder(a: seq<Condition>, b: seq<Condition>, m: Pending)
    requires Enumerates(a, m) && Enumerates(b, m) && |m.Keys| <= 1
    ensures a == b
  {
    EnumeratesLength(a, m);
    EnumeratesLength(b, m);
    if |a| == 1 {
      var k := a[0].kind;
      assert k in Kinds(a) && b[0].kind in Kinds(b);
      assert |m.Keys - {k}| == 0;
      assert b[0].kind == k;
    }
  }

  lemma EnumeratesSnoc(front: seq<Condition>, m: Pending, k: string)
    requires k in m && m[k].kind == k && Enumerates(front, m - {k})
    ensures Enumerates(front + [m[k]], m)
  {
    KindsPlus(front, [m[k]]);
    OneKind(m[k]);
    assert m.Keys == (m - {k}).Keys + {k};
    assert forall i :: 0 <= i < |front| ==> front[i].kind in Kinds(front);
  }

  /** Any pending condition can come last. */
  lemma {:induction false} OrderEndingIn(m: Pending, gates: set<string>, k: string) returns (tail: seq<Condition>)
    requires WellFiled(m, gates) && k in m
    ensures Enumerates(tail, m) && tail != [] && tail[|tail| - 1] == m[k]
    decreases |m.Keys|
  {
    var rest := m - {k};
    var front: seq<Condition> := [];
    assert m.Keys == rest.Keys + {k};
    if rest == map[] {
      NoKinds([]);
    } else {
      var j :| j in rest;
      front := OrderEndingIn(rest, gates, j);
    }
    EnumeratesSnoc(front, m, k);
    tail := front + [m[k]];
  }

  lemma OneKind(c: Condition)
    ensures Kinds([c]) == {c.kind}
  {
    assert [c][0].kind in Kinds([c]);
  }

  lemma Appended(w: Walk, tail: seq<Condition>)
    requires Enumerates(tail, w.left)
    ensures Completes(w, w.out + tail)
  {
    assert (w.out + tail)[..|w.out|] == w.out && (w.out + tail)[|w.out|..] == tail;
  }

  lemma SomeUp(p: PodStatus, v: PodStatus, gates: Gates, above: seq<Condition>) returns (u: PodStatus)
    requires Enumerates(above, Missing(p, v, gates))
    ensures UpRepair(p, v, gates, u) && u.conditions == Kept(Written(p, v, gates), gates) + above
  {
    var m := GateMap(v.conditions, gates.tenant);
    FiledGates(v, gates);
    UpIsKeptDown(p.conditions, gates, m);
    WalkKinds(p.conditions, gates.tenant, m);
    var w := UpWalk(p.conditions, gates, m);
    Appended(w, above);
    u := PodStatus(p.rest, w.out + above);
  }

  lemma SomeDown(p: PodStatus, v: PodStatus, gates: Gates, u: PodStatus, below: seq<Condition>) returns (q: PodStatus)
    requires UpRepair(p, v, gates, u) && Enumerates(below, Missing(p, v, gates))
    ensures DownRepair(p, u, gates, q) && q.conditions == Written(p, u, gates) + below
  {
    var m1 := GateMap(u.conditions, gates.tenant);
    SameMissing(p, v, gates, u);
    FiledGates(u, gates);
    WalkKinds(p.conditions, gates.tenant, m1);
    var w := DownWalk(p.conditions, gates.tenant, m1);
    Appended(w, below);
    q := PodStatus(p.rest, w.out + below);
  }

  /** The pending conditions can be appended in two orders, in different ones if there are two of them. */
  lemma TwoOrders(left: Pending, gates: set<string>) returns (above: seq<Condition>, below: seq<Condition>)
    requires WellFiled(left, gates)
    ensures Enumerates(above, left) && Enumerates(below, left) && (|left.Keys| >= 2 ==> above != below)
  {
    if left == map[] {
      NoKinds([]);
      return [], [];
    }
    var j :| j in left;
    above := OrderEndingIn(left, gates, j);
    below := above;
    if |left.Keys| >= 2 {
      assert |left.Keys - {j}| >= 1;
      var k :| k in left.Keys - {j};
      below := OrderEndingIn(left, gates, k);
    }
  }

  /** Unsteady gates, or two gates missing in the super pod, can leave the pair unsettled. */
  lemma MayStayUnsettled(p: PodStatus, v: PodStatus, gates: Gates) returns (u: PodStatus, q: PodStatus)
    requires !Steady(p, v, gates) || |Missing(p, v, gates).Keys| >= 2
    ensures UpRepair(p, v, gates, u) && DownRepair(p, u, gates, q) && !Quiet(Pods(q, u), gates)
  {
    FiledGates(v, gates);
    var above, below := TwoOrders(Missing(p, v, gates), gates.tenant);
    u := SomeUp(p, v, gates, above);
    q := SomeDown(p, v, gates, u, below);
    var shown, pushed := UpDownQuietIff(p, v, gates, u, q);
    var kept, written := Kept(Written(p, v, gates), gates), Written(p, u, gates);
    SameParts(kept, kept, shown, above);
    SameParts(written, written, pushed, below);
  }

  /**
   An upward repair followed by a downward one settles any pair, in whatever orders the two append, exactly
   when the repeated gates are steady and the super pod lacks at most one of the gates the tenant reports.
   */
  lemma UpThenDownQuietIff(p: PodStatus, v: PodStatus, gates: Gates)
    ensures (forall u, q :: UpRepair(p, v, gates, u) && DownRepair(p, u, gates, q) ==> Quiet(Pods(q, u), gates)) <==>
            Steady(p, v, gates) && |GateMap(v.conditions, gates.tenant).Keys - Kinds(p.conditions)| <= 1
  {
    var left := Missing(p, v, gates);
    assert left.Keys == GateMap(v.conditions, gates.tenant).Keys - Kinds(p.conditions);
    if Steady(p, v, gates) && |left.Keys| <= 1 {
      forall u, q | UpRepair(p, v, gates, u) && DownRepair(p, u, gates, q)
        ensures Quiet(Pods(q, u), gates)
      {
        var shown, pushed := UpDownQuietIff(p, v, gates, u, q);
        OneOrder(shown, pushed, left);
      }
    } else {
      var u, q := MayStayUnsettled(p, v, gates);
    }
  }
}
