/**
 Pod conditions between the tenant pod and the super pod. Kubelet conditions flow up, readiness gates
 declared by the tenant flow down, gates that only the super cluster declares stay where they are.
 Appends follow the order of a map iteration, so each check is a relation: any order is allowed.
 */
module PodConditions {
  import opened Resources

  datatype Condition = Condition(kind: string, value: string)

  datatype PodStatus = PodStatus(rest: string, conditions: seq<Condition>)

  /** Conditions of declared gates still to be placed, by kind. */
  type Pending = map<string, Condition>

  /** The readiness gates of the tenant pod and of the super pod. */
  datatype Gates = Gates(tenant: set<string>, super: set<string>)

  function Kinds(cs: seq<Condition>): set<string> {
    set i | 0 <= i < |cs| :: cs[i].kind
  }

  // ---------- what the loops compute ----------

  /** The gate conditions among `cs`; of two of one kind the later counts. */
  function GateMap(cs: seq<Condition>, gates: set<string>): Pending {
    if cs == [] then map[]
    else
      var m, c := GateMap(cs[..|cs| - 1], gates), cs[|cs| - 1];
      if c.kind in gates then m[c.kind := c] else m
  }

  /** The list built so far and the gate conditions not used yet. */
  datatype Walk = Walk(out: seq<Condition>, left: Pending)

  /** A gate condition is overwritten by the pending one of its kind, which is then used up. */
  function Overwrite(w: Walk, c: Condition): Walk {
    if c.kind in w.left then Walk(w.out + [w.left[c.kind]], w.left - {c.kind}) else Walk(w.out + [c], w.left)
  }

  function DownWalk(cs: seq<Condition>, gates: set<string>, m: Pending): Walk {
    if cs == [] then Walk([], m)
    else
      var w, c := DownWalk(cs[..|cs| - 1], gates, m), cs[|cs| - 1];
      if c.kind in gates then Overwrite(w, c) else Walk(w.out + [c], w.left)
  }

  /** Gates that only the super pod declares are dropped. */
  function UpWalk(cs: seq<Condition>, gates: Gates, m: Pending): Walk {
    if cs == [] then Walk([], m)
    else
      UpStep(UpWalk(cs[..|cs| - 1], gates, m), cs[|cs| - 1], gates)
  }

  function UpStep(w: Walk, c: Condition, gates: Gates): Walk {
    if c.kind in gates.tenant then Overwrite(w, c)
    else if c.kind in gates.super then w
    else Walk(w.out + [c], w.left)
  }

  lemma UpWalkStep(cs: seq<Condition>, i: nat, gates: Gates, m: Pending)
    requires i < |cs|
    ensures UpWalk(cs[..i + 1], gates, m) == UpStep(UpWalk(cs[..i], gates, m), cs[i], gates)
  {
    assert cs[..i + 1][..i] == cs[..i];
  }

  /** `tail` lists the entries of `m`, each once, in some order. */
  ghost predicate Enumerates(tail: seq<Condition>, m: Pending) {
    && (forall i :: 0 <= i < |tail| ==> tail[i].kind in m && tail[i] == m[tail[i].kind])
    && (forall i, j :: 0 <= i < j < |tail| ==> tail[i].kind != tail[j].kind)
    && Kinds(tail) == m.Keys
  }

  ghost predicate Completes(w: Walk, out: seq<Condition>) {
    |w.out| <= |out| && out[..|w.out|] == w.out && Enumerates(out[|w.out|..], w.left)
  }

  ghost predicate DownRepair(p: PodStatus, v: PodStatus, gates: Gates, q: PodStatus) {
    q.rest == p.rest && Completes(DownWalk(p.conditions, gates.tenant, GateMap(v.conditions, gates.tenant)), q.conditions)
  }

  ghost predicate UpRepair(p: PodStatus, v: PodStatus, gates: Gates, u: PodStatus) {
    u.rest == p.rest && Completes(UpWalk(p.conditions, gates, GateMap(v.conditions, gates.tenant)), u.conditions)
  }

  // ---------- the checks ----------

  method CollectGates(cs: seq<Condition>, gates: set<string>) returns (m: Pending)
    ensures m == GateMap(cs, gates)
  {
    m := map[];
    for i := 0 to |cs|
      invariant m == GateMap(cs[..i], gates)
    {
      assert cs[..i + 1][..i] == cs[..i];
      if cs[i].kind in gates {
        m := m[cs[i].kind := cs[i]];
      }
    }
    assert cs[..|cs|] == cs;
  }

  lemma {:induction false} GateMapKinds(cs: seq<Condition>, gates: set<string>)
    ensures forall k :: k in GateMap(cs, gates) ==> k in gates && GateMap(cs, gates)[k].kind == k
    ensures forall k :: k in GateMap(cs, gates) ==> GateMap(cs, gates)[k] in cs
    ensures GateMap(cs, gates).Keys == Kinds(cs) * gates
  {
    if cs != [] {
      var n := |cs| - 1;
      GateMapKinds(cs[..n], gates);
      assert forall i :: 0 <= i < n ==> cs[..n][i] == cs[i];
      assert Kinds(cs) == Kinds(cs[..n]) + {cs[n].kind};
    }
  }

  /** Every pending condition is filed under its own kind, and that kind is a tenant gate. */
  ghost predicate WellFiled(m: Pending, gates: set<string>) {
    forall k :: k in m ==> k in gates && m[k].kind == k
  }

  method AppendPending(cs: seq<Condition>, m: Pending, gates: set<string>) returns (out: seq<Condition>)
    requires WellFiled(m, gates)
    ensures Completes(Walk(cs, m), out)
  {
    out := cs;
    var todo := m.Keys;
    while todo != {}
      invariant todo <= m.Keys && |cs| <= |out| && out[..|cs|] == cs
      invariant forall i :: |cs| <= i < |out| ==> out[i].kind in m && out[i].kind !in todo && out[i] == m[out[i].kind]
      invariant forall i, j :: |cs| <= i < j < |out| ==> out[i].kind != out[j].kind
      invariant forall k :: k in m && k !in todo ==> exists i :: |cs| <= i < |out| && out[i].kind == k
      decreases todo
    {
      var k :| k in todo;
      todo := todo - {k};
      ghost var before := out;
      out := out + [m[k]];
      assert forall i :: 0 <= i < |before| ==> out[i] == before[i];
      assert out[|before|].kind == k;
    }
    var tail := out[|cs|..];
    assert forall i :: 0 <= i < |tail| ==> tail[i] == out[|cs| + i];
    forall k | k in m
      ensures k in Kinds(tail)
    {
      var i :| |cs| <= i < |out| && out[i].kind == k;
      assert tail[i - |cs|].kind == k;
    }
  }

  lemma {:induction false} WalksFile(cs: seq<Condition>, gates: Gates, m: Pending)
    requires WellFiled(m, gates.tenant)
    ensures WellFiled(DownWalk(cs, gates.tenant, m).left, gates.tenant)
    ensures WellFiled(UpWalk(cs, gates, m).left, gates.tenant)
  {
    if cs != [] {
      WalksFile(cs[..|cs| - 1], gates, m);
    }
  }

  /** In place: the element at the cursor is kept, replaced or cut out; what follows is untouched. */
  lemma AtCursor(out: seq<Condition>, cs: seq<Condition>, i: nat)
    requires i < |cs|
    ensures (out + cs[i..])[|out|] == cs[i]
    ensures out + cs[i..] == (out + [cs[i]]) + cs[i + 1..]
  {
  }

  lemma PutAtCursor(out: seq<Condition>, cs: seq<Condition>, i: nat, x: Condition)
    requires i < |cs|
    ensures (out + cs[i..])[|out| := x] == (out + [x]) + cs[i + 1..]
  {
  }

  lemma CutAtCursor(out: seq<Condition>, cs: seq<Condition>, i: nat)
    requires i < |cs|
    ensures (out + cs[i..])[..|out|] + (out + cs[i..])[|out| + 1..] == out + cs[i + 1..]
  {
  }

  method OverwriteDown(cs: seq<Condition>, gates: set<string>, m: Pending) returns (conditions: seq<Condition>, pending: Pending)
    ensures Walk(conditions, pending) == DownWalk(cs, gates, m)
  {
    conditions, pending := cs, m;
    ghost var w := Walk([], m);
    for i := 0 to |cs|
      invariant w == DownWalk(cs[..i], gates, m)
      invariant |w.out| == i && conditions == w.out + cs[i..] && pending == w.left
    {
      assert cs[..i + 1][..i] == cs[..i];
      var c := conditions[i];
      AtCursor(w.out, cs, i);
      if c.kind in gates {
        if c.kind in pending {
          PutAtCursor(w.out, cs, i, pending[c.kind]);
          conditions := conditions[i := pending[c.kind]];
          pending := pending - {c.kind};
        }
      }
      w := DownWalk(cs[..i + 1], gates, m);
    }
    assert cs[..|cs|] == cs;
  }

  /** One turn of the upward loop: the condition at the cursor is kept, cut out or overwritten. */
  method TurnUp(conditions: seq<Condition>, pending: Pending, i: nat, gates: Gates, ghost w: Walk, ghost cs: seq<Condition>, ghost done: nat)
    returns (r: seq<Condition>, left: Pending, next: nat)
    requires done < |cs| && |w.out| == i && conditions == w.out + cs[done..] && pending == w.left
    ensures var t := UpStep(w, cs[done], gates);
            |t.out| == next && r == t.out + cs[done + 1..] && left == t.left
  {
    AtCursor(w.out, cs, done);
    var c := conditions[i];
    r, left, next := conditions, pending, i;
    if c.kind !in gates.super && c.kind !in gates.tenant {
      next := i + 1;
    } else if c.kind !in gates.tenant {
      CutAtCursor(w.out, cs, done);
      r := conditions[..i] + conditions[i + 1..];
    } else {
      if c.kind in pending {
        PutAtCursor(w.out, cs, done, pending[c.kind]);
        r := conditions[i := pending[c.kind]];
        left := pending - {c.kind};
      }
      next := i + 1;
    }
  }

  method OverwriteUp(cs: seq<Condition>, gates: Gates, m: Pending) returns (conditions: seq<Condition>, pending: Pending)
    ensures Walk(conditions, pending) == UpWalk(cs, gates, m)
  {
    conditions, pending := cs, m;
    var i := 0;
    ghost var done, w := 0, Walk([], m);
    while i < |conditions|
      invariant done <= |cs| && w == UpWalk(cs[..done], gates, m)
      invariant |w.out| == i && conditions == w.out + cs[done..] && pending == w.left
      decreases |cs| - done
    {
      UpWalkStep(cs, done, gates, m);
      AtCursor(w.out, cs, done);
      ghost var next := UpStep(w, cs[done], gates);
      conditions, pending, i := TurnUp(conditions, pending, i, gates, w, cs, done);
      w := next;
      done := done + 1;
    }
    assert cs[..|cs|] == cs;
  }

  method CheckDWPodConditionEquality(p: PodStatus, v: PodStatus, gates: Gates) returns (r: Option<PodStatus>)
    ensures DownRepair(p, v, gates, if r.Some? then r.value else p)
    ensures r.Some? ==> r.value != p
  {
    var gateConditions := CollectGates(v.conditions, gates.tenant);
    GateMapKinds(v.conditions, gates.tenant);
    WalksFile(p.conditions, gates, gateConditions);
    var conditions, pending := OverwriteDown(p.conditions, gates.tenant, gateConditions);
    conditions := AppendPending(conditions, pending, gates.tenant);
    if conditions != p.conditions {
      return Some(p.(conditions := conditions));
    }
    return None;
  }

  method CheckUWPodStatusEquality(p: PodStatus, v: PodStatus, gates: Gates) returns (r: Option<PodStatus>)
    ensures UpRepair(p, v, gates, if r.Some? then r.value else v)
    ensures r.Some? ==> r.value != v
  {
    var gateConditions := CollectGates(v.conditions, gates.tenant);
    GateMapKinds(v.conditions, gates.tenant);
    WalksFile(p.conditions, gates, gateConditions);
    var conditions, pending := OverwriteUp(p.conditions, gates, gateConditions);
    conditions := AppendPending(conditions, pending, gates.tenant);
    var status := PodStatus(p.rest, conditions);
    if status != v {
      return Some(status);
    }
    return None;
  }
}
