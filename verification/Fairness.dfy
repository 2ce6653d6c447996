/** No tenant waits for more than one turn of each other tenant per item ahead of it. */
module Fairness {
  import opened WeightedRoundRobin
  import opened Balancer
  import opened QueueModel
  import opened QueueRuns

  /** Places to go until the balancer comes to position `m`; a single group is always next. */
  function Distance(r: Ring, m: nat): nat
    requires ValidRing(r) && m < |r.keys|
  {
    if |r.keys| == 1 then 1 else Ahead(|r.keys|, r.pos, m)
  }

  lemma DistanceRange(r: Ring, m: nat)
    requires ValidRing(r) && m < |r.keys|
    ensures 1 <= Distance(r, m) <= |r.keys|
  {
  }

  /** Serving never skips a group that has an item. */
  lemma {:induction false} ServeApproaches(groups: Groups, r: Ring, m: nat)
    requires Servable(groups, r) && Full(groups, r.keys, m)
    ensures var t := Serve(groups, r);
            RingKey(t) == r.keys[m] || (|r.keys| > 1 && Distance(t, m) < Distance(r, m))
    decreases Ahead(|r.keys|, r.pos, SomeFull(groups, r.keys))
  {
    var t := ServeStep(groups, r);
    if groups[RingKey(t)] == [] {
      ServeApproaches(groups, t, m);
    }
  }

  /** The loop of `Get` asks the balancer at most once per group. */
  lemma {:induction false} ServeWithinGroups(groups: Groups, r: Ring, m: nat) returns (k: nat)
    requires Servable(groups, r) && Full(groups, r.keys, m)
    ensures 1 <= k <= Distance(r, m) && Serve(groups, r) == RingAfter(r, k)
    decreases Ahead(|r.keys|, r.pos, SomeFull(groups, r.keys))
  {
    var t := ServeStep(groups, r);
    if groups[RingKey(t)] != [] {
      k := 1;
      assert RingAfter(r, 1) == RingNext(RingAfter(r, 0));
    } else {
      var l := ServeWithinGroups(groups, t, m);
      k := l + 1;
      RingAfterShift(r, l);
    }
  }

  lemma {:induction false} RingAfterShift(r: Ring, k: nat)
    requires ValidRing(r) && r.keys != []
    ensures RingAfter(r, k + 1) == RingAfter(RingNext(r), k)
  {
    if k == 0 {
      assert RingAfter(r, 1) == RingNext(RingAfter(r, 0));
    } else {
      RingAfterShift(r, k - 1);
    }
  }

  // ---------- one item's way to the front ----------

  /** `x` waits at position `p` of its FIFO, and its group is at place `m` of the ring. */
  predicate Waits(q: Queue, x: Item, p: nat, m: nat) {
    && x.group in q.groups && p < |q.groups[x.group]| && q.groups[x.group][p] == x
    && m < |q.ring.keys| && q.ring.keys[m] == x.group
  }

  /** At most this many more Gets until `x` is handed out. */
  function Patience(q: Queue, p: nat, m: nat): nat
    requires ValidRing(q.ring) && m < |q.ring.keys|
  {
    p * |q.ring.keys| + Distance(q.ring, m)
  }

  lemma PatienceBound(q: Queue, p: nat, m: nat)
    requires ValidRing(q.ring) && m < |q.ring.keys|
    ensures Patience(q, p, m) <= (p + 1) * |q.ring.keys|
  {
    DistanceRange(q.ring, m);
    assert (p + 1) * |q.ring.keys| == p * |q.ring.keys| + |q.ring.keys|;
  }

  /** One item less ahead is worth a whole round, and a nearer balancer is worth something, too. */
  lemma PatienceShrinks(r: Ring, t: Ring, p: nat, m: nat)
    requires ValidRing(r) && ValidRing(t) && t.keys == r.keys && m < |r.keys|
    ensures p > 0 ==> (p - 1) * |r.keys| + Distance(t, m) < p * |r.keys| + Distance(r, m)
    ensures Distance(t, m) < Distance(r, m) ==> p * |r.keys| + Distance(t, m) < p * |r.keys| + Distance(r, m)
  {
    DistanceRange(r, m);
    DistanceRange(t, m);
    if p > 0 {
      assert (p - 1) * |r.keys| + |r.keys| == p * |r.keys|;
    }
  }

  /** Each Get brings the item strictly nearer, or hands it out. */
  lemma GetApproaches(q: Queue, x: Item, p: nat, m: nat) returns (p': nat)
    requires QInv(q) && q.length > 0 && Waits(q, x, p, m)
    ensures Servable(q.groups, q.ring)
    ensures Got(q) != x ==> Waits(Get(q), x, p', m) && Patience(Get(q), p', m) < Patience(q, p, m)
  {
    InvServable(q);
    var t := Serve(q.groups, q.ring);
    assert Full(q.groups, q.ring.keys, m);
    ServeApproaches(q.groups, q.ring, m);
    var fifo := q.groups[x.group];
    assert FifoOk(x.group, fifo);
    PatienceShrinks(q.ring, t, p, m);
    if RingKey(t) == x.group {
      p' := if p > 0 then p - 1 else 0;
      if p > 0 {
        assert fifo[1..][p - 1] == x;
      }
    } else {
      p' := p;
    }
  }

  // ---------- windows ----------

  /** No group appears or disappears in the window. */
  ghost predicate StableRun(s: Site, events: seq<Event>)
    requires CarefulRun(s, events)
    decreases |events|
  {
    events == [] ||
    (Next(s, events[0]).q.ring.keys == s.q.ring.keys && StableRun(Next(s, events[0]), events[1..]))
  }

  function Gets(events: seq<Event>): nat {
    if events == [] then 0 else (if events[0].Taken? then 1 else 0) + Gets(events[1..])
  }

  ghost predicate Delivered(s: Site, events: seq<Event>, x: Item)
    requires CarefulRun(s, events)
    decreases |events|
  {
    events != [] &&
    ((events[0].Taken? && Got(s.q) == x) || Delivered(Next(s, events[0]), events[1..], x))
  }

  /** Whatever else happens, the item keeps its position. */
  lemma OtherKeepsPlace(s: Site, e: Event, x: Item, p: nat, m: nat)
    requires SiteInv(s) && Waits(s.q, x, p, m) && Enabled(s, e) && Harmless(s, e) && !e.Taken?
    requires Next(s, e).q.ring.keys == s.q.ring.keys
    ensures Waits(Next(s, e).q, x, p, m) && Patience(Next(s, e).q, p, m) == Patience(s.q, p, m)
  {
    assert Queued(s.q, x);
    if e.Collected? {
      StableCollect(s.q, e.group);
    }
  }

  /** A collection that leaves the ring as it was dropped nothing. */
  lemma StableCollect(q: Queue, g: string)
    requires QInv(q) && Collect(q, g).ring.keys == q.ring.keys
    ensures Collect(q, g) == q
  {
    assert g in q.groups ==> g in (set k | k in q.ring.keys);
    assert g in q.ring.keys ==> |RingRemove(q.ring, g).keys| == |q.ring.keys| - 1;
  }

  /** An item at position p of its FIFO is handed out within (p + 1) * G Gets, G being the number of groups. */
  lemma {:induction false} ServedInTime(s: Site, events: seq<Event>, x: Item, p: nat, m: nat)
    requires SiteInv(s) && CarefulRun(s, events) && StableRun(s, events)
    requires Waits(s.q, x, p, m) && Gets(events) >= Patience(s.q, p, m)
    ensures Delivered(s, events, x)
    decreases |events|
  {
    DistanceRange(s.q.ring, m);
    assert events != [];
    var e := events[0];
    var t := Next(s, e);
    StepKeeps(s, e);
    if e.Taken? {
      var p' := GetApproaches(s.q, x, p, m);
      if Got(s.q) != x {
        ServedInTime(t, events[1..], x, p', m);
      }
    } else {
      OtherKeepsPlace(s, e, x, p, m);
      ServedInTime(t, events[1..], x, p, m);
    }
  }

  lemma FairService(s: Site, events: seq<Event>, x: Item, p: nat, m: nat)
    requires SiteInv(s) && CarefulRun(s, events) && StableRun(s, events)
    requires Waits(s.q, x, p, m) && Gets(events) >= (p + 1) * |s.q.ring.keys|
    ensures Delivered(s, events, x)
  {
    PatienceBound(s.q, p, m);
    ServedInTime(s, events, x, p, m);
  }

  // ---------- between two Gets of a group ----------

  /** The groups served in the window, in order. */
  ghost function Served(s: Site, events: seq<Event>): seq<string>
    requires CarefulRun(s, events)
    decreases |events|
  {
    if events == [] then []
    else
      (if events[0].Taken? then [Got(s.q).group] else []) + Served(Next(s, events[0]), events[1..])
  }

  /** Group number `m` has items whenever a worker comes, yet is not the one served. */
  ghost predicate PassedOver(s: Site, events: seq<Event>, m: nat)
    requires CarefulRun(s, events)
    decreases |events|
  {
    events == [] ||
    (&& (events[0].Taken? ==> Full(s.q.groups, s.q.ring.keys, m) && Got(s.q).group != s.q.ring.keys[m])
     && PassedOver(Next(s, events[0]), events[1..], m))
  }

  /** Groups strictly between the balancer's position and place `m`. */
  predicate Between(r: Ring, m: nat, g: string)
    requires ValidRing(r) && m < |r.keys|
  {
    exists j :: 0 <= j < |r.keys| && r.keys[j] == g && Distance(r.(pos := j), m) < Distance(r, m)
  }

  lemma GotGroup(q: Queue)
    requires QInv(q) && Servable(q.groups, q.ring)
    ensures Got(q).group == RingKey(Serve(q.groups, q.ring))
  {
    var g := RingKey(Serve(q.groups, q.ring));
    assert FifoOk(g, q.groups[g]);
  }

  lemma OtherKeepsRing(s: Site, e: Event)
    requires SiteInv(s) && Enabled(s, e) && Harmless(s, e) && !e.Taken?
    requires Next(s, e).q.ring.keys == s.q.ring.keys
    ensures Next(s, e).q.ring == s.q.ring
  {
    if e.Collected? {
      StableCollect(s.q, e.group);
    }
  }

  /** A Get that passes over group `m` serves a group in between and moves the balancer there. */
  lemma PassedStep(q: Queue, m: nat)
    requires QInv(q) && q.length > 0 && Full(q.groups, q.ring.keys, m)
    requires Servable(q.groups, q.ring) && Got(q).group != q.ring.keys[m]
    ensures var r := Get(q).ring;
            && r.keys == q.ring.keys && ValidRing(r) && |r.keys| > 1 && 0 <= r.pos
            && Got(q).group == r.keys[r.pos] && Distance(r, m) < Distance(q.ring, m)
  {
    GotGroup(q);
    ServeApproaches(q.groups, q.ring, m);
  }

  lemma BetweenShrinks(before: Ring, after: Ring, m: nat, g: string)
    requires ValidRing(before) && ValidRing(after) && after.keys == before.keys && m < |before.keys| && |before.keys| > 1
    requires 0 <= after.pos && Distance(after, m) < Distance(before, m) && Between(after, m, g)
    ensures Between(before, m, g) && g != after.keys[after.pos]
  {
    var j :| 0 <= j < |after.keys| && after.keys[j] == g && Distance(after.(pos := j), m) < Distance(after, m);
    assert before.(pos := j) == after.(pos := j);
  }

  /** One served group in front of the groups served later. */
  lemma TurnTaken(before: Ring, after: Ring, m: nat, rest: seq<string>)
    requires ValidRing(before) && ValidRing(after) && after.keys == before.keys && m < |before.keys| && |before.keys| > 1
    requires 0 <= after.pos && Distance(after, m) < Distance(before, m)
    requires Distinct(rest) && forall h :: h in rest ==> Between(after, m, h)
    ensures Distinct([after.keys[after.pos]] + rest)
    ensures forall h :: h in [after.keys[after.pos]] + rest ==> Between(before, m, h)
  {
    var g := after.keys[after.pos];
    assert Between(before, m, g) by {
      assert before.(pos := after.pos) == after;
    }
    forall h | h in rest
      ensures Between(before, m, h) && h != g
    {
      BetweenShrinks(before, after, m, h);
    }
    assert forall k :: 0 <= k < |rest| ==> rest[k] in rest;
  }

  /** While a group waits with items, every other group is served at most once. */
  lemma {:induction false} OneTurnEach(s: Site, events: seq<Event>, m: nat)
    requires SiteInv(s) && CarefulRun(s, events) && StableRun(s, events) && m < |s.q.ring.keys|
    requires PassedOver(s, events, m)
    ensures Distinct(Served(s, events))
    ensures forall g :: g in Served(s, events) ==> Between(s.q.ring, m, g)
    decreases |events|
  {
    if events != [] {
      var e := events[0];
      var t := Next(s, e);
      StepKeeps(s, e);
      OneTurnEach(t, events[1..], m);
      var rest := Served(t, events[1..]);
      if e.Taken? {
        PassedStep(s.q, m);
        TurnTaken(s.q.ring, t.q.ring, m, rest);
      } else {
        OtherKeepsRing(s, e);
        assert Served(s, events) == rest;
      }
    }
  }
}
