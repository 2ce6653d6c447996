/** Workers on the fair queue: whole runs, and the run that loses an item. */
module QueueRuns {
  import opened Balancer
  import opened QueueModel

  /** The queue and the item each busy worker holds. */
  datatype Site = Site(q: Queue, held: map<nat, Item>)

  datatype Event =
    | Added(x: Item)
    | Taken(worker: nat)
    | Finished(worker: nat)
    | Collected(group: string)
    | ShutDown

  /** A worker takes one item at a time; `Get` blocks while nothing is queued. */
  predicate Enabled(s: Site, e: Event) {
    match e
    case Taken(w) => w !in s.held && s.q.length > 0
    case Finished(w) => w in s.held
    case _ => true
  }

  ghost function Next(s: Site, e: Event): Site
    requires Enabled(s, e) && (e.Taken? ==> Servable(s.q.groups, s.q.ring))
  {
    match e
    case Added(x) => s.(q := Add(s.q, x))
    case Taken(w) => Site(Get(s.q), s.held[w := Got(s.q)])
    case Finished(w) => Site(Done(s.q, s.held[w]), s.held - {w})
    case Collected(g) => s.(q := Collect(s.q, g))
    case ShutDown => s.(q := s.q.(closed := true))
  }

  /** Every item being processed is held by exactly one worker. */
  predicate HeldOnce(s: Site) {
    && (forall w :: w in s.held ==> s.held[w] in s.q.processing)
    && (forall x :: x in s.q.processing ==> exists w :: w in s.held && s.held[w] == x)
    && (forall v, w :: v in s.held && w in s.held && v != w ==> s.held[v] != s.held[w])
  }

  ghost predicate SiteInv(s: Site) {
    QInv(s.q) && HeldOnce(s)
  }

  /** The caller can check it: the finished item is not dirty, or its group has not been collected. */
  predicate Harmless(s: Site, e: Event)
    requires Enabled(s, e)
  {
    e.Finished? ==> (s.held[e.worker] in s.q.dirty ==> s.held[e.worker].group in s.q.groups)
  }

  lemma TakenKeeps(s: Site, w: nat)
    requires SiteInv(s) && w !in s.held && s.q.length > 0
    ensures Servable(s.q.groups, s.q.ring) && SiteInv(Next(s, Taken(w)))
    ensures Got(s.q) !in s.q.processing && forall v :: v in s.held ==> s.held[v] != Got(s.q)
  {
    GetKeeps(s.q);
    HeldByOneMore(s, Get(s.q), w, Got(s.q));
  }

  lemma HeldByOneMore(s: Site, q: Queue, w: nat, x: Item)
    requires HeldOnce(s) && w !in s.held && x !in s.q.processing && q.processing == s.q.processing + {x}
    ensures HeldOnce(Site(q, s.held[w := x]))
    ensures forall v :: v in s.held ==> s.held[v] != x
  {
    var held := s.held[w := x];
    forall y | y in q.processing
      ensures exists v :: v in held && held[v] == y
    {
      if y == x {
        assert held[w] == y;
      } else {
        var v :| v in s.held && s.held[v] == y;
        assert held[v] == y;
      }
    }
  }

  /** With the queue invariant, finishing is harmless exactly when it keeps the invariant. */
  lemma FinishedKeepsIff(s: Site, w: nat)
    requires SiteInv(s) && w in s.held
    ensures SiteInv(Next(s, Finished(w))) <==> Harmless(s, Finished(w))
  {
    var x := s.held[w];
    DoneKeepsIff(s.q, x);
    var t := Next(s, Finished(w));
    forall y | y in t.q.processing
      ensures exists v :: v in t.held && t.held[v] == y
    {
      var v :| v in s.held && s.held[v] == y;
      assert v in t.held && t.held[v] == y;
    }
  }

  lemma StepKeeps(s: Site, e: Event)
    requires SiteInv(s) && Enabled(s, e) && Harmless(s, e)
    ensures e.Taken? ==> Servable(s.q.groups, s.q.ring)
    ensures SiteInv(Next(s, e))
  {
    match e
    case Added(x) => AddKeeps(s.q, x);
    case Taken(w) => TakenKeeps(s, w);
    case Finished(w) => FinishedKeepsIff(s, w);
    case Collected(g) => CollectKeeps(s.q, g);
    case ShutDown =>
      var t := Next(s, e);
      forall y
        ensures Queued(t.q, y) <==> y in t.q.dirty && y !in t.q.processing
      {
        assert Queued(s.q, y) <==> y in s.q.dirty && y !in s.q.processing;
      }
  }

  // ---------- runs ----------

  /** A run in which no finished item comes back to a collected group. */
  ghost predicate CarefulRun(s: Site, events: seq<Event>)
    decreases |events|
  {
    events == [] ||
    (var e := events[0];
     && Enabled(s, e) && Harmless(s, e) && (e.Taken? ==> Servable(s.q.groups, s.q.ring))
     && CarefulRun(Next(s, e), events[1..]))
  }

  ghost function RunOf(s: Site, events: seq<Event>): Site
    requires CarefulRun(s, events)
    decreases |events|
  {
    if events == [] then s else RunOf(Next(s, events[0]), events[1..])
  }

  lemma {:induction false} CarefulRunKeeps(s: Site, events: seq<Event>)
    requires SiteInv(s) && CarefulRun(s, events)
    ensures SiteInv(RunOf(s, events))
    decreases |events|
  {
    if events != [] {
      StepKeeps(s, events[0]);
      CarefulRunKeeps(Next(s, events[0]), events[1..]);
    }
  }

  /** No item is held by two workers, and no dirty item is lost: it is queued, or its holder will put it back. */
  lemma NothingLostNothingShared(events: seq<Event>, x: Item)
    requires CarefulRun(Site(EMPTY_QUEUE, map[]), events)
    ensures var s := RunOf(Site(EMPTY_QUEUE, map[]), events);
            && (x in s.q.dirty ==> Queued(s.q, x) || exists w :: w in s.held && s.held[w] == x)
            && (forall v, w :: v in s.held && w in s.held && v != w ==> s.held[v] != s.held[w])
            && (Queued(s.q, x) ==> x in s.q.dirty && forall w :: w in s.held ==> s.held[w] != x)
  {
    EmptyQueueOk();
    CarefulRunKeeps(Site(EMPTY_QUEUE, map[]), events);
    var s := RunOf(Site(EMPTY_QUEUE, map[]), events);
    assert Queued(s.q, x) <==> x in s.q.dirty && x !in s.q.processing;
  }

  // ---------- collecting only groups nobody works for ----------

  predicate Anchored(s: Site) {
    forall w :: w in s.held ==> s.held[w].group in s.q.groups
  }

  /** The collector leaves a group alone while one of its items is being processed. */
  predicate Considerate(s: Site, e: Event) {
    e.Collected? ==> forall w :: w in s.held ==> s.held[w].group != e.group
  }

  lemma ConsiderateKeeps(s: Site, e: Event)
    requires SiteInv(s) && Anchored(s) && Enabled(s, e) && Considerate(s, e)
    ensures Harmless(s, e) && (e.Taken? ==> Servable(s.q.groups, s.q.ring))
    ensures SiteInv(Next(s, e)) && Anchored(Next(s, e))
  {
    StepKeeps(s, e);
    AnchoredKept(s, e);
  }

  lemma AnchoredKept(s: Site, e: Event)
    requires QInv(s.q) && Anchored(s) && Enabled(s, e) && Considerate(s, e)
    ensures (e.Taken? ==> Servable(s.q.groups, s.q.ring)) && Anchored(Next(s, e))
  {
    match e
    case Taken(w) => AnchoredTaken(s, w);
    case _ =>
  }

  lemma AnchoredTaken(s: Site, w: nat)
    requires QInv(s.q) && Anchored(s) && s.q.length > 0
    ensures Servable(s.q.groups, s.q.ring) && Anchored(Site(Get(s.q), s.held[w := Got(s.q)]))
  {
    GetKeeps(s.q);
    assert Got(s.q).group in s.q.groups;
    assert Get(s.q).groups.Keys == s.q.groups.Keys;
  }

  ghost predicate ConsiderateRun(s: Site, events: seq<Event>)
    decreases |events|
  {
    events == [] ||
    (var e := events[0];
     && Enabled(s, e) && Considerate(s, e) && (e.Taken? ==> Servable(s.q.groups, s.q.ring))
     && ConsiderateRun(Next(s, e), events[1..]))
  }

  /** A considerate collector makes every run careful. */
  lemma {:induction false} ConsiderateIsCareful(s: Site, events: seq<Event>)
    requires SiteInv(s) && Anchored(s) && ConsiderateRun(s, events)
    ensures CarefulRun(s, events)
    decreases |events|
  {
    if events != [] {
      ConsiderateKeeps(s, events[0]);
      ConsiderateIsCareful(Next(s, events[0]), events[1..]);
    }
  }

  // ---------- the run that loses an item ----------

  /** Dirty, but neither queued nor being processed: nothing will ever hand it out. */
  predicate Stuck(q: Queue, x: Item) {
    x in q.dirty && x !in q.processing && forall g :: g in q.groups ==> x !in q.groups[g]
  }

  /** Added again while it is being processed, its idle group collected, then marked done. */
  lemma LosesItem(q: Queue, x: Item)
    requires QInv(q) && !q.closed && x in q.processing && x !in q.dirty && q.groups == map[x.group := []]
    ensures var r := Done(Collect(Add(q, x), x.group), x);
            Stuck(r, x) && x.group in r.groups && x.group !in r.ring.keys
  {
    RingRemoveOk(q, x.group);
    var r := Collect(Add(q, x), x.group);
    assert r.groups == map[] && r.ring == RingRemove(q.ring, x.group);
    assert x.group in r.ring.keys ==> x.group in (set k | k in r.ring.keys);
  }

  /** Add, Get, Add again while it is being processed, collect the idle group, Done. */
  lemma LosingRun(x: Item)
    ensures var q1 := Add(EMPTY_QUEUE, x);
            && Servable(q1.groups, q1.ring) && Got(q1) == x
            && var q := Done(Collect(Add(Get(q1), x), x.group), x);
               Stuck(q, x) && x.group in q.groups && x.group !in q.ring.keys
  {
    EmptyQueueOk();
    OnlyItem(EMPTY_QUEUE, x);
    var q := Get(Add(EMPTY_QUEUE, x));
    EmptyFifos(q);
    assert q.groups == map[x.group := []];
    LosesItem(q, x);
  }

  /** Steps of any queue, however broken: `Get` may take the head of any group. */
  datatype Move = MAdd(x: Item) | MPop(group: string) | MDone(x: Item) | MCollect(group: string) | MClose

  predicate Possible(q: Queue, m: Move) {
    match m
    case MPop(g) => g in q.groups && q.groups[g] != []
    case MDone(x) => x in q.processing
    case _ => true
  }

  function Moved(q: Queue, m: Move): Queue
    requires Possible(q, m)
  {
    match m
    case MAdd(x) => Add(q, x)
    case MPop(g) => Pop(q, g)
    case MDone(x) => Done(q, x)
    case MCollect(g) => Collect(q, g)
    case MClose => q.(closed := true)
  }

  predicate PossibleRun(q: Queue, moves: seq<Move>)
    decreases |moves|
  {
    moves == [] || (Possible(q, moves[0]) && PossibleRun(Moved(q, moves[0]), moves[1..]))
  }

  function MovedBy(q: Queue, moves: seq<Move>): Queue
    requires PossibleRun(q, moves)
    decreases |moves|
  {
    if moves == [] then q else MovedBy(Moved(q, moves[0]), moves[1..])
  }

  lemma StuckStays(q: Queue, x: Item, m: Move)
    requires Stuck(q, x) && Possible(q, m)
    ensures Stuck(Moved(q, m), x)
    ensures m.MPop? ==> q.groups[m.group][0] != x
  {
    if m.MPop? {
      assert q.groups[m.group][0] in q.groups[m.group];
    }
  }

  /** Once lost, lost forever: whatever happens next, adding it again included, it is never handed out. */
  lemma {:induction false} LostForever(q: Queue, x: Item, moves: seq<Move>)
    requires Stuck(q, x) && PossibleRun(q, moves)
    ensures Stuck(MovedBy(q, moves), x)
    decreases |moves|
  {
    if moves != [] {
      StuckStays(q, x, moves[0]);
      LostForever(Moved(q, moves[0]), x, moves[1..]);
    }
  }

  /** Where the balancer stands after `k` questions. */
  function RingAfter(r: Ring, k: nat): (t: Ring)
    requires ValidRing(r) && r.keys != []
    ensures t.keys == r.keys && ValidRing(t) && (k > 0 ==> |t.keys| == 1 || t.pos >= 0)
  {
    if k == 0 then r else RingNext(RingAfter(r, k - 1))
  }

  // ---------- finishing twice ----------

  /** A `Done` by someone who does not hold the item is harmless exactly when nobody holds it and it is not waiting. */
  lemma StrayDoneIff(s: Site, x: Item)
    requires SiteInv(s)
    ensures SiteInv(s.(q := Done(s.q, x))) <==> x !in s.q.processing && x !in s.q.dirty
  {
    DoneKeepsIff(s.q, x);
    var t := s.(q := Done(s.q, x));
    if x in s.q.processing {
      var w :| w in s.held && s.held[w] == x;
      assert w in t.held && t.held[w] !in t.q.processing;
    }
  }

  /**
   The second `Done` of a dropped request: in between, the item was added and taken by another worker.
   The item then counts as idle while that worker holds it, and adding it hands it to a third.
   */
  lemma SecondDoneShares(q: Queue, x: Item)
    requires QInv(q) && !q.closed && x in q.processing && x !in q.dirty && x.group in q.groups && q.length == 0
    ensures var q1 := Add(Done(q, x), x);
            && Servable(q1.groups, q1.ring) && Got(q1) == x
            && var q2 := Add(Done(Get(q1), x), x);
               Servable(q2.groups, q2.ring) && Got(q2) == x
  {
    OnlyItem(Done(q, x), x) by {
      DoneKeeps(q, x);
    }
    var q1 := Add(Done(q, x), x);
    var after := Get(q1);
    GetKeeps(q1);
    DoneKeeps(after, x);
    OnlyItem(Done(after, x), x);
  }

  lemma EmptyFifos(q: Queue)
    requires QInv(q) && q.length == 0
    ensures forall g :: g in q.groups ==> q.groups[g] == []
  {
    forall g | g in q.groups
      ensures q.groups[g] == []
    {
      TotalSplit(q.groups, g);
    }
  }

  /** In an otherwise empty queue the added item is the one handed out. */
  lemma OnlyItem(q: Queue, x: Item)
    requires QInv(q) && !q.closed && q.length == 0 && x !in q.dirty && x !in q.processing
    ensures var r := Add(q, x);
            && QInv(r) && r.length == 1 && Servable(r.groups, r.ring) && Got(r) == x
            && Get(r).length == 0 && x in Get(r).processing && x !in Get(r).dirty && x.group in Get(r).groups
            && !Get(r).closed && QInv(Get(r))
  {
    var r := Add(q, x);
    AddKeeps(q, x);
    GetKeeps(r);
    EmptyFifos(q);
    var t := Serve(r.groups, r.ring);
    assert RingKey(t) == x.group;
  }
}
