/** Whether the search loop of `Get` stops, on every queue the operations can produce, broken ones included. */
module QueueSearch {
  import opened Balancer
  import opened QueueModel
  import opened QueueRuns
  import opened Fairness

  // ---------- the balancer never names a group it was not told about ----------

  predicate RingKnown(q: Queue) {
    ValidRing(q.ring) && forall g :: g in q.ring.keys ==> g in q.groups
  }

  lemma RemovedKey(r: Ring, g: string)
    requires ValidRing(r) && g in r.keys
    ensures var t := RingRemove(r, g);
            ValidRing(t) && g !in t.keys && forall k :: k in t.keys <==> k in r.keys && k != g
  {
    var i := IndexOf(r.keys, g);
    var t := RingRemove(r, g);
    assert forall j :: 0 <= j < |t.keys| ==> t.keys[j] == r.keys[if j < i then j else j + 1];
    forall k | k in r.keys && k != g
      ensures k in t.keys
    {
      var j :| 0 <= j < |r.keys| && r.keys[j] == k;
      assert t.keys[if j < i then j else j - 1] == k;
    }
  }

  lemma AddKeepsRingKnown(q: Queue, x: Item)
    requires RingKnown(q)
    ensures RingKnown(Add(q, x))
  {
  }

  lemma CollectKeepsRingKnown(q: Queue, g: string)
    requires RingKnown(q)
    ensures RingKnown(Collect(q, g))
  {
    if g in q.ring.keys {
      RemovedKey(q.ring, g);
    }
  }

  /** Every move keeps this, whether or not the queue invariant holds. */
  lemma MoveKeepsRingKnown(q: Queue, m: Move)
    requires RingKnown(q) && Possible(q, m)
    ensures RingKnown(Moved(q, m))
  {
    match m
    case MAdd(x) => AddKeepsRingKnown(q, x);
    case MCollect(g) => CollectKeepsRingKnown(q, g);
    case _ =>
  }

  lemma {:induction false} RunKeepsRingKnown(q: Queue, moves: seq<Move>)
    requires RingKnown(q) && PossibleRun(q, moves)
    ensures RingKnown(MovedBy(q, moves))
    decreases |moves|
  {
    if moves != [] {
      MoveKeepsRingKnown(q, moves[0]);
      RunKeepsRingKnown(Moved(q, moves[0]), moves[1..]);
    }
  }

  // ---------- the questions of one search ----------

  /** What the balancer answers to question number `k`, counted from zero. */
  function AskedKey(r: Ring, k: nat): string
    requires ValidRing(r)
  {
    if r.keys == [] then "" else RingKey(RingAfter(r, k + 1))
  }

  /** The loop ends at a group with an item, and at one that does not exist. */
  predicate Ends(groups: Groups, g: string) {
    g !in groups || groups[g] != []
  }

  lemma AskedIsKnown(r: Ring, k: nat)
    requires ValidRing(r) && r.keys != []
    ensures AskedKey(r, k) in r.keys
  {
  }

  /** Some question ends the search exactly when `Reaches` holds. */
  lemma SearchEndsIff(q: Queue)
    requires RingKnown(q)
    ensures (exists k: nat :: Ends(q.groups, AskedKey(q.ring, k))) <==> Reaches(q.groups, q.ring)
  {
    if q.ring.keys == [] {
      assert forall k: nat :: AskedKey(q.ring, k) == "";
      if Ends(q.groups, "") {
        assert Ends(q.groups, AskedKey(q.ring, 0));
      }
    } else {
      if Servable(q.groups, q.ring) {
        var j :| Full(q.groups, q.ring.keys, j);
        var k := ServeWithinGroups(q.groups, q.ring, j);
        assert AskedKey(q.ring, k - 1) == RingKey(Serve(q.groups, q.ring));
        assert Ends(q.groups, AskedKey(q.ring, k - 1));
      }
      if k: nat :| Ends(q.groups, AskedKey(q.ring, k)) {
        AskedIsKnown(q.ring, k);
        var j :| 0 <= j < |q.ring.keys| && q.ring.keys[j] == AskedKey(q.ring, k);
        assert Full(q.groups, q.ring.keys, j);
      }
    }
  }

  // ---------- where the lost item leads ----------

  /** Re-added while it is processed, its idle group collected, then marked done. */
  function Lost(q: Queue, x: Item): Queue {
    Done(Collect(Add(q, x), x.group), x)
  }

  /** A sound queue in which `x` is being processed and no other item of its group waits. */
  ghost predicate Holding(q: Queue, x: Item) {
    && QInv(q) && !q.closed && x in q.processing && x !in q.dirty
    && x.group in q.groups && q.groups[x.group] == []
  }

  /** Nothing waits at all. */
  ghost predicate Working(q: Queue, x: Item) {
    QInv(q) && !q.closed && q.length == 0 && x in q.processing && x !in q.dirty && x.group in q.groups
  }

  lemma WorkingHolds(q: Queue, x: Item)
    requires Working(q, x)
    ensures Holding(q, x) && forall g :: g in q.groups ==> q.groups[g] == []
  {
    EmptyFifos(q);
  }

  /** The group is dropped and comes back without the balancer. */
  lemma LostShape(q: Queue, x: Item)
    requires Holding(q, x)
    ensures Lost(q, x) == q.(dirty := q.dirty + {x}, processing := q.processing - {x}, ring := RingRemove(q.ring, x.group))
  {
    var added := Add(q, x);
    assert added == q.(dirty := q.dirty + {x});
    var collected := Collect(added, x.group);
    assert collected.groups == q.groups - {x.group};
    assert (q.groups - {x.group})[x.group := []] == q.groups;
  }

  /** The item is stuck, and its group exists without the balancer. */
  lemma LostState(q: Queue, x: Item)
    requires Holding(q, x)
    ensures var r := Lost(q, x);
            && Stuck(r, x) && RingKnown(r)
            && forall g :: g in r.ring.keys <==> g in q.groups && g != x.group
  {
    LostShape(q, x);
    assert x.group in (set k | k in q.ring.keys);
    RemovedKey(q.ring, x.group);
    assert forall k :: k in q.ring.keys <==> k in (set g | g in q.ring.keys);
    NotFiled(q, x);
  }

  lemma NotFiled(q: Queue, x: Item)
    requires QInv(q) && x in q.processing
    ensures forall g :: g in q.groups ==> x !in q.groups[g]
  {
    forall g | g in q.groups
      ensures x !in q.groups[g]
    {
      assert FifoOk(g, q.groups[g]);
      assert !Queued(q, x);
    }
  }

  /** Another item of the group is added afterwards: it is the only one queued. */
  lemma AddedToLost(q: Queue, x: Item, y: Item)
    requires Working(q, x) && y.group == x.group && y != x && y !in q.dirty && y !in q.processing
    ensures var r, s := Lost(q, x), Add(Lost(q, x), y);
            && s.length == 1 && s.ring == r.ring && s.groups == q.groups[x.group := [y]] && RingKnown(s)
            && forall g :: g in q.groups && g != x.group ==> s.groups[g] == []
  {
    WorkingHolds(q, x);
    LostShape(q, x);
    LostState(q, x);
    assert [] + [y] == [y];
  }

  /**
   It counts as queued, but the search of the next `Get` runs forever if any other group is registered,
   and crashes otherwise, unless the group has the empty name.
   */
  lemma LostGroupBlocks(q: Queue, x: Item, y: Item)
    requires Working(q, x) && y.group == x.group && y != x && y !in q.dirty && y !in q.processing
    ensures var s := Add(Lost(q, x), y);
            && RingKnown(s) && s.length == 1
            && if exists g :: g in q.groups && g != x.group
               then forall k: nat :: !Ends(s.groups, AskedKey(s.ring, k))
               else Answers(s) && AnswerOf(s) == if x.group != "" then Crash else Handed(y)
  {
    WorkingHolds(q, x);
    LostState(q, x);
    AddedToLost(q, x, y);
    var s := Add(Lost(q, x), y);
    if g :| g in q.groups && g != x.group {
      assert g in s.ring.keys;
      forall k: nat
        ensures !Ends(s.groups, AskedKey(s.ring, k))
      {
        AskedIsKnown(s.ring, k);
      }
    } else {
      NoKeys(s.ring.keys);
    }
  }

  lemma NoKeys(keys: seq<string>)
    ensures keys == [] <==> forall k :: k !in keys
  {
    if keys != [] {
      assert keys[0] in keys;
    }
  }

  // ---------- a group the balancer does not know ----------

  /** The calls on one queue, by anyone and in any order. */
  datatype Call = AddCall(x: Item) | GetCall | DoneCall(x: Item) | CollectCall(group: string) | CloseCall

  /** `Get` returns: it neither waits, nor searches forever, nor crashes. */
  ghost predicate Returns(q: Queue, c: Call) {
    c.GetCall? ==> Answers(q) && !AnswerOf(q).Crash?
  }

  ghost function After(q: Queue, c: Call): Queue
    requires Returns(q, c)
  {
    match c
    case AddCall(x) => Add(q, x)
    case GetCall => AfterGet(q)
    case DoneCall(x) => Done(q, x)
    case CollectCall(g) => Collect(q, g)
    case CloseCall => q.(closed := true)
  }

  /** The group whose item this call hands out. */
  ghost predicate Serves(q: Queue, c: Call, g: string)
    requires Returns(q, c)
  {
    c.GetCall? && AnswerOf(q).Handed? && StopKey(q.groups, q.ring) == g
  }

  ghost predicate CallRun(q: Queue, calls: seq<Call>)
    decreases |calls|
  {
    calls == [] || (Returns(q, calls[0]) && CallRun(After(q, calls[0]), calls[1..]))
  }

  ghost function AfterAll(q: Queue, calls: seq<Call>): Queue
    requires CallRun(q, calls)
    decreases |calls|
  {
    if calls == [] then q else AfterAll(After(q, calls[0]), calls[1..])
  }

  ghost predicate EverServes(q: Queue, calls: seq<Call>, g: string)
    requires CallRun(q, calls)
    decreases |calls|
  {
    calls != [] && (Serves(q, calls[0], g) || EverServes(After(q, calls[0]), calls[1..], g))
  }

  /** The group has items and a name, and the balancer does not know it; the lengths still add up. */
  ghost predicate Starved(q: Queue, g: string) {
    && RingKnown(q) && q.length == Total(q.groups)
    && g != "" && g in q.groups && q.groups[g] != [] && g !in q.ring.keys
  }

  lemma AddKeepsCount(q: Queue, x: Item)
    requires q.length == Total(q.groups)
    ensures Add(q, x).length == Total(Add(q, x).groups)
  {
    var fifo := if x.group in q.groups then q.groups[x.group] else [];
    TotalUpdate(q.groups, x.group, fifo + [x]);
  }

  lemma DoneKeepsCount(q: Queue, x: Item)
    requires q.length == Total(q.groups)
    ensures Done(q, x).length == Total(Done(q, x).groups)
  {
    TotalUpdate(q.groups, x.group, (if x.group in q.groups then q.groups[x.group] + [x] else []));
  }

  lemma PopKeepsCount(q: Queue, g: string)
    requires q.length == Total(q.groups) && g in q.groups && q.groups[g] != []
    ensures Pop(q, g).length == Total(Pop(q, g).groups)
  {
    TotalUpdate(q.groups, g, q.groups[g][1..]);
  }

  /** A `Get` that returns serves another group. */
  lemma GetPassesOver(q: Queue, g: string)
    requires Starved(q, g) && Returns(q, GetCall)
    ensures !Serves(q, GetCall, g) && Starved(AfterGet(q), g) && AfterGet(q).groups[g] == q.groups[g]
  {
    if AnswerOf(q).Handed? {
      var h, ring := StopKey(q.groups, q.ring), StopRing(q.groups, q.ring);
      assert ring.keys == q.ring.keys && h != g;
      PopKeepsCount(q.(ring := ring), h);
    }
  }

  lemma CollectPassesOver(q: Queue, g: string, h: string)
    requires Starved(q, g)
    ensures Starved(Collect(q, h), g) && Collect(q, h).groups[g] == q.groups[g]
  {
    CollectKeepsRingKnown(q, h);
    if h in q.groups && q.groups[h] == [] {
      TotalSplit(q.groups, h);
      if h in q.ring.keys {
        RemovedKey(q.ring, h);
      }
    }
  }

  lemma CallPassesOver(q: Queue, c: Call, g: string)
    requires Starved(q, g) && Returns(q, c)
    ensures Starved(After(q, c), g) && !Serves(q, c, g)
    ensures q.groups[g] <= After(q, c).groups[g]
  {
    match c
    case AddCall(x) => AddKeepsCount(q, x);
    case GetCall => GetPassesOver(q, g);
    case DoneCall(x) => DoneKeepsCount(q, x);
    case CollectCall(h) => CollectPassesOver(q, g, h);
    case CloseCall =>
  }

  /** Over every run such a group is never served again: what waits in it stays there, in front of what is added. */
  lemma {:induction false} StarvedForever(q: Queue, calls: seq<Call>, g: string)
    requires Starved(q, g) && CallRun(q, calls)
    ensures Starved(AfterAll(q, calls), g) && !EverServes(q, calls, g)
    ensures q.groups[g] <= AfterAll(q, calls).groups[g]
    decreases |calls|
  {
    if calls != [] {
      CallPassesOver(q, calls[0], g);
      StarvedForever(After(q, calls[0]), calls[1..], g);
    }
  }

  /** And `Get` does not wait any more: with nothing for the other groups it searches forever. */
  lemma StarvedSpins(q: Queue, g: string)
    requires Starved(q, g) && q.ring.keys != [] && forall h :: h in q.ring.keys ==> q.groups[h] == []
    ensures q.length > 0 && forall k: nat :: !Ends(q.groups, AskedKey(q.ring, k))
  {
    TotalSplit(q.groups, g);
    forall k: nat
      ensures !Ends(q.groups, AskedKey(q.ring, k))
    {
      AskedIsKnown(q.ring, k);
    }
  }

  /** One lost item and a later addition starve the tenant, from any sound queue. */
  lemma LostThenStarved(q: Queue, x: Item, y: Item)
    requires Holding(q, x) && x.group != "" && y.group == x.group && y != x && y !in q.dirty && y !in q.processing
    ensures Stuck(Lost(q, x), x) && Starved(Add(Lost(q, x), y), x.group) && Queued(Add(Lost(q, x), y), y)
  {
    LostShape(q, x);
    LostState(q, x);
    AddKeepsCount(Lost(q, x), y);
  }

  /** Where a worker stands that took the only item of an otherwise empty queue. */
  lemma OneTaken(q: Queue, x: Item)
    requires QInv(q) && !q.closed && q.length == 0 && x !in q.dirty && x !in q.processing
    ensures var r := Add(q, x);
            && Servable(r.groups, r.ring) && Got(r) == x
            && var t := Get(r);
               && QInv(t) && !t.closed && t.length == 0 && x in t.processing && x !in t.dirty && x.group in t.groups
               && t.dirty == q.dirty && t.processing == q.processing + {x} && q.groups.Keys <= t.groups.Keys
  {
    OnlyItem(q, x);
    var r := Add(q, x);
    GetKeeps(r);
  }

  /** Two tenants, the second of which loses an item: from then on no worker gets anything. */
  lemma SpinningRun(z: Item, x: Item, y: Item)
    requires z.group != x.group && y.group == x.group && y != x
    ensures var q1 := Add(EMPTY_QUEUE, z);
            && Servable(q1.groups, q1.ring) && Got(q1) == z
            && var q2 := Add(Done(Get(q1), z), x);
               && Servable(q2.groups, q2.ring) && Got(q2) == x
               && var s := Add(Lost(Get(q2), x), y);
                  s.length == 1 && RingKnown(s) && forall k: nat :: !Ends(s.groups, AskedKey(s.ring, k))
  {
    EmptyQueueOk();
    OneTaken(EMPTY_QUEUE, z);
    var idle := Done(Get(Add(EMPTY_QUEUE, z)), z);
    DoneKeeps(Get(Add(EMPTY_QUEUE, z)), z);
    OneTaken(idle, x);
    var q := Get(Add(idle, x));
    assert z.group in q.groups;
    LostGroupBlocks(q, x, y);
  }

  /** One tenant that loses an item: the next `Get` crashes. */
  lemma CrashingRun(x: Item, y: Item)
    requires y.group == x.group != "" && y != x
    ensures var q1 := Add(EMPTY_QUEUE, x);
            && Servable(q1.groups, q1.ring) && Got(q1) == x
            && var s := Add(Lost(Get(q1), x), y);
               Answers(s) && AnswerOf(s) == Crash
  {
    EmptyQueueOk();
    var q1 := Add(EMPTY_QUEUE, x);
    OneTaken(EMPTY_QUEUE, x);
    var q := Get(q1);
    assert q1.groups.Keys == {x.group};
    LostGroupBlocks(q, x, y);
  }
}
