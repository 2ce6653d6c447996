/** The fair work queue as values: one FIFO per tenant group, dirty and processing sets, and the ring of groups. */
module QueueModel {
  import opened Sums
  import opened WeightedRoundRobin
  import opened Balancer

  datatype Item = Item(group: string, id: string)

  type Groups = map<string, seq<Item>>

  datatype Queue = Queue(
    groups: Groups, dirty: set<Item>, processing: set<Item>, length: int, ring: Ring, closed: bool)

  const EMPTY_QUEUE: Queue := Queue(map[], {}, {}, 0, Ring([], -1), false)

  predicate Queued(q: Queue, x: Item) {
    x.group in q.groups && x in q.groups[x.group]
  }

  // ---------- operations ----------

  /** Puts an item at the end of its group's FIFO, creating FIFO and ring entry for a new group. */
  function Push(q: Queue, x: Item): Queue {
    var known := x.group in q.groups;
    var fifo := if known then q.groups[x.group] else [];
    q.(groups := q.groups[x.group := fifo + [x]],
       ring := if known then q.ring else RingAdd(q.ring, x.group),
       length := q.length + 1)
  }

  function Add(q: Queue, x: Item): Queue {
    if q.closed || x in q.dirty then q
    else
      var marked := q.(dirty := q.dirty + {x});
      if x in q.processing then marked else Push(marked, x)
  }

  /** Takes the head of group `g`. */
  function Pop(q: Queue, g: string): Queue
    requires g in q.groups && q.groups[g] != []
  {
    var x := q.groups[g][0];
    q.(groups := q.groups[g := q.groups[g][1..]], length := q.length - 1,
       processing := q.processing + {x}, dirty := q.dirty - {x})
  }

  /** `Done`: a dirty item goes back to its FIFO; if the FIFO is gone an empty one is made and the item is dropped. */
  function Done(q: Queue, x: Item): Queue {
    var r := q.(processing := q.processing - {x});
    if x !in q.dirty then r
    else if x.group !in q.groups then r.(groups := r.groups[x.group := []])
    else r.(groups := r.groups[x.group := r.groups[x.group] + [x]], length := r.length + 1)
  }

  /** Drops one idle group; a collection pass drops the expired groups one after the other. */
  function Collect(q: Queue, g: string): Queue {
    if g in q.groups && q.groups[g] == [] then q.(groups := q.groups - {g}, ring := RingRemove(q.ring, g)) else q
  }

  // ---------- choosing the next group ----------

  predicate Full(groups: Groups, keys: seq<string>, j: int) {
    0 <= j < |keys| && keys[j] in groups && groups[keys[j]] != []
  }

  ghost predicate Servable(groups: Groups, r: Ring) {
    && ValidRing(r)
    && (forall j :: 0 <= j < |r.keys| ==> r.keys[j] in groups)
    && exists j :: Full(groups, r.keys, j)
  }

  ghost function SomeFull(groups: Groups, keys: seq<string>): nat
    requires exists j :: Full(groups, keys, j)
  {
    var j :| Full(groups, keys, j);
    j
  }

  /** The loop of `Get`: ask the balancer until it names a group with an item. */
  ghost function Serve(groups: Groups, r: Ring): (t: Ring)
    requires Servable(groups, r)
    ensures t.keys == r.keys && Servable(groups, t) && (|t.keys| == 1 || t.pos >= 0)
    ensures groups[RingKey(t)] != []
    decreases Ahead(|r.keys|, r.pos, SomeFull(groups, r.keys))
  {
    var t := RingNext(r);
    if groups[RingKey(t)] != [] then t else Serve(groups, t)
  }

  /** One question to the balancer. */
  lemma ServeStep(groups: Groups, r: Ring) returns (t: Ring)
    requires Servable(groups, r)
    ensures t == RingNext(r) && t.keys == r.keys && Servable(groups, t) && (|t.keys| == 1 || t.pos >= 0)
    ensures RingKey(t) in groups
    ensures Serve(groups, r) == if groups[RingKey(t)] != [] then t else Serve(groups, t)
    ensures groups[RingKey(t)] == [] ==>
              Ahead(|r.keys|, t.pos, SomeFull(groups, r.keys)) < Ahead(|r.keys|, r.pos, SomeFull(groups, r.keys))
  {
    t := RingNext(r);
  }

  ghost function Get(q: Queue): Queue
    requires Servable(q.groups, q.ring)
  {
    var t := Serve(q.groups, q.ring);
    Pop(q.(ring := t), RingKey(t))
  }

  ghost function Got(q: Queue): Item
    requires Servable(q.groups, q.ring)
  {
    q.groups[RingKey(Serve(q.groups, q.ring))][0]
  }

  // ---------- `Get` on any queue, also one whose invariant is broken ----------

  /** `Crash` is the dereference of the FIFO of a group that is not there. */
  datatype Answer = Handed(x: Item) | ShutDown | Crash

  /** The search stops: at a group with an item, or at once if a balancer without groups names none that is idle. */
  ghost predicate Reaches(groups: Groups, r: Ring) {
    Servable(groups, r) || (r.keys == [] && ("" !in groups || groups[""] != []))
  }

  /** Where the balancer stands when the search stops; without groups it does not move. */
  ghost function StopRing(groups: Groups, r: Ring): Ring
    requires Reaches(groups, r)
  {
    if r.keys == [] then r else Serve(groups, r)
  }

  /** The group it names then; without groups that is the empty name. */
  ghost function StopKey(groups: Groups, r: Ring): (g: string)
    requires Reaches(groups, r)
    ensures g in groups ==> groups[g] != []
    ensures r.keys != [] ==> g in groups
  {
    if r.keys == [] then "" else RingKey(Serve(groups, r))
  }

  /** The wait is over, and the search will be, too. */
  ghost predicate Answers(q: Queue) {
    (q.length != 0 || q.closed) && (q.length != 0 ==> Reaches(q.groups, q.ring))
  }

  ghost function AnswerOf(q: Queue): Answer
    requires Answers(q)
  {
    if q.length == 0 then ShutDown
    else
      var g := StopKey(q.groups, q.ring);
      if g in q.groups then Handed(q.groups[g][0]) else Crash
  }

  ghost function AfterGet(q: Queue): Queue
    requires Answers(q)
  {
    if AnswerOf(q).Handed? then Pop(q.(ring := StopRing(q.groups, q.ring)), StopKey(q.groups, q.ring)) else q
  }

  lemma AnswerIsGet(q: Queue)
    requires Servable(q.groups, q.ring) && q.length != 0
    ensures Answers(q) && AnswerOf(q) == Handed(Got(q)) && AfterGet(q) == Get(q)
  {
  }

  // ---------- the number of queued items ----------

  function Lengths(groups: Groups): map<string, int> {
    map g | g in groups :: |groups[g]|
  }

  ghost function Total(groups: Groups): nat {
    SumBounds(Lengths(groups));
    Sum(Lengths(groups))
  }

  lemma TotalSplit(groups: Groups, g: string)
    requires g in groups
    ensures Total(groups) == |groups[g]| + Total(groups - {g})
  {
    SumSplit(Lengths(groups), g);
    assert Lengths(groups) - {g} == Lengths(groups - {g});
  }

  lemma TotalUpdate(groups: Groups, g: string, fifo: seq<Item>)
    ensures Total(groups[g := fifo]) == Total(groups - {g}) + |fifo|
    ensures g in groups ==> Total(groups) == Total(groups - {g}) + |groups[g]|
    ensures g !in groups ==> Total(groups) == Total(groups - {g})
  {
    var more := groups[g := fifo];
    TotalSplit(more, g);
    assert more - {g} == groups - {g};
    if g in groups {
      TotalSplit(groups, g);
    } else {
      assert groups - {g} == groups;
    }
  }

  lemma TotalPositive(groups: Groups)
    requires Total(groups) > 0
    ensures exists g :: g in groups && groups[g] != []
  {
    SumBounds(Lengths(groups));
    var g :| g in groups && Lengths(groups)[g] != 0;
  }

  // ---------- the invariant ----------

  /** Items sit in their own group's FIFO, once. */
  predicate FifoOk(g: string, fifo: seq<Item>) {
    && (forall j :: 0 <= j < |fifo| ==> fifo[j].group == g)
    && (forall j, k :: 0 <= j < k < |fifo| ==> fifo[j] != fifo[k])
  }

  ghost predicate RingOk(q: Queue) {
    ValidRing(q.ring) && (set k | k in q.ring.keys) == q.groups.Keys
  }

  ghost predicate QInv(q: Queue) {
    && (forall g :: g in q.groups ==> FifoOk(g, q.groups[g]))
    && (forall x :: Queued(q, x) <==> x in q.dirty && x !in q.processing)
    && q.length == Total(q.groups)
    && RingOk(q)
  }

  lemma EmptyQueueOk()
    ensures QInv(EMPTY_QUEUE)
  {
  }

  lemma RingAddOk(q: Queue, g: string)
    requires RingOk(q) && g !in q.groups
    ensures ValidRing(RingAdd(q.ring, g))
    ensures (set k | k in RingAdd(q.ring, g).keys) == q.groups.Keys + {g}
  {
    assert g !in q.ring.keys by {
      assert g !in (set k | k in q.ring.keys);
    }
  }

  lemma RingRemoveOk(q: Queue, g: string)
    requires RingOk(q) && g in q.groups
    ensures ValidRing(RingRemove(q.ring, g))
    ensures (set k | k in RingRemove(q.ring, g).keys) == q.groups.Keys - {g}
  {
    assert g in (set k | k in q.ring.keys);
    WeightedRR.DropKey(q.ring.keys, IndexOf(q.ring.keys, g));
  }

  lemma PushKeeps(q: Queue, x: Item)
    requires QInv(q) && x !in q.dirty && x !in q.processing && !q.closed
    ensures QInv(Add(q, x))
  {
    var r := Add(q, x);
    var fifo := if x.group in q.groups then q.groups[x.group] else [];
    assert !Queued(q, x);
    TotalUpdate(q.groups, x.group, fifo + [x]);
    if x.group !in q.groups {
      RingAddOk(q, x.group);
    }
    forall y
      ensures Queued(r, y) <==> y in r.dirty && y !in r.processing
    {
      assert Queued(q, y) <==> y in q.dirty && y !in q.processing;
    }
  }

  lemma AddKeeps(q: Queue, x: Item)
    requires QInv(q)
    ensures QInv(Add(q, x))
  {
    if !q.closed && x !in q.dirty {
      if x in q.processing {
        var r := Add(q, x);
        forall y
          ensures Queued(r, y) <==> y in r.dirty && y !in r.processing
        {
          assert Queued(q, y) <==> y in q.dirty && y !in q.processing;
        }
      } else {
        PushKeeps(q, x);
      }
    }
  }

  /**
   An item that is added is marked, and waits in its group unless someone is at it; added to a queue that is
   shut down, or twice, it changes nothing. Nothing else is marked, and the others keep their places.
   */
  lemma AddMeans(q: Queue, x: Item)
    requires QInv(q)
    ensures q.closed || x in q.dirty ==> Add(q, x) == q
    ensures !q.closed ==> Add(q, x).dirty == q.dirty + {x}
    ensures !q.closed && x !in q.processing ==> Queued(Add(q, x), x)
    ensures Add(q, x).processing == q.processing && Add(q, x).closed == q.closed
    ensures forall g :: g in q.groups ==> g in Add(q, x).groups && q.groups[g] <= Add(q, x).groups[g]
  {
    if x in q.dirty {
      assert q.dirty + {x} == q.dirty;
      assert Queued(q, x) <==> x in q.dirty && x !in q.processing;
    }
  }

  lemma InvServable(q: Queue)
    requires QInv(q) && q.length > 0
    ensures Servable(q.groups, q.ring)
  {
    TotalPositive(q.groups);
    var g :| g in q.groups && q.groups[g] != [];
    assert g in (set k | k in q.ring.keys);
    var j :| 0 <= j < |q.ring.keys| && q.ring.keys[j] == g;
    assert Full(q.groups, q.ring.keys, j);
    forall k | 0 <= k < |q.ring.keys|
      ensures q.ring.keys[k] in q.groups
    {
      assert q.ring.keys[k] in (set k | k in q.ring.keys);
    }
  }

  /** A sound queue answers exactly when something waits or it is shut down; what waits is handed out first. */
  lemma AnswersIff(q: Queue)
    requires QInv(q)
    ensures Answers(q) <==> q.length > 0 || q.closed
    ensures Answers(q) && q.length > 0 ==> AnswerOf(q).Handed? && Queued(q, AnswerOf(q).x)
    ensures Answers(q) && q.length == 0 ==> AnswerOf(q) == ShutDown && AfterGet(q) == q
  {
    if q.length > 0 {
      InvServable(q);
      var t := Serve(q.groups, q.ring);
      assert FifoOk(RingKey(t), q.groups[RingKey(t)]);
    }
  }

  lemma PopKeeps(q: Queue, g: string)
    requires QInv(q) && g in q.groups && q.groups[g] != []
    ensures QInv(Pop(q, g))
  {
    var r := Pop(q, g);
    var x := q.groups[g][0];
    TotalUpdate(q.groups, g, q.groups[g][1..]);
    assert FifoOk(g, q.groups[g]);
    assert q.groups[g] == [x] + q.groups[g][1..];
    forall y
      ensures Queued(r, y) <==> y in r.dirty && y !in r.processing
    {
      assert Queued(q, y) <==> y in q.dirty && y !in q.processing;
    }
  }

  lemma MovedRing(q: Queue, t: Ring)
    requires QInv(q) && ValidRing(t) && t.keys == q.ring.keys
    ensures QInv(q.(ring := t))
  {
    forall y
      ensures Queued(q.(ring := t), y) <==> y in q.dirty && y !in q.processing
    {
      assert Queued(q, y) <==> y in q.dirty && y !in q.processing;
    }
  }

  /** `Get` hands out a dirty item that nobody is processing, and keeps the invariant. */
  lemma GetKeeps(q: Queue)
    requires QInv(q) && q.length > 0
    ensures Servable(q.groups, q.ring)
    ensures QInv(Get(q)) && Queued(q, Got(q)) && Got(q) in q.dirty && Got(q) !in q.processing
    ensures Get(q).processing == q.processing + {Got(q)} && Get(q).dirty == q.dirty - {Got(q)}
  {
    InvServable(q);
    var t := Serve(q.groups, q.ring);
    MovedRing(q, t);
    PopKeeps(q.(ring := t), RingKey(t));
    assert FifoOk(RingKey(t), q.groups[RingKey(t)]);
    assert Queued(q, Got(q));
  }

  /** The item may go back to its FIFO: it is being processed and the FIFO is still there. */
  predicate DoneSafe(q: Queue, x: Item) {
    x in q.dirty ==> x in q.processing && x.group in q.groups
  }

  lemma DoneKeeps(q: Queue, x: Item)
    requires QInv(q) && DoneSafe(q, x)
    ensures QInv(Done(q, x))
  {
    var r := Done(q, x);
    if x in q.dirty {
      assert !Queued(q, x);
      TotalUpdate(q.groups, x.group, q.groups[x.group] + [x]);
    }
    forall y
      ensures Queued(r, y) <==> y in r.dirty && y !in r.processing
    {
      assert Queued(q, y) <==> y in q.dirty && y !in q.processing;
    }
  }

  /** An unsafe `Done` queues an item twice or loses it. */
  lemma DoneBreaks(q: Queue, x: Item)
    requires QInv(q) && !DoneSafe(q, x)
    ensures !QInv(Done(q, x))
  {
    var r := Done(q, x);
    assert Queued(q, x) <==> x in q.dirty && x !in q.processing;
    if x in q.processing {
      assert !Queued(r, x);
    } else {
      var fifo := q.groups[x.group];
      var j :| 0 <= j < |fifo| && fifo[j] == x;
      var twice := r.groups[x.group];
      assert twice == fifo + [x] && twice[j] == twice[|fifo|];
      assert !FifoOk(x.group, twice);
    }
  }

  /** Exactly when `Done` keeps the invariant. */
  lemma DoneKeepsIff(q: Queue, x: Item)
    requires QInv(q)
    ensures QInv(Done(q, x)) <==> DoneSafe(q, x)
  {
    if DoneSafe(q, x) {
      DoneKeeps(q, x);
    } else {
      DoneBreaks(q, x);
    }
  }

  /** Dropping an idle group keeps the invariant, even while an item of the group is being processed. */
  lemma CollectKeeps(q: Queue, g: string)
    requires QInv(q)
    ensures QInv(Collect(q, g))
  {
    if g in q.groups && q.groups[g] == [] {
      TotalSplit(q.groups, g);
      RingRemoveOk(q, g);
      var r := Collect(q, g);
      forall y
        ensures Queued(r, y) <==> y in r.dirty && y !in r.processing
      {
        assert Queued(q, y) <==> y in q.dirty && y !in q.processing;
      }
    }
  }
}
