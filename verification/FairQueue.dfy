/** The fair queue object; every method holds the queue's lock. */
module FairQueues {
  import opened WeightedRoundRobin
  import opened Balancer
  import Q = QueueModel

  type Item = Q.Item

  class FifoQueue {
    var queue: seq<Item>

    constructor ()
      ensures queue == []
    {
      queue := [];
    }

    method Add(x: Item)
      modifies this
      ensures queue == old(queue) + [x]
    {
      queue := queue + [x];
    }

    /** The head, or no item and the news that the queue is empty. */
    method Get() returns (x: Item, empty: bool)
      modifies this
      ensures empty <==> old(queue) == []
      ensures queue == if empty then [] else old(queue)[1..]
      ensures !empty ==> x == old(queue)[0]
    {
      if |queue| == 0 {
        return Q.Item("", ""), true;
      }
      x, queue := queue[0], queue[1..];
      empty := false;
    }
  }

  class FairQueue {
    const balancer: WeightedRR
    var queueGroup: map<string, FifoQueue>
    var length: int
    var dirty: set<Item>
    var processing: set<Item>
    var shuttingDown: bool

    ghost predicate Valid()
      reads `queueGroup, balancer
    {
      && balancer.Valid() && Unit(balancer.nodes) && balancer !in Objects() && this !in Objects()
      && (forall g, h :: g in queueGroup && h in queueGroup && g != h ==> queueGroup[g] != queueGroup[h])
    }

    ghost function Objects(): set<object>
      reads `queueGroup
    {
      set g | g in queueGroup :: queueGroup[g]
    }

    ghost function View(): Q.Groups
      reads `queueGroup, Objects()
    {
      map g | g in queueGroup :: queueGroup[g].queue
    }

    ghost function State(): Q.Queue
      reads this, balancer, Objects()
    {
      Q.Queue(View(), dirty, processing, length, balancer.AsRing(), shuttingDown)
    }

    constructor ()
      ensures Valid() && State() == Q.EMPTY_QUEUE && fresh(balancer) && Objects() == {}
    {
      balancer := new WeightedRR();
      queueGroup, length, dirty, processing, shuttingDown := map[], 0, {}, {}, false;
    }

    /** What happened to one FIFO object is what happened to its entry in the view. */
    twostate lemma OneChanged(g: string)
      requires old(Valid()) && queueGroup == old(queueGroup) && g in queueGroup
      requires forall h :: h in queueGroup && h != g ==> unchanged(queueGroup[h])
      ensures View() == old(View())[g := queueGroup[g].queue]
    {
    }

    method Append(x: Item)
      requires Valid() && x.group in queueGroup
      modifies Objects()
      ensures Valid() && View() == old(View())[x.group := old(View())[x.group] + [x]]
      ensures balancer.AsRing() == old(balancer.AsRing())
    {
      queueGroup[x.group].Add(x);
      OneChanged(x.group);
    }

    method NewGroup(g: string)
      requires Valid() && g !in queueGroup
      modifies `queueGroup, balancer
      ensures Valid() && fresh(Objects() - old(Objects()))
      ensures g in queueGroup
      ensures View() == old(View())[g := []] && balancer.AsRing() == RingAdd(old(balancer.AsRing()), g)
    {
      Enroll(g);
      Register(g);
    }

    method Enroll(g: string)
      requires Valid()
      modifies balancer
      ensures Valid() && View() == old(View()) && balancer.AsRing() == RingAdd(old(balancer.AsRing()), g)
    {
      balancer.AddEqual(g);
    }

    method Register(g: string)
      requires Valid() && g !in queueGroup
      modifies `queueGroup
      ensures Valid() && fresh(Objects() - old(Objects())) && g in queueGroup && View() == old(View())[g := []]
    {
      var fifo := new FifoQueue();
      queueGroup := queueGroup[g := fifo];
      assert View() == old(View())[g := []];
    }

    /** The FIFO of the group, made on demand. */
    method EnsureGroup(g: string)
      requires Valid()
      modifies `queueGroup, balancer
      ensures Valid() && fresh(Objects() - old(Objects())) && g in queueGroup
      ensures View() == if g in old(View()) then old(View()) else old(View())[g := []]
      ensures balancer.AsRing() == if g in old(View()) then old(balancer.AsRing()) else RingAdd(old(balancer.AsRing()), g)
    {
      if g !in queueGroup {
        NewGroup(g);
      }
    }

    method Push(x: Item, ghost q: Q.Queue)
      requires Valid() && q == State()
      modifies `queueGroup, `length, balancer, Objects()
      ensures Valid() && fresh(Objects() - old(Objects()))
      ensures State() == Q.Push(q, x)
    {
      PushView(x, q.groups, q.ring);
      length := length + 1;
    }

    method PushView(x: Item, ghost groups: Q.Groups, ghost ring: Ring)
      requires Valid() && groups == View() && ring == balancer.AsRing()
      modifies `queueGroup, balancer, Objects()
      ensures Valid() && fresh(Objects() - old(Objects()))
      ensures View() == groups[x.group := (if x.group in groups then groups[x.group] else []) + [x]]
      ensures balancer.AsRing() == if x.group in groups then ring else RingAdd(ring, x.group)
    {
      EnsureGroup(x.group);
      ghost var mid := View();
      assert mid[x.group] == if x.group in groups then groups[x.group] else [];
      assert mid[x.group := mid[x.group] + [x]] == groups[x.group := mid[x.group] + [x]];
      Append(x);
    }

    method Add(x: Item)
      requires Valid()
      modifies this, balancer, Objects()
      ensures Valid() && fresh(Objects() - old(Objects()))
      ensures State() == Q.Add(old(State()), x)
    {
      if shuttingDown || x in dirty {
        return;
      }
      dirty := dirty + {x};
      if x in processing {
        return;
      }
      Push(x, State());
    }

    method Ask() returns (g: string)
      requires Valid()
      modifies balancer
      ensures Valid() && View() == old(View())
      ensures old(balancer.AsRing()).keys == [] ==> balancer.AsRing() == old(balancer.AsRing()) && g == ""
      ensures old(balancer.AsRing()).keys != [] ==>
                balancer.AsRing() == RingNext(old(balancer.AsRing())) && g == RingKey(balancer.AsRing())
    {
      g := balancer.Next();
    }

    /** Asks the balancer until it names a group with an item, or one that does not exist. */
    method NextGroup(ghost groups: Q.Groups, ghost ring: Ring) returns (g: string)
      requires Valid() && groups == View() && ring == balancer.AsRing() && Q.Reaches(groups, ring)
      modifies balancer
      ensures Valid() && View() == groups
      ensures balancer.AsRing() == Q.StopRing(groups, ring) && g == Q.StopKey(groups, ring)
    {
      ghost var r := ring;
      while true
        invariant Valid() && View() == groups && r == balancer.AsRing()
        invariant r.keys == ring.keys && Q.Reaches(groups, r) && Q.StopRing(groups, ring) == Q.StopRing(groups, r)
        decreases if ring.keys == [] then 0 else Ahead(|ring.keys|, r.pos, Q.SomeFull(groups, ring.keys))
      {
        if ring.keys != [] {
          r := Q.ServeStep(groups, r);
        }
        g := Ask();
        assert g in groups ==> groups[g] == queueGroup[g].queue;
        if g !in queueGroup || queueGroup[g].queue != [] {
          return;
        }
      }
    }

    /** The item is with a worker now. */
    method Hand(x: Item, ghost q: Q.Queue)
      requires Valid() && q == State()
      modifies `length, `processing, `dirty
      ensures Valid()
      ensures State() == q.(length := q.length - 1, processing := q.processing + {x}, dirty := q.dirty - {x})
    {
      length := length - 1;
      processing := processing + {x};
      dirty := dirty - {x};
    }

    /** Takes the head of a group and hands it out. */
    method Take(g: string, ghost q: Q.Queue) returns (x: Item)
      requires Valid() && q == State() && g in q.groups && q.groups[g] != []
      modifies `length, `processing, `dirty, Objects()
      ensures Valid() && State() == Q.Pop(q, g) && x == q.groups[g][0]
    {
      assert View()[g] == queueGroup[g].queue;
      x := TakeHead(g);
      Hand(x, q.(groups := q.groups[g := q.groups[g][1..]]));
    }

    /**
     The guard says that the wait of the condition variable is over and that the search stops, which
     `SearchEndsIff` in QueueSearch.dfy puts in terms of the balancer's answers.
     */
    method Get(ghost q: Q.Queue) returns (r: Q.Answer)
      requires Valid() && q == State() && Q.Answers(q)
      modifies `length, `processing, `dirty, balancer, Objects()
      ensures Valid() && State() == Q.AfterGet(q) && r == Q.AnswerOf(q)
    {
      if length == 0 {
        return Q.ShutDown;
      }
      var g := NextGroup(q.groups, q.ring);
      if g !in queueGroup {
        return Q.Crash;
      }
      var x := Take(g, q.(ring := Q.StopRing(q.groups, q.ring)));
      return Q.Handed(x);
    }

    method TakeHead(g: string) returns (x: Item)
      requires Valid() && g in queueGroup && queueGroup[g].queue != []
      modifies Objects()
      ensures Valid() && balancer.AsRing() == old(balancer.AsRing())
      ensures x == old(View())[g][0] && View() == old(View())[g := old(View())[g][1..]]
    {
      var item, _ := queueGroup[g].Get();
      x := item;
      OneChanged(g);
    }

    method Done(x: Item, ghost q: Q.Queue)
      requires Valid() && q == State()
      modifies `queueGroup, `processing, `length, Objects()
      ensures Valid() && fresh(Objects() - old(Objects()))
      ensures State() == Q.Done(q, x)
    {
      Release(x, q);
      if x in dirty {
        Requeue(x, q.(processing := q.processing - {x}));
      }
    }

    method Release(x: Item, ghost q: Q.Queue)
      requires Valid() && q == State()
      modifies `processing
      ensures Valid() && State() == q.(processing := q.processing - {x})
    {
      processing := processing - {x};
    }

    /** Back into its FIFO; a FIFO that has to be made again starts empty, and the balancer is not told. */
    method Requeue(x: Item, ghost q: Q.Queue)
      requires Valid() && q == State()
      modifies `queueGroup, `length, Objects()
      ensures Valid() && fresh(Objects() - old(Objects()))
      ensures State() == if x.group !in q.groups then q.(groups := q.groups[x.group := []])
                         else q.(groups := q.groups[x.group := q.groups[x.group] + [x]], length := q.length + 1)
    {
      if x.group !in queueGroup {
        Register(x.group);
      } else {
        Append(x);
        length := length + 1;
      }
    }

    method ShutDown()
      requires Valid()
      modifies `shuttingDown
      ensures Valid() && State() == old(State()).(closed := true)
    {
      shuttingDown := true;
    }

    method DropGroup(g: string)
      requires Valid() && g in queueGroup && queueGroup[g].queue == []
      modifies `queueGroup, balancer
      ensures Valid() && Objects() <= old(Objects())
      ensures State() == Q.Collect(old(State()), g) && queueGroup == old(queueGroup) - {g}
    {
      assert old(View())[g] == [];
      Dismiss(g);
      Unregister(g);
    }

    method Dismiss(g: string)
      requires Valid()
      modifies balancer
      ensures Valid() && View() == old(View()) && balancer.AsRing() == RingRemove(old(balancer.AsRing()), g)
    {
      balancer.Remove(g);
    }

    method Unregister(g: string)
      requires Valid()
      modifies `queueGroup
      ensures Valid() && Objects() <= old(Objects()) && queueGroup == old(queueGroup) - {g} && View() == old(View()) - {g}
    {
      queueGroup := queueGroup - {g};
      assert View() == old(View()) - {g};
    }

    /** A collection pass over the groups in any order; `expired` are those idle for too long. */
    method CheckAndCleanIdleQueue(expired: set<string>, ghost q: Q.Queue) returns (ghost dropped: seq<string>)
      requires Valid() && q == State()
      modifies `queueGroup, balancer
      ensures Valid() && Objects() <= old(Objects())
      ensures State() == CollectAll(q, dropped)
      ensures forall g :: g in dropped <==> g in expired && g in q.groups && q.groups[g] == []
      ensures View() == map g | g in q.groups && g !in dropped :: q.groups[g]
    {
      dropped := [];
      var todo := queueGroup.Keys;
      while todo != {}
        invariant Valid() && todo <= queueGroup.Keys && Objects() <= old(Objects())
        invariant State() == CollectAll(q, dropped) && todo <= q.groups.Keys
        invariant forall g :: g in dropped <==> g in q.groups && g !in todo && g in expired && q.groups[g] == []
        decreases todo
      {
        var g :| g in todo;
        todo := todo - {g};
        CollectAllGroups(q, dropped);
        assert View()[g] == q.groups[g];
        if g in expired && queueGroup[g].queue == [] {
          DropGroup(g);
          assert (dropped + [g])[..|dropped|] == dropped;
          dropped := dropped + [g];
        }
      }
      CollectAllGroups(q, dropped);
    }
  }

  function CollectAll(q: Q.Queue, groups: seq<string>): Q.Queue {
    if groups == [] then q else Q.Collect(CollectAll(q, groups[..|groups| - 1]), groups[|groups| - 1])
  }

  /** Dropping idle groups one by one leaves exactly the others. */
  lemma {:induction false} CollectAllGroups(q: Q.Queue, dropped: seq<string>)
    requires forall g :: g in dropped ==> g in q.groups && q.groups[g] == []
    ensures CollectAll(q, dropped).groups == map g | g in q.groups && g !in dropped :: q.groups[g]
  {
    if dropped != [] {
      var n := |dropped| - 1;
      assert dropped == dropped[..n] + [dropped[n]];
      CollectAllGroups(q, dropped[..n]);
    }
  }
}
