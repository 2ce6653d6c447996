/** Heap order on the times of a priority queue kept in a sequence, and what swaps do to it. */
module HeapOrder {

  function Parent(j: nat): nat
    requires j > 0
  {
    (j - 1) / 2
  }

  function Swapped<T>(s: seq<T>, i: nat, j: nat): seq<T>
    requires i < |s| && j < |s|
  {
    s[i := s[j]][j := s[i]]
  }

  lemma SwapKeepsElements<T>(s: seq<T>, i: nat, j: nat)
    requires i < |s| && j < |s|
    ensures forall w :: w in Swapped(s, i, j) <==> w in s
  {
    var t := Swapped(s, i, j);
    forall w | w in s
      ensures w in t
    {
      var k :| 0 <= k < |s| && s[k] == w;
      assert t[if k == i then j else if k == j then i else k] == w;
    }
  }

  predicate Heap(ts: seq<int>, n: nat)
    requires n <= |ts|
  {
    forall j :: 0 < j < n ==> ts[Parent(j)] <= ts[j]
  }

  /** The children of `i` are not before the parent of `i`. */
  predicate Bridged(ts: seq<int>, n: nat, i: nat)
    requires n <= |ts|
  {
    i > 0 ==> forall j :: 0 < j < n && Parent(j) == i ==> ts[Parent(i)] <= ts[j]
  }

  /** Ordered, except possibly between `i` and its parent. */
  predicate HeapButUp(ts: seq<int>, n: nat, i: nat)
    requires n <= |ts|
  {
    Bridged(ts, n, i) && forall j :: 0 < j < n && j != i ==> ts[Parent(j)] <= ts[j]
  }

  /** Ordered, except possibly between `i` and its children. */
  predicate HeapButDown(ts: seq<int>, n: nat, i: nat)
    requires n <= |ts|
  {
    Bridged(ts, n, i) && forall j :: 0 < j < n && Parent(j) != i ==> ts[Parent(j)] <= ts[j]
  }

  /** Ordered, except possibly around `i`. */
  predicate HeapBut(ts: seq<int>, n: nat, i: nat)
    requires n <= |ts|
  {
    Bridged(ts, n, i) && forall j :: 0 < j < n && j != i && Parent(j) != i ==> ts[Parent(j)] <= ts[j]
  }

  lemma UpStep(ts: seq<int>, n: nat, j: nat)
    requires n <= |ts| && 0 < j < n && HeapButUp(ts, n, j) && ts[j] < ts[Parent(j)]
    ensures HeapButUp(Swapped(ts, Parent(j), j), n, Parent(j))
  {
  }

  /** The smaller child moves up. */
  lemma DownStep(ts: seq<int>, n: nat, i: nat, c: nat)
    requires n <= |ts| && i < n && HeapBut(ts, n, i) && EarlierChild(ts, n, i, c) && ts[c] < ts[i]
    ensures HeapButDown(Swapped(ts, i, c), n, c)
  {
  }

  lemma UpDone(ts: seq<int>, n: nat, j: nat)
    requires n <= |ts| && j < n && HeapButUp(ts, n, j) && (j == 0 || ts[Parent(j)] <= ts[j])
    ensures Heap(ts, n)
  {
  }

  predicate NoEarlierChild(ts: seq<int>, n: nat, i: nat)
    requires i < n <= |ts|
  {
    forall j :: 0 < j < n && Parent(j) == i ==> ts[i] <= ts[j]
  }

  /** The two slots below `i`. */
  lemma ChildrenOf(i: nat, j: nat)
    requires j > 0
    ensures Parent(j) == i <==> j == 2 * i + 1 || j == 2 * i + 2
  {
  }

  lemma LeafDone(ts: seq<int>, n: nat, i: nat)
    requires i <= n <= |ts| && 2 * i + 1 >= n
    ensures i < n ==> NoEarlierChild(ts, n, i)
    ensures i == n && HeapBut(ts, n, i) ==> Heap(ts, n)
    ensures i == n && HeapButDown(ts, n, i) ==> Heap(ts, n)
  {
    forall j | 0 < j < n
      ensures Parent(j) != i
    {
      ChildrenOf(i, j);
    }
  }

  /** `c` is the earlier child of `i`. */
  predicate EarlierChild(ts: seq<int>, n: nat, i: nat, c: nat)
    requires n <= |ts|
  {
    0 < c < n && Parent(c) == i && forall j :: 0 < j < n && Parent(j) == i ==> ts[c] <= ts[j]
  }

  lemma PickChild(ts: seq<int>, n: nat, i: nat)
    requires i < n <= |ts| && 2 * i + 1 < n
    ensures var j1 := 2 * i + 1;
            EarlierChild(ts, n, i, if j1 + 1 < n && ts[j1 + 1] < ts[j1] then j1 + 1 else j1)
  {
    forall j | 0 < j < n && Parent(j) == i
      ensures j == 2 * i + 1 || j == 2 * i + 2
    {
      ChildrenOf(i, j);
    }
  }

  lemma ChildLater(ts: seq<int>, n: nat, i: nat, c: nat)
    requires i < n <= |ts| && EarlierChild(ts, n, i, c) && ts[i] <= ts[c]
    ensures NoEarlierChild(ts, n, i)
  {
  }

  /** With no earlier child left, the order holds below; above it can only be broken where the entry started. */
  lemma DownDone(ts: seq<int>, n: nat, i: nat)
    requires i < n <= |ts| && NoEarlierChild(ts, n, i)
    ensures HeapBut(ts, n, i) ==> HeapButUp(ts, n, i)
    ensures HeapButDown(ts, n, i) ==> Heap(ts, n)
  {
  }

  /** The root is the earliest. */
  lemma {:induction false} RootIsLeast(ts: seq<int>, n: nat, j: nat)
    requires n <= |ts| && j < n && Heap(ts, n)
    ensures ts[0] <= ts[j]
    decreases j
  {
    if j > 0 {
      RootIsLeast(ts, n, Parent(j));
    }
  }

  /** A new last element can only be too early for its parent. */
  lemma EndMayRise(ts: seq<int>, t: int)
    requires Heap(ts, |ts|)
    ensures HeapButUp(ts + [t], |ts| + 1, |ts|)
  {
  }

  /** A time that moves forward leaves the order broken only towards the parent's side. */
  lemma LoweredAt(ts: seq<int>, i: nat, t: int)
    requires i < |ts| && Heap(ts, |ts|) && t < ts[i]
    ensures HeapBut(ts[i := t], |ts|, i)
  {
  }
}

/** The delayed additions: a heap of entries with back-indices, and the entry known for each item. */
module DelayHeap {
  import opened HeapOrder
  import Q = QueueModel

  type Item = Q.Item

  class WaitFor {
    const data: Item
    var readyAt: int
    var index: int

    constructor (data: Item, readyAt: int)
      ensures this.data == data && this.readyAt == readyAt
    {
      this.data, this.readyAt := data, readyAt;
      index := 0;
    }
  }

  class WaitingQueue {
    var pq: seq<WaitFor>
    var known: map<Item, WaitFor>

    ghost function Entries(): set<WaitFor>
      reads `pq
    {
      set w | w in pq
    }

    /** Every entry knows its slot; so no entry is in two slots. */
    ghost predicate Indexed()
      reads `pq, Entries()`index
    {
      forall i :: 0 <= i < |pq| ==> pq[i].index == i
    }

    ghost function Times(): (ts: seq<int>)
      reads `pq, Entries()`readyAt
      ensures |ts| == |pq| && forall i :: 0 <= i < |pq| ==> ts[i] == pq[i].readyAt
    {
      TimesOf(pq)
    }

    static ghost function TimesOf(s: seq<WaitFor>): (ts: seq<int>)
      reads (set w | w in s)`readyAt
      ensures |ts| == |s| && forall i :: 0 <= i < |s| ==> ts[i] == s[i].readyAt
    {
      if s == [] then [] else TimesOf(s[..|s| - 1]) + [s[|s| - 1].readyAt]
    }

    method Swap(i: nat, j: nat)
      requires Indexed() && i < |pq| && j < |pq|
      modifies `pq, Entries()`index
      ensures Indexed() && pq == Swapped(old(pq), i, j) && Entries() == old(Entries())
      ensures Times() == Swapped(old(Times()), i, j)
    {
      SwapKeepsElements(pq, i, j);
      pq := pq[i := pq[j]][j := pq[i]];
      pq[i].index := i;
      pq[j].index := j;
    }

    /** `up`: the entry at `j` rises while it is earlier than its parent. */
    method Up(j: nat)
      requires Indexed() && j < |pq| && HeapButUp(Times(), |pq|, j)
      modifies `pq, Entries()`index
      ensures Indexed() && Entries() == old(Entries()) && |pq| == old(|pq|) && Heap(Times(), |pq|)
    {
      var k: nat := j;
      while true
        invariant Indexed() && k < |pq| == old(|pq|) && Entries() == old(Entries()) && HeapButUp(Times(), |pq|, k)
        decreases k
      {
        var i: nat := if k == 0 then 0 else (k - 1) / 2;
        ghost var ts := Times();
        if i == k || !(pq[k].readyAt < pq[i].readyAt) {
          UpDone(ts, |pq|, k);
          return;
        }
        UpStep(ts, |pq|, k);
        Swap(i, k);
        k := i;
      }
    }

    /** The earlier of the two children. */
    method Child(i: nat, n: nat) returns (j: nat)
      requires i < n <= |pq| && 2 * i + 1 < n
      ensures EarlierChild(Times(), n, i, j) && i < j < n
    {
      PickChild(Times(), n, i);
      var j1 := 2 * i + 1;
      j := j1;
      var j2 := j1 + 1;
      if j2 < n && pq[j2].readyAt < pq[j1].readyAt {
        j := j2;
      }
    }

    /** One turn of `down`: the entry changes places with its earlier child, if that is earlier than it. */
    method SinkOnce(i: nat, n: nat) returns (next: nat)
      requires Indexed() && i <= n <= |pq| && HeapBut(Times(), n, i)
      modifies `pq, Entries()`index
      ensures Indexed() && Entries() == old(Entries()) && |pq| == old(|pq|) && pq[n..] == old(pq[n..])
      ensures next == i ==> pq == old(pq) && (i < n ==> NoEarlierChild(Times(), n, i))
      ensures next != i ==> i < next < n && HeapButDown(Times(), n, next)
    {
      ghost var ts := Times();
      var j1 := 2 * i + 1;
      if j1 >= n {
        LeafDone(ts, n, i);
        return i;
      }
      var j := Child(i, n);
      if !(pq[j].readyAt < pq[i].readyAt) {
        ChildLater(ts, n, i, j);
        return i;
      }
      DownStep(ts, n, i, j);
      Swap(i, j);
      return j;
    }

    /** `down`: the entry at `i0` sinks, within the first `n` slots, while a child is earlier. */
    method Down(i0: nat, n: nat) returns (moved: bool)
      requires Indexed() && i0 <= n <= |pq| && HeapBut(Times(), n, i0)
      modifies `pq, Entries()`index
      ensures Indexed() && Entries() == old(Entries()) && |pq| == old(|pq|) && pq[n..] == old(pq[n..])
      ensures if moved then Heap(Times(), n) else HeapButUp(Times(), n, i0)
    {
      var i: nat := i0;
      while true
        invariant Indexed() && i0 <= i <= n <= |pq| == old(|pq|) && Entries() == old(Entries())
        invariant pq[n..] == old(pq[n..])
        invariant HeapBut(Times(), n, i) && (i > i0 ==> i < n && HeapButDown(Times(), n, i))
        decreases n - i
      {
        var next := SinkOnce(i, n);
        if next == i {
          break;
        }
        i := next;
      }
      ghost var ts := Times();
      if i < n {
        DownDone(ts, n, i);
      }
      moved := i > i0;
    }

    method Fix(i: nat)
      requires Indexed() && i < |pq| && HeapBut(Times(), |pq|, i)
      modifies `pq, Entries()`index
      ensures Indexed() && Entries() == old(Entries()) && |pq| == old(|pq|) && Heap(Times(), |pq|)
    {
      var moved := Down(i, |pq|);
      if !moved {
        Up(i);
      }
    }

    method Push(w: WaitFor)
      requires Indexed() && w !in pq && Heap(Times(), |pq|)
      modifies `pq, Entries()`index, w`index
      ensures Indexed() && Entries() == old(Entries()) + {w} && Heap(Times(), |pq|)
    {
      Append(w);
      Up(|pq| - 1);
    }

    /** The repository's own `Push`: the entry goes to the end. */
    method Append(w: WaitFor)
      requires Indexed() && w !in pq && Heap(Times(), |pq|)
      modifies `pq, w`index
      ensures Indexed() && Entries() == old(Entries()) + {w} && |pq| == old(|pq|) + 1
      ensures HeapButUp(Times(), |pq|, |pq| - 1)
    {
      ghost var ts := Times();
      w.index := |pq|;
      pq := pq + [w];
      assert forall v :: v in pq <==> v in old(pq) || v == w;
      assert Times() == ts + [w.readyAt];
      EndMayRise(ts, w.readyAt);
    }

    /** `heap.Pop`: the root goes to the last slot, the rest is repaired, and the last slot is cut off. */
    method PopMin() returns (w: WaitFor)
      requires Indexed() && pq != [] && Heap(Times(), |pq|)
      modifies `pq, Entries()`index
      ensures w == old(pq)[0] && w.index == -1
      ensures Indexed() && Entries() == old(Entries()) - {w} && |pq| == old(|pq|) - 1 && Heap(Times(), |pq|)
    {
      var n := |pq| - 1;
      Swap(0, n);
      var moved := Down(0, n);
      w := pq[n];
      CutLast(w);
    }

    /** The queue's own `Pop`: cuts off the last slot. */
    method CutLast(item: WaitFor)
      requires Indexed() && pq != [] && item == pq[|pq| - 1]
      requires Heap(Times(), |pq| - 1) || HeapButUp(Times(), |pq| - 1, 0)
      modifies `pq, item`index
      ensures Indexed() && pq == old(pq)[..old(|pq|) - 1] && Entries() == old(Entries()) - {item}
      ensures Heap(Times(), |pq|) && item.index == -1
    {
      var n := |pq| - 1;
      ghost var ts := Times();
      assert forall i :: 0 <= i < n ==> pq[i] != item;
      item.index := -1;
      pq := pq[..n];
      assert forall v :: v in pq <==> v in old(pq) && v != item;
      assert Times() == ts[..n];
    }

    // ---------- entries and items ----------

    /** Known items and heap slots correspond one to one. */
    ghost predicate Matched()
      reads `pq, `known
    {
      && (forall x :: x in known ==> known[x] in Entries() && known[x].data == x)
      && (forall w :: w in Entries() ==> w.data in known && known[w.data] == w)
    }

    ghost predicate Valid()
      reads this, Entries()
    {
      Indexed() && Heap(Times(), |pq|) && Matched()
    }

    /** When each delayed item is due. */
    ghost function Pending(): map<Item, int>
      reads `known, known.Values`readyAt
    {
      map x | x in known :: known[x].readyAt
    }

    /** `insert`: a known item only moves to an earlier time. */
    method Insert(entry: WaitFor, ghost before: map<Item, int>)
      requires Valid() && entry !in Entries() && before == Pending()
      modifies this, Entries(), entry`index
      ensures Valid() && Pending() == Requested(before, entry.data, old(entry.readyAt))
    {
      if entry.data in known {
        var existing := known[entry.data];
        if existing.readyAt > entry.readyAt {
          BringForward(existing, entry.readyAt, before);
        }
      } else {
        InsertNew(entry, before);
      }
    }

    /** What the loop does with an arriving request: it is inserted, or handed to the queue at once. */
    method Receive(entry: WaitFor, now: int, ghost before: map<Item, int>) returns (direct: bool)
      requires Valid() && entry !in Entries() && before == Pending()
      modifies this, Entries(), entry`index
      ensures Valid() && direct == (old(entry.readyAt) <= now)
      ensures Pending() == Received(before, entry.data, old(entry.readyAt), now)
    {
      direct := entry.readyAt <= now;
      if !direct {
        Insert(entry, before);
      }
    }

    method InsertNew(entry: WaitFor, ghost before: map<Item, int>)
      requires Valid() && entry !in Entries() && entry.data !in known && before == Pending()
      modifies this, Entries()`index, entry`index
      ensures Valid() && Pending() == before[entry.data := entry.readyAt]
    {
      Push(entry);
      assert Pending() == before;
      Remember(entry);
    }

    method Remember(entry: WaitFor)
      requires Indexed() && Heap(Times(), |pq|) && entry in Entries() && entry.data !in known
      requires forall x :: x in known ==> known[x] in Entries() && known[x].data == x
      requires forall w :: w in Entries() && w != entry ==> w.data in known && known[w.data] == w
      modifies `known
      ensures Valid() && Pending() == old(Pending())[entry.data := entry.readyAt]
    {
      ghost var entries, p := Entries(), Pending();
      known := known[entry.data := entry];
      assert Entries() == entries;
      assert Matched();
      assert Pending() == p[entry.data := entry.readyAt];
    }

    /** A known item becomes due earlier. */
    method BringForward(w: WaitFor, t: int, ghost before: map<Item, int>)
      requires Valid() && w in pq && t < w.readyAt && before == Pending()
      modifies `pq, Entries()`index, w`readyAt
      ensures Valid() && Pending() == before[w.data := t]
    {
      assert w in Entries();
      Reschedule(w, t);
    }

    method Reschedule(w: WaitFor, t: int)
      requires Valid() && w in pq && t < w.readyAt
      modifies `pq, Entries()`index, w`readyAt
      ensures Valid() && Entries() == old(Entries()) && w.readyAt == t
    {
      ghost var ts := Times();
      LoweredAt(ts, w.index, t);
      w.readyAt := t;
      assert Times() == ts[w.index := t];
      Fix(w.index);
    }

    /** Takes out the earliest entry and forgets its item. */
    method Release() returns (x: Item)
      requires Valid() && pq != []
      modifies this, Entries()`index
      ensures Valid() && Entries() <= old(Entries()) && |pq| == old(|pq|) - 1
      ensures x in old(Pending()) && Pending() == old(Pending()) - {x} && x == old(pq)[0].data
    {
      ghost var p := Pending();
      var entry := PopMin();
      x := entry.data;
      assert Pending() == p;
      Drop(entry, p);
    }

    method Drop(entry: WaitFor, ghost p: map<Item, int>)
      requires Indexed() && Heap(Times(), |pq|) && entry !in Entries() && entry.data in known && known[entry.data] == entry
      requires p == Pending()
      requires forall x :: x in known ==> known[x].data == x && (x != entry.data ==> known[x] in Entries())
      requires forall w :: w in Entries() ==> w.data in known && known[w.data] == w
      modifies `known
      ensures Valid() && Pending() == p - {entry.data}
    {
      known := known - {entry.data};
    }

    /** Releases, in order of their times, exactly the items that are due at `now`, each once. */
    method Drain(now: int, ghost start: map<Item, int>) returns (released: seq<Item>)
      requires Valid() && start == Pending()
      modifies this, Entries()`index
      ensures Valid() && Pending() == Later(start, now)
      ensures Drained(start, now, released)
    {
      released := [];
      while |pq| > 0
        invariant Valid() && Entries() <= old(Entries())
        invariant Draining(start, now, released, Pending())
        decreases |pq|
      {
        ghost var p := Pending();
        RootFirst(p);
        if pq[0].readyAt > now {
          break;
        }
        var x := Release();
        DrainStep(start, now, released, p, x);
        released := released + [x];
      }
      DrainEnd(start, now, released, Pending());
    }

    lemma RootFirst(p: map<Item, int>)
      requires Valid() && pq != [] && p == Pending()
      ensures pq[0].data in p && p[pq[0].data] == pq[0].readyAt
      ensures forall x :: x in p ==> pq[0].readyAt <= p[x]
    {
      assert pq[0] in Entries();
      forall x | x in known
        ensures pq[0].readyAt <= known[x].readyAt
      {
        var j :| 0 <= j < |pq| && pq[j] == known[x];
        RootIsLeast(Times(), |pq|, j);
      }
    }
  }

  // ---------- requests, on the due times ----------

  function Requested(p: map<Item, int>, x: Item, t: int): map<Item, int> {
    p[x := if x in p && p[x] <= t then p[x] else t]
  }

  /** A delayed addition that arrives at time `now`, or a drain of what is due. */
  datatype Step = Request(x: Item, t: int, now: int) | Tick(now: int)

  /** A request already due when it arrives goes to the queue directly; an older entry of the item stays. */
  function Received(p: map<Item, int>, x: Item, t: int, now: int): map<Item, int> {
    if t > now then Requested(p, x, t) else p
  }

  function After(steps: seq<Step>): map<Item, int> {
    if steps == [] then map[]
    else
      var p := After(steps[..|steps| - 1]);
      match steps[|steps| - 1]
      case Request(x, t, now) => Received(p, x, t, now)
      case Tick(now) => Later(p, now)
  }

  /** The request asks to wait for `x` until `t`. */
  predicate Waits(s: Step, x: Item, t: int) {
    s.Request? && s.x == x && s.t == t && t > s.now
  }

  /**
   An item that waits has waited since some point `k`, before which it was not waiting; its due time is
   the least of the later times asked for since then. Requests that were due on arrival play no part.
   */
  lemma {:induction false} PendingIsMinimum(steps: seq<Step>, x: Item) returns (k: nat)
    requires x in After(steps)
    ensures k < |steps| && x !in After(steps[..k])
    ensures forall i :: k < i <= |steps| ==> x in After(steps[..i])
    ensures forall i, t :: k <= i < |steps| && Waits(steps[i], x, t) ==> After(steps)[x] <= t
    ensures exists i :: k <= i < |steps| && Waits(steps[i], x, After(steps)[x])
    decreases |steps|
  {
    var n := |steps| - 1;
    var front := steps[..n];
    assert steps[..|steps|] == steps;
    if x in After(front) {
      k := PendingIsMinimum(front, x);
      assert forall i :: 0 <= i <= n ==> front[..i] == steps[..i];
      var i :| k <= i < n && Waits(front[i], x, After(front)[x]);
      assert steps[i] == front[i];
      assert forall j :: k <= j < n ==> steps[j] == front[j];
      if After(steps)[x] != After(front)[x] {
        assert Waits(steps[n], x, After(steps)[x]);
      }
    } else {
      k := n;
      assert Waits(steps[n], x, After(steps)[x]);
    }
  }

  /** A request for a later time makes the item wait, no longer than asked; other items are not affected. */
  lemma RequestIsKept(p: map<Item, int>, x: Item, t: int, now: int)
    ensures var q := Received(p, x, t, now);
            && (t > now ==> x in q && q[x] == if x in p && p[x] < t then p[x] else t)
            && (t <= now ==> q == p)
            && forall y :: y != x ==> (y in q <==> y in p) && (y in p ==> q[y] == p[y])
  {
  }

  /** Nothing is forgotten: an item that was to wait and no longer does was released by a drain at or after its due time. */
  lemma {:induction false} ReleasedByDrain(steps: seq<Step>, i: nat, x: Item, t: int) returns (j: nat)
    requires i < |steps| && Waits(steps[i], x, t) && x !in After(steps)
    ensures i < j < |steps| && steps[j].Tick? && x in After(steps[..j]) && After(steps[..j])[x] <= steps[j].now
    decreases |steps|
  {
    var n := |steps| - 1;
    var front := steps[..n];
    if i == n {
      RequestIsKept(After(front), x, t, steps[n].now);
      assert false;
    } else if x in After(front) {
      j := n;
    } else {
      j := ReleasedByDrain(front, i, x, t);
      assert front[..j] == steps[..j];
    }
  }

  // ---------- draining, on the due times ----------

  function Later(p: map<Item, int>, now: int): map<Item, int> {
    map x | x in p && p[x] > now :: p[x]
  }

  ghost predicate Drained(start: map<Item, int>, now: int, released: seq<Item>) {
    && (forall x :: x in released <==> x in start && start[x] <= now)
    && (forall i, j :: 0 <= i < j < |released| ==> released[i] != released[j])
    && (forall i, j :: 0 <= i < j < |released| ==> start[released[i]] <= start[released[j]])
  }

  /** Half-way: `p` is what is left, all of it no earlier than what has been released. */
  ghost predicate Draining(start: map<Item, int>, now: int, released: seq<Item>, p: map<Item, int>) {
    && (forall x :: x in p ==> x in start && start[x] == p[x])
    && (forall x :: x in released <==> x in start && x !in p)
    && (forall x :: x in released ==> start[x] <= now)
    && (forall i, j :: 0 <= i < j < |released| ==> released[i] != released[j])
    && (forall i, j :: 0 <= i < j < |released| ==> start[released[i]] <= start[released[j]])
    && (forall x, y :: x in released && y in p ==> start[x] <= p[y])
  }

  lemma DrainStep(start: map<Item, int>, now: int, released: seq<Item>, p: map<Item, int>, x: Item)
    requires Draining(start, now, released, p) && x in p && p[x] <= now
    requires forall y :: y in p ==> p[x] <= p[y]
    ensures Draining(start, now, released + [x], p - {x})
  {
    assert forall i :: 0 <= i < |released| ==> released[i] in released;
  }

  lemma DrainEnd(start: map<Item, int>, now: int, released: seq<Item>, p: map<Item, int>)
    requires Draining(start, now, released, p) && forall x :: x in p ==> p[x] > now
    ensures p == Later(start, now) && Drained(start, now, released)
  {
  }
}
