/** The balancer object, and the ring it is when all weights are equal to one. */
module Balancer {
  import opened Resources
  import opened WeightedRoundRobin

  /** Group names in the order they were added, and the position last served (-1 before the first). */
  datatype Ring = Ring(keys: seq<string>, pos: int)

  predicate Distinct(keys: seq<string>) {
    forall j, k :: 0 <= j < k < |keys| ==> keys[j] != keys[k]
  }

  predicate ValidRing(r: Ring) {
    Distinct(r.keys) && -1 <= r.pos && (r.pos < |r.keys| || r.pos == -1)
  }

  /** With a single group the position is not moved. */
  function RingNext(r: Ring): Ring
    requires r.keys != []
  {
    if |r.keys| == 1 then r else r.(pos := if r.pos + 1 == |r.keys| then 0 else r.pos + 1)
  }

  function RingKey(r: Ring): string
    requires ValidRing(r) && r.keys != [] && (|r.keys| == 1 || r.pos >= 0)
  {
    if |r.keys| == 1 then r.keys[0] else r.keys[r.pos]
  }

  function RingAdd(r: Ring, key: string): Ring {
    if key in r.keys then r else r.(keys := r.keys + [key])
  }

  function IndexOf(keys: seq<string>, key: string): (i: nat)
    requires key in keys
    ensures i < |keys| && keys[i] == key
  {
    if keys[0] == key then 0 else 1 + IndexOf(keys[1..], key)
  }

  function RingRemove(r: Ring, key: string): Ring {
    if key !in r.keys then r
    else
      var i := IndexOf(r.keys, key);
      Ring(r.keys[..i] + r.keys[i + 1..], if r.pos >= i then r.pos - 1 else r.pos)
  }

  /** The group that is asked next. */
  function Following(r: Ring): string
    requires ValidRing(r) && r.keys != []
  {
    RingKey(RingNext(r))
  }

  /** A group that leaves takes nobody's turn with it: whoever was next still is, or the one behind the leaver. */
  lemma RemovalKeepsTurns(r: Ring, g: string)
    requires ValidRing(r) && g in r.keys && |r.keys| >= 2
    ensures var t := RingRemove(r, g);
            && ValidRing(t) && t.keys != []
            && Following(t) == if Following(r) != g then Following(r) else Following(RingNext(r))
  {
    var i := IndexOf(r.keys, g);
    var t := RingRemove(r, g);
    assert forall j :: 0 <= j < |t.keys| ==> t.keys[j] == r.keys[if j < i then j else j + 1];
  }

  /** A new group is asked after all the others of the round, which keep their turns. */
  lemma AdditionWaits(r: Ring, g: string)
    requires ValidRing(r) && g !in r.keys && |r.keys| >= 2
    ensures var t := RingAdd(r, g);
            && ValidRing(t) && t.keys == r.keys + [g]
            && Following(t) == if r.pos == |r.keys| - 1 then g else Following(r)
  {
  }

  function Keys(nodes: seq<Node>): (r: seq<string>)
    ensures |r| == |nodes| && forall j :: 0 <= j < |r| ==> r[j] == nodes[j].key
  {
    if nodes == [] then [] else Keys(nodes[..|nodes| - 1]) + [nodes[|nodes| - 1].key]
  }

  lemma StepMod(i: int, n: int)
    requires n > 0 && -1 <= i < n
    ensures (i + 1) % n == if i + 1 == n then 0 else i + 1
  {
  }

  ghost predicate Unit(nodes: seq<Node>) {
    forall j :: 0 <= j < |nodes| ==> nodes[j].weight == 1
  }

  /** With equal weights every node reaches the weight asked for, so each call moves one place on. */
  lemma UnitPick(nodes: seq<Node>, g: int, max: int, s: Scan)
    requires Pool(nodes, g, max) && -1 <= s.i < |nodes| && s.cw <= max && Unit(nodes)
    ensures Pick(nodes, g, max, s).i == if s.i + 1 == |nodes| then 0 else s.i + 1
  {
  }

  /** One turn of the search. */
  lemma PickTurn(nodes: seq<Node>, g: int, max: int, s: Scan, heaviest: nat)
    requires Pool(nodes, g, max) && -1 <= s.i < |nodes| && s.cw <= max && heaviest < |nodes| && nodes[heaviest].weight == max
    ensures var t := Advance(|nodes|, g, max, s);
            && 0 <= t.i < |nodes| && t.cw <= max
            && Pick(nodes, g, max, s) == (if nodes[t.i].weight >= t.cw then t else Pick(nodes, g, max, t))
            && (nodes[t.i].weight < t.cw ==> Ahead(|nodes|, t.i, heaviest) < Ahead(|nodes|, s.i, heaviest))
  {
  }

  lemma CommonTrans(nodes: seq<Node>, g: int, h: int)
    requires Common(nodes, g) && h > 0 && Multiple(g, h)
    ensures Common(nodes, h)
  {
    forall j | 0 <= j < |nodes|
      ensures Multiple(nodes[j].weight, h)
    {
      MultipleTrans(nodes[j].weight, g, h);
    }
  }

  class WeightedRR {
    var nodes: seq<Node>
    var keySet: set<string>
    var n: int
    var gcd: int
    var maxW: int
    var i: int
    var cw: int

    ghost predicate Valid()
      reads this
    {
      && n == |nodes| && Distinct(Keys(nodes)) && keySet == (set k | k in Keys(nodes)) && Positive(nodes)
      && (if n > 0 then Pool(nodes, gcd, maxW) && Greatest(nodes, gcd) && -1 <= i < n && cw <= maxW
          else (gcd == 0 && maxW == 0) || (gcd == -1 && maxW == -1 && i == -1 && cw == 0))
    }

    ghost function AsRing(): Ring
      reads this
    {
      Ring(Keys(nodes), if n == 0 then -1 else i)
    }

    constructor ()
      ensures Valid() && Unit(nodes) && AsRing() == Ring([], -1)
    {
      nodes, keySet := [], {};
      n, gcd, maxW, i, cw := 0, 0, 0, 0, 0;
    }

    method Next() returns (key: string)
      requires Valid()
      modifies `i, `cw
      ensures Valid()
      ensures n == 0 ==> key == "" && unchanged(this)
      ensures n == 1 ==> key == nodes[0].key && unchanged(this)
      ensures n > 1 ==> Scan(i, cw) == Pick(nodes, gcd, maxW, Scan(old(i), old(cw))) && key == nodes[i].key
      ensures n > 0 && Unit(nodes) ==> AsRing() == RingNext(old(AsRing())) && key == RingKey(AsRing())
    {
      if n == 0 {
        return "";
      }
      if n == 1 {
        return nodes[0].key;
      }
      ghost var start := Scan(i, cw);
      Search();
      if Unit(nodes) {
        UnitPick(nodes, gcd, maxW, start);
      }
      return nodes[i].key;
    }

    /** Moves on until a node reaches the weight asked for. */
    method Search()
      requires n == |nodes| && Pool(nodes, gcd, maxW) && -1 <= i < n && cw <= maxW
      modifies `i, `cw
      ensures 0 <= i < n && Scan(i, cw) == Pick(nodes, gcd, maxW, Scan(old(i), old(cw)))
    {
      ghost var start := Scan(i, cw);
      ghost var heaviest := SomeMax(nodes, maxW);
      while true
        invariant -1 <= i < n && cw <= maxW
        invariant Pick(nodes, gcd, maxW, start) == Pick(nodes, gcd, maxW, Scan(i, cw))
        decreases Ahead(|nodes|, i, heaviest)
      {
        PickTurn(nodes, gcd, maxW, Scan(i, cw), heaviest);
        StepMod(i, n);
        i := (i + 1) % n;
        if i == 0 {
          cw := cw - gcd;
          if cw <= 0 {
            cw := maxW;
          }
        }
        if nodes[i].weight >= cw {
          return;
        }
      }
    }

    /** A new node goes to the end, whatever its weight; only a positive one leaves the pool in order. */
    method Add(ref: string, weight: int)
      requires Valid()
      modifies this
      ensures nodes == if ref in old(keySet) then old(nodes) else old(nodes) + [Node(ref, weight)]
      ensures keySet == old(keySet) + {ref}
      ensures weight > 0 || ref in old(keySet) ==> Valid() && AsRing() == RingAdd(old(AsRing()), ref)
      ensures weight <= 0 && ref !in old(keySet) ==> !Positive(nodes) && n == |nodes|
      ensures weight <= 0 || ref in old(keySet) ==> gcd == old(gcd) && maxW == old(maxW) && i == old(i) && cw == old(cw)
    {
      if ref in keySet {
        return;
      }
      if weight > 0 {
        AddWeighted(ref, weight);
      } else {
        AddWeightless(ref, weight);
      }
    }

    method AddWeightless(ref: string, weight: int)
      requires weight <= 0 && n == |nodes|
      modifies `nodes, `keySet, `n
      ensures nodes == old(nodes) + [Node(ref, weight)] && keySet == old(keySet) + {ref} && n == |nodes| && !Positive(nodes)
    {
      nodes := nodes + [Node(ref, weight)];
      assert nodes[n].weight <= 0;
      keySet := keySet + {ref};
      n := n + 1;
    }

    method AddWeighted(ref: string, weight: int)
      requires Valid() && weight > 0 && ref !in keySet
      modifies this
      ensures Valid() && AsRing() == RingAdd(old(AsRing()), ref)
      ensures nodes == old(nodes) + [Node(ref, weight)] && keySet == old(keySet) + {ref}
    {
      Weigh(weight);
      SnocNode(nodes, ref, weight);
      SnocPool(nodes, Node(ref, weight), gcd, old(maxW), maxW);
      SnocGreatest(nodes, Node(ref, weight), gcd);
      nodes := nodes + [Node(ref, weight)];
      keySet := keySet + {ref};
      n := n + 1;
    }

    static lemma SnocNode(nodes: seq<Node>, ref: string, weight: int)
      requires ref !in Keys(nodes) && Distinct(Keys(nodes))
      ensures var keys := Keys(nodes + [Node(ref, weight)]);
              && keys == Keys(nodes) + [ref] && Distinct(keys)
              && (set k | k in keys) == (set k | k in Keys(nodes)) + {ref}
    {
      assert (nodes + [Node(ref, weight)])[..|nodes|] == nodes;
    }

    static lemma SnocGreatest(nodes: seq<Node>, x: Node, g: int)
      requires Common(nodes + [x], g)
      requires forall d :: Multiple(x.weight, d) && (|nodes| > 0 ==> Common(nodes, d)) ==> Multiple(g, d)
      ensures Greatest(nodes + [x], g)
    {
      var more := nodes + [x];
      forall d | Common(more, d)
        ensures Multiple(g, d)
      {
        assert more[|nodes|] == x && forall j :: 0 <= j < |nodes| ==> more[j] == nodes[j];
      }
    }

    static lemma SnocPool(nodes: seq<Node>, x: Node, g: int, oldMax: int, newMax: int)
      requires Positive(nodes) && x.weight > 0 && g > 0 && Multiple(x.weight, g)
      requires |nodes| > 0 ==> Common(nodes, g) && IsMax(nodes, oldMax)
      requires newMax == if |nodes| > 0 && x.weight < oldMax then oldMax else x.weight
      ensures Pool(nodes + [x], g, newMax)
    {
      var more := nodes + [x];
      assert more[..|nodes|] == nodes;
      MaxSnoc(nodes, more, oldMax, newMax);
      assert forall j :: 0 <= j < |nodes| ==> more[j] == nodes[j];
    }

    /** What the queue does: every group has weight one. */
    method AddEqual(ref: string)
      requires Valid() && Unit(nodes)
      modifies this
      ensures Valid() && Unit(nodes) && AsRing() == RingAdd(old(AsRing()), ref)
    {
      Add(ref, 1);
    }

    /** Brings divisor and maximum up to date for one more weight. */
    method Weigh(weight: int)
      requires Valid() && weight > 0
      modifies `gcd, `maxW, `i, `cw
      ensures gcd > 0 && Multiple(weight, gcd) && (n > 0 ==> Common(nodes, gcd))
      ensures forall d :: Multiple(weight, d) && (n > 0 ==> Common(nodes, d)) ==> Multiple(gcd, d)
      ensures maxW == if n > 0 && weight < old(maxW) then old(maxW) else weight
      ensures n > 0 ==> i == old(i) && cw == old(cw)
      ensures n == 0 ==> i == -1 && cw == 0
    {
      if gcd == 0 {
        gcd, maxW, i, cw := weight, weight, -1, 0;
        MultipleSelf(weight);
      } else {
        var g := Gcd(gcd, weight);
        if |nodes| > 0 {
          CommonTrans(nodes, gcd, g);
        }
        gcd := g;
        if maxW < weight {
          maxW := weight;
        }
      }
    }

    static lemma MaxSnoc(before: seq<Node>, more: seq<Node>, oldMax: int, newMax: int)
      requires |more| == |before| + 1 && more[..|before|] == before
      requires |before| > 0 ==> IsMax(before, oldMax)
      requires |before| > 0 ==> newMax == if oldMax < more[|before|].weight then more[|before|].weight else oldMax
      requires |before| == 0 ==> newMax == more[0].weight
      ensures IsMax(more, newMax)
    {
      assert forall j :: 0 <= j < |before| ==> more[j] == before[j];
      if |before| > 0 {
        var j :| 0 <= j < |before| && before[j].weight == oldMax;
        assert more[j].weight == oldMax;
      }
    }

    method WeightMax() returns (max: int)
      requires Positive(nodes)
      ensures if nodes == [] then max == -1 else IsMax(nodes, max)
    {
      max := -1;
      for j := 0 to |nodes|
        invariant forall k :: 0 <= k < j ==> nodes[k].weight <= max
        invariant if j == 0 then max == -1 else exists k :: 0 <= k < j && nodes[k].weight == max
      {
        if nodes[j].weight > max {
          max := nodes[j].weight;
        }
      }
    }

    method WeightGcd() returns (d: int)
      requires Positive(nodes)
      ensures if nodes == [] then d == -1 else Greatest(nodes, d)
      ensures Divisor(nodes) == Some(d)
    {
      d := -1;
      for j := 0 to |nodes|
        invariant if j == 0 then d == -1 else d > 0 && Greatest(nodes[..j], d)
        invariant Divisor(nodes[..j]) == Some(d)
      {
        assert nodes[..j + 1] == nodes[..j] + [nodes[j]] && nodes[..j + 1][..j] == nodes[..j];
        if d == -1 {
          d := nodes[j].weight;
          MultipleSelf(d);
        } else {
          var g := Gcd(d, nodes[j].weight);
          CommonTrans(nodes[..j], d, g);
          d := g;
        }
        SnocGreatest(nodes[..j], nodes[j], d);
      }
      assert nodes[..|nodes|] == nodes;
    }

    method Remove(ref: string)
      requires Valid()
      modifies this
      ensures Valid() && AsRing() == RingRemove(old(AsRing()), ref)
      ensures ref !in Keys(old(nodes)) ==> unchanged(this)
      ensures ref in Keys(old(nodes)) ==> cw == 0 && keySet == old(keySet) - {ref} && ref !in Keys(nodes)
      ensures Unit(old(nodes)) ==> Unit(nodes)
    {
      if ref !in keySet {
        return;
      }
      var j := Find(ref);
      RemoveAt(j);
    }

    method RemoveAt(j: nat)
      requires Valid() && j < |nodes|
      modifies this
      ensures Valid() && (Unit(old(nodes)) ==> Unit(nodes)) && cw == 0 && keySet == old(keySet) - {old(nodes)[j].key}
      ensures AsRing() == Ring(Keys(old(nodes))[..j] + Keys(old(nodes))[j + 1..], if old(i) >= j then old(i) - 1 else old(i))
    {
      DropNode(j);
      cw := 0;
      maxW := WeightMax();
      gcd := WeightGcd();
      assert n > 0 ==> 0 <= maxW;
    }

    method DropNode(j: nat)
      requires Valid() && j < |nodes|
      modifies `nodes, `i, `keySet, `n
      ensures nodes == old(nodes)[..j] + old(nodes)[j + 1..] && n == |nodes|
      ensures Distinct(Keys(nodes)) && keySet == (set k | k in Keys(nodes)) && Positive(nodes)
      ensures keySet == old(keySet) - {old(nodes)[j].key}
      ensures i == (if old(i) >= j then old(i) - 1 else old(i)) && -1 <= i && (i < n || i == -1)
      ensures Keys(nodes) == Keys(old(nodes))[..j] + Keys(old(nodes))[j + 1..]
      ensures Unit(old(nodes)) ==> Unit(nodes)
    {
      ghost var before := nodes;
      DropIndex(before, j);
      keySet := keySet - {nodes[j].key};
      nodes := nodes[..j] + nodes[j + 1..];
      assert nodes == before[..j] + before[j + 1..];
      if i >= j {
        i := i - 1;
      }
      n := |nodes|;
    }

    method Find(ref: string) returns (j: nat)
      requires ref in Keys(nodes)
      ensures j < |nodes| && nodes[j].key == ref && j == IndexOf(Keys(nodes), ref)
    {
      j := 0;
      while nodes[j].key != ref
        invariant j < |nodes| && ref in Keys(nodes)[j..]
        invariant IndexOf(Keys(nodes), ref) == j + IndexOf(Keys(nodes)[j..], ref)
        decreases |nodes| - j
      {
        assert Keys(nodes)[j..][1..] == Keys(nodes)[j + 1..];
        j := j + 1;
      }
    }

    static lemma DropIndex(nodes: seq<Node>, j: nat)
      requires j < |nodes| && Distinct(Keys(nodes)) && Positive(nodes)
      ensures var rest := nodes[..j] + nodes[j + 1..];
              && Keys(rest) == Keys(nodes)[..j] + Keys(nodes)[j + 1..]
              && Distinct(Keys(rest)) && Positive(rest) && (Unit(nodes) ==> Unit(rest))
              && (set k | k in Keys(rest)) == (set k | k in Keys(nodes)) - {nodes[j].key}
    {
      var keys, less := Keys(nodes), Keys(nodes[..j] + nodes[j + 1..]);
      assert less == keys[..j] + keys[j + 1..];
      DropKey(keys, j);
    }

    static lemma DropKey(keys: seq<string>, j: nat)
      requires j < |keys| && Distinct(keys)
      ensures var less := keys[..j] + keys[j + 1..];
              Distinct(less) && (set k | k in less) == (set k | k in keys) - {keys[j]}
    {
      var less := keys[..j] + keys[j + 1..];
      forall k | k in keys && k != keys[j]
        ensures k in less
      {
        var m :| 0 <= m < |keys| && keys[m] == k;
        assert less[if m < j then m else m - 1] == k;
      }
      forall m | 0 <= m < |less|
        ensures less[m] in keys && less[m] != keys[j]
      {
        assert less[m] == keys[if m < j then m else m + 1];
      }
    }
  }
}
