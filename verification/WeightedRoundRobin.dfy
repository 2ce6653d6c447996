/**
 The weighted round-robin balancer that picks the next tenant group. In every full cycle each node is
 picked in proportion to its weight; with equal weights the balancer walks its nodes in a ring.
 */
module WeightedRoundRobin {
  import opened Resources

  datatype Node = Node(key: string, weight: int)

  function Times(m: int, g: int): int { m * g }

  ghost predicate Multiple(x: int, g: int) {
    exists m :: x == Times(m, g)
  }

  ghost predicate Positive(nodes: seq<Node>) {
    forall j :: 0 <= j < |nodes| ==> nodes[j].weight > 0
  }

  ghost predicate IsMax(nodes: seq<Node>, max: int) {
    && (forall j :: 0 <= j < |nodes| ==> nodes[j].weight <= max)
    && (exists j :: 0 <= j < |nodes| && nodes[j].weight == max)
  }

  ghost predicate Common(nodes: seq<Node>, g: int) {
    g > 0 && forall j :: 0 <= j < |nodes| ==> Multiple(nodes[j].weight, g)
  }

  /** The greatest common divisor of the weights: every other one divides it. */
  ghost predicate Greatest(nodes: seq<Node>, g: int) {
    Common(nodes, g) && forall d :: Common(nodes, d) ==> Multiple(g, d)
  }

  // ---------- the common divisor ----------

  /** The remainder as the program's language takes it: the sign follows the dividend. */
  function Rem(x: int, y: int): int
    requires y != 0
  {
    if x >= 0 then x % y else -((-x) % y)
  }

  lemma MultipleOfSum(x: int, y: int, g: int)
    requires y > 0 && x >= 0 && Multiple(y, g) && Multiple(x % y, g)
    ensures Multiple(x, g)
  {
    var a :| y == Times(a, g);
    var b :| x % y == Times(b, g);
    var q := x / y;
    assert x == y * q + x % y;
    assert (a * g) * q == (a * q) * g;
    assert x == Times(a * q + b, g);
  }

  lemma MultipleOfRest(x: int, y: int, g: int)
    requires y > 0 && x >= 0 && Multiple(y, g)
    ensures Multiple(x, g) <==> Multiple(x % y, g)
  {
    if Multiple(x % y, g) {
      MultipleOfSum(x, y, g);
    }
    if Multiple(x, g) {
      var a :| y == Times(a, g);
      var b :| x == Times(b, g);
      var q := x / y;
      assert x % y == x - y * q;
      assert (a * g) * q == (a * q) * g;
      assert x % y == Times(b - a * q, g);
    }
  }

  lemma MultipleTrans(x: int, y: int, g: int)
    requires Multiple(x, y) && Multiple(y, g)
    ensures Multiple(x, g)
  {
    var a :| x == Times(a, y);
    var b :| y == Times(b, g);
    assert a * (b * g) == (a * b) * g;
    assert x == Times(a * b, g);
  }

  lemma MultipleSelf(x: int)
    ensures Multiple(x, x) && Multiple(0, x)
  {
    assert x == Times(1, x) && 0 == Times(0, x);
  }

  /** What Euclid's loop answers for any two numbers; `None` is the division by zero. */
  function Euclid(x: int, y: int): Option<int>
    decreases if y < 0 then -y else y
  {
    if y == 0 then None
    else
      var t := Rem(x, y);
      if t > 0 then Euclid(y, t) else Some(y)
  }

  /** What the loop over the weights that a removal runs makes of them; -1 stands for none seen so far. */
  function Divisor(nodes: seq<Node>): Option<int> {
    if nodes == [] then Some(-1)
    else
      var d, w := Divisor(nodes[..|nodes| - 1]), nodes[|nodes| - 1].weight;
      if d.None? then None else if d.value == -1 then Some(w) else Euclid(d.value, w)
  }

  lemma {:induction false} EuclidPositive(x: int, y: int)
    requires x >= 0 && y > 0
    ensures Euclid(x, y).Some? && Euclid(x, y).value > 0
    decreases y
  {
    if Rem(x, y) > 0 {
      EuclidPositive(y, Rem(x, y));
    }
  }

  /** Among weights that are not negative, a zero behind the first place makes the next removal divide by zero. */
  lemma {:induction false} DivisorCrashesIff(nodes: seq<Node>)
    requires forall j :: 0 <= j < |nodes| ==> nodes[j].weight >= 0
    ensures Divisor(nodes).None? <==> exists j :: 1 <= j < |nodes| && nodes[j].weight == 0
    ensures nodes != [] && Divisor(nodes).Some? ==> Divisor(nodes).value >= 0
  {
    if nodes != [] {
      var n := |nodes| - 1;
      var front := nodes[..n];
      DivisorCrashesIff(front);
      assert forall j :: 0 <= j < n ==> front[j] == nodes[j];
      if Divisor(front).Some? && front != [] && nodes[n].weight > 0 {
        EuclidPositive(Divisor(front).value, nodes[n].weight);
      }
    }
  }

  /** Euclid's loop. After the pool was emptied it is called with x == -1, and then answers y. */
  method Gcd(x: int, y: int) returns (r: int)
    requires y > 0 && (x > 0 || x == -1)
    ensures r > 0 && Multiple(y, r) && (x > 0 ==> Multiple(x, r))
    ensures forall g :: Multiple(y, g) && (x > 0 ==> Multiple(x, g)) ==> Multiple(r, g)
    ensures Euclid(x, y) == Some(r)
  {
    var a, b := x, y;
    ghost var first := true;
    while true
      invariant b > 0 && (a > 0 || (first && a == -1)) && Euclid(x, y) == Euclid(a, b)
      invariant first ==> a == x && b == y
      invariant forall g :: Multiple(b, g) && (a > 0 ==> Multiple(a, g)) <==> Multiple(y, g) && (x > 0 ==> Multiple(x, g))
      decreases b
    {
      var t := Rem(a, b);
      if t > 0 {
        forall g | Multiple(b, g)
          ensures Multiple(a, g) <==> Multiple(t, g)
        {
          MultipleOfRest(a, b, g);
        }
        a, b := b, t;
        first := false;
      } else {
        MultipleSelf(b);
        if a > 0 {
          assert a == Times(a / b, b);
        }
        return b;
      }
    }
  }

  // ---------- the scan ----------

  /** The last node looked at, and the weight a node must reach to be picked. */
  datatype Scan = Scan(i: int, cw: int)

  /** Constants of the scan: the nodes, their common divisor and their largest weight. */
  ghost predicate Pool(nodes: seq<Node>, g: int, max: int) {
    |nodes| > 0 && Positive(nodes) && Common(nodes, g) && IsMax(nodes, max)
  }

  /** The weight asked for in the round that begins at node 0. */
  function NextLevel(g: int, max: int, cw: int): int {
    if cw - g <= 0 then max else cw - g
  }

  /** One turn of the loop: the weight asked for drops whenever node 0 comes up. */
  function Advance(n: nat, g: int, max: int, s: Scan): Scan
    requires n > 0 && -1 <= s.i < n
  {
    var i := if s.i + 1 == n then 0 else s.i + 1;
    Scan(i, if i == 0 then NextLevel(g, max, s.cw) else s.cw)
  }

  ghost function SomeMax(nodes: seq<Node>, max: int): nat
    requires IsMax(nodes, max)
  {
    var j :| 0 <= j < |nodes| && nodes[j].weight == max;
    j
  }

  /** Steps from position `i` forward to position `m` on a ring of `n`. */
  function Ahead(n: nat, i: int, m: nat): nat
    requires -1 <= i < n && m < n
  {
    if i < m then m - i else m - i + n
  }

  /** The scan of `Next`: forward until a node reaches the current weight; a heaviest node always does. */
  ghost function Pick(nodes: seq<Node>, g: int, max: int, s: Scan): (r: Scan)
    requires Pool(nodes, g, max) && -1 <= s.i < |nodes| && s.cw <= max
    ensures 0 <= r.i < |nodes| && r.cw <= max && nodes[r.i].weight >= r.cw
    decreases Ahead(|nodes|, s.i, SomeMax(nodes, max))
  {
    var t := Advance(|nodes|, g, max, s);
    if nodes[t.i].weight >= t.cw then t else Pick(nodes, g, max, t)
  }

  // ---------- one cycle, level by level ----------

  /** Nodes from index `j` on that reach weight `c`, in order. */
  function LevelFrom(nodes: seq<Node>, c: int, j: nat): seq<nat>
    requires j <= |nodes|
    decreases |nodes| - j
  {
    if j == |nodes| then []
    else (if nodes[j].weight >= c then [j] else []) + LevelFrom(nodes, c, j + 1)
  }

  /** The nodes picked from level `m * g` down to level `g`. */
  function Cycle(nodes: seq<Node>, g: int, m: nat): seq<nat> {
    if m == 0 then [] else LevelFrom(nodes, m * g, 0) + Cycle(nodes, g, m - 1)
  }

  /** What `k` calls of `Next` pick, starting at `s`. */
  ghost function Picks(nodes: seq<Node>, g: int, max: int, s: Scan, k: nat): seq<nat>
    requires Pool(nodes, g, max) && -1 <= s.i < |nodes| && s.cw <= max
    decreases k
  {
    if k == 0 then []
    else
      var t := Pick(nodes, g, max, s);
      [t.i as nat] + Picks(nodes, g, max, t, k - 1)
  }

  /** Where the scan stands after `k` calls. */
  ghost function Stand(nodes: seq<Node>, g: int, max: int, s: Scan, k: nat): (r: Scan)
    requires Pool(nodes, g, max) && -1 <= s.i < |nodes| && s.cw <= max
    ensures -1 <= r.i < |nodes| && r.cw <= max
    decreases k
  {
    if k == 0 then s else Stand(nodes, g, max, Pick(nodes, g, max, s), k - 1)
  }

  lemma {:induction false} PicksAppend(nodes: seq<Node>, g: int, max: int, s: Scan, k: nat, l: nat)
    requires Pool(nodes, g, max) && -1 <= s.i < |nodes| && s.cw <= max
    ensures Picks(nodes, g, max, s, k + l)
            == Picks(nodes, g, max, s, k) + Picks(nodes, g, max, Stand(nodes, g, max, s, k), l)
    ensures Stand(nodes, g, max, s, k + l) == Stand(nodes, g, max, Stand(nodes, g, max, s, k), l)
    decreases k
  {
    if k > 0 {
      PicksAppend(nodes, g, max, Pick(nodes, g, max, s), k - 1, l);
    }
  }

  /** From inside a level the remaining nodes of that level come first. */
  lemma {:induction false} PickInLevel(nodes: seq<Node>, g: int, max: int, s: Scan)
    requires Pool(nodes, g, max) && 0 <= s.i < |nodes| && s.cw <= max
    requires LevelFrom(nodes, s.cw, s.i + 1) != []
    ensures var level := LevelFrom(nodes, s.cw, s.i + 1);
            var t := Pick(nodes, g, max, s);
            t == Scan(level[0], s.cw) && LevelFrom(nodes, s.cw, t.i + 1) == level[1..]
    decreases |nodes| - s.i
  {
    if nodes[s.i + 1].weight < s.cw {
      PickInLevel(nodes, g, max, Scan(s.i + 1, s.cw));
    }
  }

  /** At the end of a level the scan goes on as it would from before node 0. */
  lemma {:induction false} PickWraps(nodes: seq<Node>, g: int, max: int, s: Scan)
    requires Pool(nodes, g, max) && 0 <= s.i < |nodes| && s.cw <= max
    requires LevelFrom(nodes, s.cw, s.i + 1) == []
    ensures Pick(nodes, g, max, s) == Pick(nodes, g, max, Scan(-1, s.cw))
    decreases |nodes| - s.i
  {
    if s.i + 1 < |nodes| {
      PickWraps(nodes, g, max, Scan(s.i + 1, s.cw));
    }
  }

  /** From before node 0 the first node of the next level comes first. */
  lemma EnterLevel(nodes: seq<Node>, g: int, max: int, s: Scan)
    requires Pool(nodes, g, max) && s.i == -1 && s.cw <= max
    ensures var c := NextLevel(g, max, s.cw);
            var level := LevelFrom(nodes, c, 0);
            var t := Pick(nodes, g, max, s);
            level != [] && t == Scan(level[0], c) && LevelFrom(nodes, c, t.i + 1) == level[1..]
  {
    var c := NextLevel(g, max, s.cw);
    LevelNonEmpty(nodes, c, 0, SomeMax(nodes, max));
    if nodes[0].weight < c {
      PickInLevel(nodes, g, max, Scan(0, c));
    }
  }

  /** Running through the rest of a level, and on as from before node 0. */
  lemma {:induction false} LevelRun(nodes: seq<Node>, g: int, max: int, s: Scan, level: seq<nat>)
    requires Pool(nodes, g, max) && 0 <= s.i < |nodes| && s.cw <= max && level == LevelFrom(nodes, s.cw, s.i + 1)
    ensures Picks(nodes, g, max, s, |level|) == level
    ensures Pick(nodes, g, max, Stand(nodes, g, max, s, |level|)) == Pick(nodes, g, max, Scan(-1, s.cw))
    decreases |level|
  {
    if level == [] {
      PickWraps(nodes, g, max, s);
    } else {
      PickInLevel(nodes, g, max, s);
      var t := Pick(nodes, g, max, s);
      LevelRun(nodes, g, max, t, level[1..]);
      FirstPick(nodes, g, max, s, t, |level| - 1);
    }
  }

  lemma {:induction false} LevelNonEmpty(nodes: seq<Node>, c: int, j: nat, m: nat)
    requires j <= m < |nodes| && nodes[m].weight >= c
    ensures LevelFrom(nodes, c, j) != []
    decreases m - j
  {
    if j < m {
      LevelNonEmpty(nodes, c, j + 1, m);
    }
  }

  /** One pick in front of the others. */
  lemma FirstPick(nodes: seq<Node>, g: int, max: int, s: Scan, t: Scan, k: nat)
    requires Pool(nodes, g, max) && -1 <= s.i < |nodes| && s.cw <= max && t == Pick(nodes, g, max, s)
    ensures Picks(nodes, g, max, s, k + 1) == [t.i as nat] + Picks(nodes, g, max, t, k)
    ensures Stand(nodes, g, max, s, k + 1) == Stand(nodes, g, max, t, k)
  {
  }

  /** A whole level, from before node 0. */
  lemma WholeLevel(nodes: seq<Node>, g: int, max: int, s: Scan)
    requires Pool(nodes, g, max) && s.i == -1 && s.cw <= max
    ensures var c := NextLevel(g, max, s.cw);
            var level := LevelFrom(nodes, c, 0);
            var t := Stand(nodes, g, max, s, |level|);
            && level != [] && Picks(nodes, g, max, s, |level|) == level
            && Pick(nodes, g, max, t) == Pick(nodes, g, max, Scan(-1, c))
  {
    EnterLevel(nodes, g, max, s);
    var c := NextLevel(g, max, s.cw);
    var level := LevelFrom(nodes, c, 0);
    var t := Pick(nodes, g, max, s);
    var rest := level[1..];
    LevelRun(nodes, g, max, t, rest);
    FirstPick(nodes, g, max, s, t, |rest|);
    assert level == [level[0]] + rest;
  }

  /** Two scans with the same next pick agree from then on. */
  lemma SameNext(nodes: seq<Node>, g: int, max: int, s: Scan, t: Scan, k: nat)
    requires Pool(nodes, g, max) && -1 <= s.i < |nodes| && s.cw <= max && -1 <= t.i < |nodes| && t.cw <= max
    requires Pick(nodes, g, max, s) == Pick(nodes, g, max, t) && k > 0
    ensures Picks(nodes, g, max, s, k) == Picks(nodes, g, max, t, k)
    ensures Stand(nodes, g, max, s, k) == Stand(nodes, g, max, t, k)
  {
  }

  /** From before level `m * g` the scan goes through all lower levels and ends ready to start over. */
  lemma {:induction false} CycleRun(nodes: seq<Node>, g: int, max: int, s: Scan, m: nat)
    requires Pool(nodes, g, max) && s.i == -1 && s.cw <= max
    requires m > 0 && m * g <= max && NextLevel(g, max, s.cw) == m * g
    ensures var cycle := Cycle(nodes, g, m);
            var t := Stand(nodes, g, max, s, |cycle|);
            && cycle != []
            && Picks(nodes, g, max, s, |cycle|) == cycle
            && Pick(nodes, g, max, t) == Pick(nodes, g, max, Scan(-1, 0))
    decreases m
  {
    WholeLevel(nodes, g, max, s);
    LowerLevel(g, m);
    if m > 1 {
      var below := Scan(-1, m * g);
      CycleRun(nodes, g, max, below, m - 1);
      JoinRuns(nodes, g, max, s, below, |LevelFrom(nodes, m * g, 0)|, |Cycle(nodes, g, m - 1)|);
    }
  }

  /** A run that ends where another begins continues with it. */
  lemma JoinRuns(nodes: seq<Node>, g: int, max: int, s: Scan, below: Scan, k: nat, l: nat)
    requires Pool(nodes, g, max) && -1 <= s.i < |nodes| && s.cw <= max && -1 <= below.i < |nodes| && below.cw <= max
    requires l > 0 && Pick(nodes, g, max, Stand(nodes, g, max, s, k)) == Pick(nodes, g, max, below)
    ensures Picks(nodes, g, max, s, k + l) == Picks(nodes, g, max, s, k) + Picks(nodes, g, max, below, l)
    ensures Stand(nodes, g, max, s, k + l) == Stand(nodes, g, max, below, l)
  {
    SameNext(nodes, g, max, Stand(nodes, g, max, s, k), below, l);
    PicksAppend(nodes, g, max, s, k, l);
  }

  lemma LowerLevel(g: int, m: nat)
    requires g > 0 && m > 0
    ensures m * g - g == (m - 1) * g
    ensures (m - 1) * g <= 0 <==> m == 1
    ensures (m - 1) * g <= m * g
  {
  }

  // ---------- how often a node occurs in a cycle ----------

  function Occurs(s: seq<nat>, j: nat): nat {
    if s == [] then 0 else (if s[0] == j then 1 else 0) + Occurs(s[1..], j)
  }

  lemma {:induction false} OccursAppend(s: seq<nat>, t: seq<nat>, j: nat)
    ensures Occurs(s + t, j) == Occurs(s, j) + Occurs(t, j)
  {
    if s == [] {
      assert s + t == t;
    } else {
      OccursAppend(s[1..], t, j);
      assert (s + t)[1..] == s[1..] + t;
    }
  }

  lemma {:induction false} OccursInLevel(nodes: seq<Node>, c: int, i: nat, j: nat)
    requires i <= |nodes| && j < |nodes|
    ensures Occurs(LevelFrom(nodes, c, i), j) == if i <= j && nodes[j].weight >= c then 1 else 0
    decreases |nodes| - i
  {
    if i < |nodes| {
      OccursInLevel(nodes, c, i + 1, j);
      OccursAppend(if nodes[i].weight >= c then [i] else [], LevelFrom(nodes, c, i + 1), j);
    }
  }

  lemma MulOrder(u: nat, m: nat, g: int)
    requires g > 0
    ensures u * g >= m * g <==> u >= m
  {
    if u >= m {
      assert u * g == m * g + (u - m) * g;
    } else {
      assert m * g == u * g + (m - u) * g;
      assert (m - u) * g > 0;
    }
  }

  lemma {:induction false} OccursInCycle(nodes: seq<Node>, g: int, m: nat, j: nat, u: nat)
    requires g > 0 && j < |nodes| && nodes[j].weight == u * g
    ensures Occurs(Cycle(nodes, g, m), j) == if u < m then u else m
    decreases m
  {
    if m > 0 {
      OccursInCycle(nodes, g, m - 1, j, u);
      OccursInLevel(nodes, m * g, 0, j);
      OccursAppend(LevelFrom(nodes, m * g, 0), Cycle(nodes, g, m - 1), j);
      MulOrder(u, m, g);
    }
  }

  /**
   Proportional service: in the cycle of picks from the balancer's starting point, the node with weight
   `u * gcd` is picked exactly `u` times, and the scan then stands where the next cycle begins.
   */
  lemma CycleIsProportional(nodes: seq<Node>, g: int, max: int, m: nat, j: nat, u: nat)
    requires Pool(nodes, g, max) && max == m * g && j < |nodes| && nodes[j].weight == u * g
    ensures var cycle := Cycle(nodes, g, m);
            var start := Scan(-1, 0);
            && Occurs(Picks(nodes, g, max, start, |cycle|), j) == u
            && Pick(nodes, g, max, Stand(nodes, g, max, start, |cycle|)) == Pick(nodes, g, max, start)
  {
    assert 0 < nodes[j].weight <= max;
    CycleRun(nodes, g, max, Scan(-1, 0), m);
    OccursInCycle(nodes, g, m, j, u);
    MulOrder(u, m, g);
    MulOrder(m, u, g);
  }

  /** From the second cycle on the scan repeats itself. */
  lemma CycleRepeats(nodes: seq<Node>, g: int, max: int, m: nat, k: nat)
    requires Pool(nodes, g, max) && max == m * g
    ensures var n, start := |Cycle(nodes, g, m)|, Scan(-1, 0);
            var t := Stand(nodes, g, max, start, k);
            Pick(nodes, g, max, Stand(nodes, g, max, t, n)) == Pick(nodes, g, max, t)
  {
    var n, start := |Cycle(nodes, g, m)|, Scan(-1, 0);
    CycleRun(nodes, g, max, start, m);
    if k > 0 {
      PicksAppend(nodes, g, max, start, k, n);
      PicksAppend(nodes, g, max, start, n, k);
      SameNext(nodes, g, max, Stand(nodes, g, max, start, n), start, k);
    }
  }

  lemma StandNext(nodes: seq<Node>, g: int, max: int, s: Scan, k: nat)
    requires Pool(nodes, g, max) && -1 <= s.i < |nodes| && s.cw <= max
    ensures Stand(nodes, g, max, s, k + 1) == Pick(nodes, g, max, Stand(nodes, g, max, s, k))
  {
    var t := Stand(nodes, g, max, s, k);
    PicksAppend(nodes, g, max, s, k, 1);
    FirstPick(nodes, g, max, t, Pick(nodes, g, max, t), 0);
  }

  /** A window of one cycle moved on by one pick loses and gains the same node. */
  lemma WindowMoves(nodes: seq<Node>, g: int, max: int, t: Scan, n: nat, j: nat)
    requires Pool(nodes, g, max) && -1 <= t.i < |nodes| && t.cw <= max
    requires Pick(nodes, g, max, Stand(nodes, g, max, t, n)) == Pick(nodes, g, max, t)
    ensures Occurs(Picks(nodes, g, max, Pick(nodes, g, max, t), n), j) == Occurs(Picks(nodes, g, max, t, n), j)
  {
    var next, stop := Pick(nodes, g, max, t), Stand(nodes, g, max, t, n);
    FirstPick(nodes, g, max, t, next, n);
    PicksAppend(nodes, g, max, t, n, 1);
    FirstPick(nodes, g, max, stop, next, 0);
    OccursAppend([next.i as nat], Picks(nodes, g, max, next, n), j);
    OccursAppend(Picks(nodes, g, max, t, n), [next.i as nat], j);
    assert [next.i as nat] + Picks(nodes, g, max, next, 0) == [next.i as nat];
  }

  /** Proportional service in every window of one cycle, wherever it begins. */
  lemma {:induction false} WindowIsProportional(nodes: seq<Node>, g: int, max: int, m: nat, j: nat, u: nat, k: nat)
    requires Pool(nodes, g, max) && max == m * g && j < |nodes| && nodes[j].weight == u * g
    ensures Occurs(Picks(nodes, g, max, Stand(nodes, g, max, Scan(-1, 0), k), |Cycle(nodes, g, m)|), j) == u
    decreases k
  {
    if k == 0 {
      CycleIsProportional(nodes, g, max, m, j, u);
    } else {
      var n, t := |Cycle(nodes, g, m)|, Stand(nodes, g, max, Scan(-1, 0), k - 1);
      WindowIsProportional(nodes, g, max, m, j, u, k - 1);
      CycleRepeats(nodes, g, max, m, k - 1);
      StandNext(nodes, g, max, Scan(-1, 0), k - 1);
      WindowMoves(nodes, g, max, t, n, j);
    }
  }
}
