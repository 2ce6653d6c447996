/** The worker's retry policy: a request that keeps failing is given up after a bounded number of attempts. */
module Retry {
  import opened Balancer
  import opened QueueModel
  import opened QueueRuns

  const MAX_RETRIES := 16

  /** How an attempt ends. `Requeue` asks for another turn after a delay or at the rate limiter's pace. */
  datatype Verdict = Gone | Filtered | Succeeded | Requeue(after: int) | RequeueLimited | Rejected | Failed

  /**
   Queue and workers, the rate limiter's requeue counts, the items waiting for their delay, and how often a
   worker that has judged its item still has to mark it done.
   */
  datatype Sys = Sys(site: Site, counts: map<Item, nat>, delayed: set<Item>, owed: map<nat, nat>)

  function Requeues(s: Sys, x: Item): nat {
    if x in s.counts then s.counts[x] else 0
  }

  /** `AddAfter`: a delay that is not positive adds at once. */
  function AddAfter(s: Sys, x: Item, delay: int): Sys {
    if s.site.q.closed then s
    else if delay <= 0 then s.(site := s.site.(q := Add(s.site.q, x)))
    else s.(delayed := s.delayed + {x})
  }

  /** `AddRateLimited`: asking the limiter for the delay counts as one more requeue. */
  function AddRateLimited(s: Sys, x: Item, delay: int): Sys {
    AddAfter(s.(counts := s.counts[x := Requeues(s, x) + 1]), x, delay)
  }

  function Forget(s: Sys, x: Item): Sys {
    s.(counts := s.counts - {x})
  }

  /** What the worker does with the verdict, before it marks the item done. */
  function Judge(s: Sys, x: Item, v: Verdict, delay: int): Sys {
    match v
    case Requeue(after) => Forget(AddAfter(s, x, after), x)
    case RequeueLimited => Forget(AddRateLimited(s, x, delay), x)
    case Failed => if Requeues(s, x) >= MAX_RETRIES then Forget(s, x) else AddRateLimited(s, x, delay)
    case _ => Forget(s, x)
  }

  /** The worker has its verdict and acts on it; the filtered path will mark the item done twice. */
  function Decided(s: Sys, w: nat, v: Verdict, delay: int): Sys
    requires w in s.site.held
  {
    Judge(s, s.site.held[w], v, delay).(owed := s.owed[w := if v.Filtered? then 2 else 1])
  }

  /** The worker marks its item done and, if nothing more is owed, is free for another one. */
  function Marked(s: Sys, w: nat): Sys
    requires w in s.site.held && w in s.owed
  {
    var q := Done(s.site.q, s.site.held[w]);
    if s.owed[w] <= 1 then s.(site := Site(q, s.site.held - {w}), owed := s.owed - {w})
    else s.(site := s.site.(q := q), owed := s.owed[w := s.owed[w] - 1])
  }

  /** Marked done twice in a row, an item is safe exactly when it was not added while it was processed. */
  lemma DoubleDoneIff(q: Queue, x: Item)
    requires QInv(q) && x in q.processing
    ensures QInv(Done(Done(q, x), x)) <==> x !in q.dirty
  {
    DoneKeepsIff(q, x);
    var r := Done(Done(q, x), x);
    if x in q.dirty {
      var fifo := r.groups[x.group];
      if x.group in q.groups {
        assert fifo[|fifo| - 1] == x == fifo[|fifo| - 2];
        assert !FifoOk(x.group, fifo);
      } else {
        assert fifo == [x] && r.length == q.length + 1;
        assert x.group !in (set k | k in q.ring.keys);
        assert x.group !in r.ring.keys;
      }
    } else {
      DoneKeepsIff(Done(q, x), x);
    }
  }

  /** Marked done twice, an item that was added meanwhile is queued twice. */
  lemma DoubleDoneDuplicates(q: Queue, x: Item)
    requires QInv(q) && x in q.processing
    ensures x in q.dirty && x.group in q.groups ==> QInv(Done(q, x)) && !QInv(Done(Done(q, x), x))
    ensures x !in q.dirty ==> QInv(Done(Done(q, x), x))
  {
    DoneKeepsIff(q, x);
    if QInv(Done(q, x)) {
      DoneKeepsIff(Done(q, x), x);
    }
  }

  // ---------- steps ----------

  /** `Take` serves the head of whatever group the balancer names, wherever it stands then. */
  datatype Move =
    | Take(worker: nat, group: string, ring: Ring)
    | Decide(worker: nat, verdict: Verdict, delay: int)
    | MarkDone(worker: nat)
    | Due(x: Item)
    | External(x: Item)
    | Collect(group: string)
    | Close

  /** What can happen at all: delays may end and groups be collected at any time, also before an item is marked done. */
  predicate Possible(s: Sys, m: Move) {
    match m
    case Take(w, g, _) => w !in s.site.held && w !in s.owed && g in s.site.q.groups && s.site.q.groups[g] != []
    case Decide(w, _, _) => w in s.site.held && w !in s.owed
    case MarkDone(w) => w in s.site.held && w in s.owed
    case Due(x) => x in s.delayed
    case _ => true
  }

  function Apply(s: Sys, m: Move): Sys
    requires Possible(s, m)
  {
    var q := s.site.q;
    match m
    case Take(w, g, ring) => s.(site := Site(Pop(q.(ring := ring), g), s.site.held[w := q.groups[g][0]]))
    case Decide(w, v, d) => Decided(s, w, v, d)
    case MarkDone(w) => Marked(s, w)
    case Due(x) => s.(site := s.site.(q := Add(q, x)), delayed := s.delayed - {x})
    case External(x) => s.(site := s.site.(q := Add(q, x)))
    case Collect(g) => s.(site := s.site.(q := QueueModel.Collect(q, g)))
    case Close => s.(site := s.site.(q := q.(closed := true)))
  }

  /** A worker's `Get` is such a step. */
  lemma GetIsTake(s: Sys, w: nat)
    requires w !in s.site.held && w !in s.owed && Servable(s.site.q.groups, s.site.q.ring)
    ensures var t := Serve(s.site.q.groups, s.site.q.ring);
            var m := Take(w, RingKey(t), t);
            Possible(s, m) && Apply(s, m) == s.(site := Site(Get(s.site.q), s.site.held[w := Got(s.site.q)]))
  {
  }

  // ---------- one item's places ----------

  /** At most once in its own FIFO, nowhere else, and only while it is dirty and idle. */
  predicate FiledOnce(q: Queue, x: Item) {
    && (forall g :: g in q.groups && g != x.group ==> x !in q.groups[g])
    && (Queued(q, x) ==> x in q.dirty && x !in q.processing)
    && (x.group in q.groups ==>
          forall i, j :: 0 <= i < j < |q.groups[x.group]| ==> q.groups[x.group][i] != x || q.groups[x.group][j] != x)
  }

  /** At most one worker has it; it then is being processed, and to be marked done once. */
  predicate HandedOnce(s: Sys, x: Item) {
    && (forall w :: w in s.site.held && s.site.held[w] == x ==> x in s.site.q.processing)
    && (forall w :: w in s.site.held && s.site.held[w] == x && w in s.owed ==> s.owed[w] == 1)
    && (forall v, w :: v in s.site.held && w in s.site.held && s.site.held[v] == x == s.site.held[w] ==> v == w)
  }

  /** A worker is at it and has no verdict yet. */
  predicate Tried(s: Sys, x: Item) {
    exists w :: w in s.site.held && s.site.held[w] == x && w !in s.owed
  }

  /** Waiting, being tried or delayed: never two of these. Nothing is said of other items. */
  predicate Alone(s: Sys, x: Item) {
    && FiledOnce(s.site.q, x) && HandedOnce(s, x)
    && !(Tried(s, x) && x in s.site.q.dirty)
    && !(x in s.delayed && (x in s.site.q.dirty || Tried(s, x)))
  }

  /** In a sound queue, a request nobody judges yet meets this if it does not wait in two ways. */
  lemma SoundIsAlone(s: Sys, x: Item)
    requires SiteInv(s.site) && !(x in s.site.q.dirty && x in s.site.q.processing)
    requires !(x in s.delayed && (x in s.site.q.dirty || x in s.site.q.processing))
    requires forall w :: w in s.site.held && s.site.held[w] == x ==> w !in s.owed
    ensures Alone(s, x)
  {
    assert Queued(s.site.q, x) <==> x in s.site.q.dirty && x !in s.site.q.processing;
    forall g | g in s.site.q.groups && g != x.group
      ensures x !in s.site.q.groups[g]
    {
      assert FifoOk(g, s.site.q.groups[g]);
    }
    if x.group in s.site.q.groups {
      assert FifoOk(x.group, s.site.q.groups[x.group]);
    }
  }

  // ---------- the other items leave it alone ----------

  /** The two systems agree about `x`. */
  predicate SameFor(s: Sys, t: Sys, x: Item) {
    && Requeues(t, x) == Requeues(s, x) && (x in t.delayed <==> x in s.delayed)
    && (x in t.site.q.dirty <==> x in s.site.q.dirty)
  }

  lemma AddOther(q: Queue, y: Item, x: Item)
    requires y != x && FiledOnce(q, x)
    ensures var r := Add(q, y);
            FiledOnce(r, x) && (x in r.dirty <==> x in q.dirty) && r.processing == q.processing
  {
  }

  lemma DoneOther(q: Queue, y: Item, x: Item)
    requires y != x && FiledOnce(q, x)
    ensures var r := Done(q, y);
            FiledOnce(r, x) && r.dirty == q.dirty && (x in r.processing <==> x in q.processing)
  {
  }

  lemma JudgeOther(s: Sys, y: Item, v: Verdict, d: int, x: Item)
    requires y != x && FiledOnce(s.site.q, x)
    ensures var t := Judge(s, y, v, d);
            SameFor(s, t, x) && FiledOnce(t.site.q, x) && t.site.q.processing == s.site.q.processing
  {
    AddOther(s.site.q, y, x);
  }

  lemma OtherDecided(s: Sys, w: nat, v: Verdict, d: int, x: Item)
    requires Possible(s, Decide(w, v, d)) && s.site.held[w] != x && Alone(s, x)
    ensures var t := Decided(s, w, v, d);
            SameFor(s, t, x) && Alone(t, x) && (Tried(t, x) <==> Tried(s, x))
  {
    JudgeOther(s, s.site.held[w], v, d, x);
    SameTries(s, Decided(s, w, v, d), w, x);
  }

  lemma OtherMarked(s: Sys, w: nat, x: Item)
    requires Possible(s, MarkDone(w)) && s.site.held[w] != x && Alone(s, x)
    ensures var t := Marked(s, w);
            SameFor(s, t, x) && Alone(t, x) && (Tried(t, x) <==> Tried(s, x))
  {
    DoneOther(s.site.q, s.site.held[w], x);
    SameTries(s, Marked(s, w), w, x);
  }

  /** The two systems agree about every worker that has `x`. */
  lemma SameTries(s: Sys, t: Sys, w: nat, x: Item)
    requires w in s.site.held && s.site.held[w] != x
    requires t.site.held - {w} == s.site.held - {w} && t.owed - {w} == s.owed - {w}
    requires w in t.site.held ==> t.site.held[w] != x
    ensures Tried(t, x) <==> Tried(s, x)
    ensures HandedOnce(s, x) && (x in s.site.q.processing ==> x in t.site.q.processing) ==> HandedOnce(t, x)
  {
    forall v | v != w
      ensures v in t.site.held <==> v in s.site.held
      ensures v in t.site.held ==> t.site.held[v] == s.site.held[v]
      ensures v in t.owed <==> v in s.owed
      ensures v in t.owed ==> t.owed[v] == s.owed[v]
    {
      assert v in t.site.held <==> v in t.site.held - {w};
      assert v in s.site.held <==> v in s.site.held - {w};
      assert v in t.owed <==> v in t.owed - {w};
      assert v in s.owed <==> v in s.owed - {w};
      assert v in s.site.held ==> (s.site.held - {w})[v] == s.site.held[v];
      assert v in s.owed ==> (s.owed - {w})[v] == s.owed[v];
    }
  }

  lemma PopKeepsPlace(q: Queue, g: string, x: Item)
    requires g in q.groups && q.groups[g] != [] && FiledOnce(q, x)
    ensures var r := Pop(q, g);
            && FiledOnce(r, x)
            && (q.groups[g][0] == x ==> Queued(q, x) && x in r.processing && x !in r.dirty)
            && (q.groups[g][0] != x ==>
                  (x in r.dirty <==> x in q.dirty) && (x in r.processing <==> x in q.processing))
  {
    var fifo := q.groups[g];
    assert fifo[0] in fifo;
    assert forall i :: 0 <= i < |fifo| - 1 ==> fifo[1..][i] == fifo[i + 1];
  }

  lemma CollectKeepsPlace(q: Queue, g: string, x: Item)
    requires FiledOnce(q, x)
    ensures FiledOnce(QueueModel.Collect(q, g), x)
  {
  }

  // ---------- attempts left ----------

  /** It waits, is delayed, or is being tried. */
  predicate Present(s: Sys, x: Item) {
    x in s.site.q.dirty || x in s.delayed || Tried(s, x)
  }

  /** How often the item can still be tried if every attempt fails. */
  function AttemptsLeft(s: Sys, x: Item): nat {
    if !Present(s, x) then 0
    else if Requeues(s, x) >= MAX_RETRIES then 1
    else MAX_RETRIES + 1 - Requeues(s, x)
  }

  /** The move is an attempt at `x`. */
  predicate Attempts(s: Sys, m: Move, x: Item) {
    m.Decide? && m.worker in s.site.held && s.site.held[m.worker] == x
  }

  /** Every attempt at `x` fails with a retryable error, and nobody else adds it. */
  predicate AlwaysFails(s: Sys, m: Move, x: Item) {
    (Attempts(s, m, x) ==> m.verdict.Failed?) && m != External(x)
  }

  lemma DoneOwn(q: Queue, x: Item)
    requires FiledOnce(q, x) && x in q.processing
    ensures FiledOnce(Done(q, x), x)
  {
    assert !Queued(q, x);
  }

  lemma AddProcessing(q: Queue, x: Item)
    requires x in q.processing
    ensures Add(q, x) == if q.closed || x in q.dirty then q else q.(dirty := q.dirty + {x})
  {
  }

  lemma AttemptCosts(s: Sys, w: nat, d: int, x: Item)
    requires Possible(s, Decide(w, Failed, d)) && s.site.held[w] == x && Alone(s, x)
    ensures var t := Decided(s, w, Failed, d);
            && AttemptsLeft(t, x) < AttemptsLeft(s, x) && Alone(t, x)
            && (!s.site.q.closed ==> AttemptsLeft(t, x) == AttemptsLeft(s, x) - 1)
  {
    AddProcessing(s.site.q, x);
    assert Tried(s, x);
    var t := Decided(s, w, Failed, d);
    assert FiledOnce(t.site.q, x);
    assert !Tried(t, x);
  }

  /** Whatever happened since the verdict, marking the item done costs and gains nothing. */
  lemma MarkCostsNothing(s: Sys, w: nat, x: Item)
    requires Possible(s, MarkDone(w)) && s.site.held[w] == x && Alone(s, x)
    ensures var t := Marked(s, w);
            AttemptsLeft(t, x) == AttemptsLeft(s, x) && Alone(t, x)
  {
    DoneOwn(s.site.q, x);
    assert !Tried(s, x) && !Tried(Marked(s, w), x);
  }

  lemma TakeCostsNothing(s: Sys, w: nat, g: string, ring: Ring, x: Item)
    requires Possible(s, Take(w, g, ring)) && Alone(s, x)
    ensures var t := Apply(s, Take(w, g, ring));
            AttemptsLeft(t, x) == AttemptsLeft(s, x) && Alone(t, x)
  {
    var q := s.site.q.(ring := ring);
    assert FiledOnce(q, x);
    PopKeepsPlace(q, g, x);
    var t := Apply(s, Take(w, g, ring));
    if q.groups[g][0] == x {
      assert t.site.held[w] == x && w !in t.owed;
    } else {
      assert forall v :: v in t.site.held && t.site.held[v] == x ==> v in s.site.held && s.site.held[v] == x;
      assert forall v :: v in s.site.held ==> v in t.site.held && t.site.held[v] == s.site.held[v];
    }
  }

  lemma DueCostsNothing(s: Sys, y: Item, x: Item)
    requires y in s.delayed && Alone(s, x)
    ensures var t := Apply(s, Due(y));
            && AttemptsLeft(t, x) <= AttemptsLeft(s, x) && Alone(t, x)
            && (!s.site.q.closed ==> AttemptsLeft(t, x) == AttemptsLeft(s, x))
  {
    if y != x {
      AddOther(s.site.q, y, x);
    }
  }

  lemma MoveCosts(s: Sys, m: Move, x: Item)
    requires Possible(s, m) && Alone(s, x) && AlwaysFails(s, m, x)
    ensures Alone(Apply(s, m), x)
    ensures AttemptsLeft(Apply(s, m), x) + (if Attempts(s, m, x) then 1 else 0) <= AttemptsLeft(s, x)
    ensures !s.site.q.closed && m != Close ==>
              AttemptsLeft(Apply(s, m), x) + (if Attempts(s, m, x) then 1 else 0) == AttemptsLeft(s, x)
  {
    match m
    case Take(w, g, ring) => TakeCostsNothing(s, w, g, ring, x);
    case Decide(w, v, d) =>
      if s.site.held[w] == x {
        AttemptCosts(s, w, d, x);
      } else {
        OtherDecided(s, w, v, d, x);
      }
    case MarkDone(w) =>
      if s.site.held[w] == x {
        MarkCostsNothing(s, w, x);
      } else {
        OtherMarked(s, w, x);
      }
    case Due(y) => DueCostsNothing(s, y, x);
    case External(y) => AddOther(s.site.q, y, x);
    case Collect(g) => CollectKeepsPlace(s.site.q, g, x);
    case Close => assert FiledOnce(s.site.q.(closed := true), x);
  }

  predicate FailingRun(s: Sys, moves: seq<Move>, x: Item)
    decreases |moves|
  {
    moves == [] ||
    (Possible(s, moves[0]) && AlwaysFails(s, moves[0], x) && FailingRun(Apply(s, moves[0]), moves[1..], x))
  }

  function AttemptCount(s: Sys, moves: seq<Move>, x: Item): nat
    requires FailingRun(s, moves, x)
    decreases |moves|
  {
    if moves == [] then 0
    else (if Attempts(s, moves[0], x) then 1 else 0) + AttemptCount(Apply(s, moves[0]), moves[1..], x)
  }

  function Final(s: Sys, moves: seq<Move>, x: Item): Sys
    requires FailingRun(s, moves, x)
    decreases |moves|
  {
    if moves == [] then s else Final(Apply(s, moves[0]), moves[1..], x)
  }

  lemma StaysOpen(s: Sys, m: Move)
    requires Possible(s, m) && m != Close
    ensures Apply(s, m).site.q.closed == s.site.q.closed
  {
  }

  /**
   Attempts made and attempts left never exceed what was left at the start, and as long as the queue is not
   shut down none is lost either.
   */
  lemma {:induction false} RetryBudget(s: Sys, moves: seq<Move>, x: Item)
    requires Alone(s, x) && FailingRun(s, moves, x)
    ensures AttemptCount(s, moves, x) + AttemptsLeft(Final(s, moves, x), x) <= AttemptsLeft(s, x)
    ensures !s.site.q.closed && Close !in moves ==>
              AttemptCount(s, moves, x) + AttemptsLeft(Final(s, moves, x), x) == AttemptsLeft(s, x)
    decreases |moves|
  {
    if moves != [] {
      MoveCosts(s, moves[0], x);
      if moves[0] != Close {
        StaysOpen(s, moves[0]);
      }
      RetryBudget(Apply(s, moves[0]), moves[1..], x);
    }
  }

  /** A request that always fails is tried at most 17 times; after the seventeenth it waits nowhere. */
  lemma BoundedRetry(s: Sys, moves: seq<Move>, x: Item)
    requires Alone(s, x) && FailingRun(s, moves, x)
    ensures AttemptCount(s, moves, x) <= 17
    ensures AttemptCount(s, moves, x) == 17 ==> !Present(Final(s, moves, x), x)
  {
    RetryBudget(s, moves, x);
  }

  /** And it is not given up earlier: without a shutdown a new request is out of the system exactly after 17 attempts. */
  lemma GivenUpAfterSeventeen(s: Sys, moves: seq<Move>, x: Item)
    requires Alone(s, x) && Present(s, x) && x !in s.counts && FailingRun(s, moves, x)
    requires !s.site.q.closed && Close !in moves
    ensures !Present(Final(s, moves, x), x) <==> AttemptCount(s, moves, x) == 17
  {
    RetryBudget(s, moves, x);
  }

  // ---------- what each verdict leads to ----------

  /**
   A failed attempt below the limit is counted, and the request waits for its delay or is marked to be
   queued again; at the limit, and after every verdict that is final, it is forgotten. A requeue asked for
   by the reconciler is granted and starts a new count.
   */
  lemma VerdictMeans(s: Sys, w: nat, v: Verdict, d: int, x: Item)
    requires Possible(s, Decide(w, v, d)) && s.site.held[w] == x && Alone(s, x) && !s.site.q.closed
    ensures var t := Decided(s, w, v, d);
            match v
            case Failed =>
              if Requeues(s, x) < 16
              then Requeues(t, x) == Requeues(s, x) + 1 && (if d > 0 then x in t.delayed else x in t.site.q.dirty)
              else x !in t.counts && !Present(t, x)
            case Requeue(after) => x !in t.counts && (if after > 0 then x in t.delayed else x in t.site.q.dirty)
            case RequeueLimited => x !in t.counts && (if d > 0 then x in t.delayed else x in t.site.q.dirty)
            case _ => x !in t.counts && !Present(t, x)
  {
    AddProcessing(s.site.q, x);
    assert Tried(s, x);
    var t := Decided(s, w, v, d);
    assert !Tried(t, x);
  }

  /** A dropped request is marked done twice before its worker is free, any other one once. */
  lemma DonesOwed(s: Sys, w: nat, v: Verdict, d: int)
    requires Possible(s, Decide(w, v, d))
    ensures var t, x := Decided(s, w, v, d), s.site.held[w];
            && Possible(t, MarkDone(w))
            && var u := Marked(t, w);
               && u.site.q == Done(t.site.q, x)
               && if v != Filtered then w !in u.site.held && w !in u.owed
                  else
                    && Possible(u, MarkDone(w)) && u.site.held == s.site.held
                    && var z := Marked(u, w);
                       z.site.q == Done(Done(t.site.q, x), x) && w !in z.site.held && w !in z.owed
  {
  }

  /** After a shutdown no verdict brings anything back. */
  lemma NothingAfterShutdown(s: Sys, w: nat, v: Verdict, d: int)
    requires Possible(s, Decide(w, v, d)) && s.site.q.closed
    ensures Decided(s, w, v, d).site == s.site && Decided(s, w, v, d).delayed == s.delayed
  {
  }

  // ---------- the longest run ----------

  lemma Prepend(s: Sys, m: Move, rest: seq<Move>, x: Item)
    requires Possible(s, m) && AlwaysFails(s, m, x) && FailingRun(Apply(s, m), rest, x)
    ensures FailingRun(s, [m] + rest, x) && Final(s, [m] + rest, x) == Final(Apply(s, m), rest, x)
    ensures AttemptCount(s, [m] + rest, x) == (if Attempts(s, m, x) then 1 else 0) + AttemptCount(Apply(s, m), rest, x)
  {
    assert ([m] + rest)[1..] == rest;
  }

  /** The request alone in its queue, requeued `n` times so far. */
  function Queueing(x: Item, n: nat, ring: Ring): Sys {
    Sys(Site(Queue(map[x.group := [x]], {x}, {}, 1, ring, false), map[]), if n == 0 then map[] else map[x := n], {}, map[])
  }

  /** The same with worker 0 at it, and after the verdict; `delayed` says whether it is to come back. */
  function Trying(x: Item, n: nat, ring: Ring): Sys {
    Sys(Site(Queue(map[x.group := []], {}, {x}, 0, ring, false), map[0 := x]), if n == 0 then map[] else map[x := n], {}, map[])
  }

  function Judged(x: Item, counts: map<Item, nat>, delayed: set<Item>, ring: Ring): Sys {
    Sys(Site(Queue(map[x.group := []], {}, {x}, 0, ring, false), map[0 := x]), counts, delayed, map[0 := 1])
  }

  function Resting(x: Item, counts: map<Item, nat>, delayed: set<Item>, ring: Ring): Sys {
    Sys(Site(Queue(map[x.group := []], {}, {}, 0, ring, false), map[]), counts, delayed, map[])
  }

  lemma RoundSteps(x: Item, n: nat, ring: Ring)
    ensures Possible(Queueing(x, n, ring), Take(0, x.group, ring))
    ensures Apply(Queueing(x, n, ring), Take(0, x.group, ring)) == Trying(x, n, ring)
    ensures Possible(Trying(x, n, ring), Decide(0, Failed, 1))
    ensures n < 16 ==> Apply(Trying(x, n, ring), Decide(0, Failed, 1)) == Judged(x, map[x := n + 1], {x}, ring)
    ensures n >= 16 ==> Apply(Trying(x, n, ring), Decide(0, Failed, 1)) == Judged(x, map[], {}, ring)
  {
    assert [x][1..] == [];
    var counts: map<Item, nat> := if n == 0 then map[] else map[x := n];
    assert counts[x := n + 1] == map[x := n + 1] && counts - {x} == map[];
    var owed: map<nat, nat> := map[];
    assert owed[0 := 1] == map[0 := 1];
  }

  lemma RestSteps(x: Item, counts: map<Item, nat>, delayed: set<Item>, ring: Ring)
    ensures Possible(Judged(x, counts, delayed, ring), MarkDone(0))
    ensures Apply(Judged(x, counts, delayed, ring), MarkDone(0)) == Resting(x, counts, delayed, ring)
  {
    assert map[0 := x] - {0} == map[] && map[0 := 1] - {0} == map[];
  }

  lemma DueSteps(x: Item, n: nat, ring: Ring)
    ensures Possible(Resting(x, map[x := n + 1], {x}, ring), Due(x))
    ensures Apply(Resting(x, map[x := n + 1], {x}, ring), Due(x)) == Queueing(x, n + 1, ring)
  {
    assert [] + [x] == [x];
  }

  /** From a count of `n` on, `17 - n` more attempts, one after the other, and then the request is gone. */
  lemma {:induction false} LongestFrom(x: Item, n: nat, ring: Ring) returns (moves: seq<Move>)
    requires n <= 16
    ensures FailingRun(Queueing(x, n, ring), moves, x) && AttemptCount(Queueing(x, n, ring), moves, x) == 17 - n
    ensures !Present(Final(Queueing(x, n, ring), moves, x), x) && x !in Final(Queueing(x, n, ring), moves, x).counts
    decreases 16 - n
  {
    RoundSteps(x, n, ring);
    moves := [];
    if n < 16 {
      var later := LongestFrom(x, n + 1, ring);
      DueSteps(x, n, ring);
      Prepend(Resting(x, map[x := n + 1], {x}, ring), Due(x), later, x);
      moves := [Due(x)] + later;
    }
    var counts: map<Item, nat> := if n < 16 then map[x := n + 1] else map[];
    var delayed := if n < 16 then {x} else {};
    RestSteps(x, counts, delayed, ring);
    Prepend(Judged(x, counts, delayed, ring), MarkDone(0), moves, x);
    moves := [MarkDone(0)] + moves;
    Prepend(Trying(x, n, ring), Decide(0, Failed, 1), moves, x);
    moves := [Decide(0, Failed, 1)] + moves;
    Prepend(Queueing(x, n, ring), Take(0, x.group, ring), moves, x);
    moves := [Take(0, x.group, ring)] + moves;
  }

  /** The bound is reached: a new request that always fails is tried 17 times and then dropped. */
  lemma SeventeenAttempts(x: Item)
    ensures exists moves :: FailingRun(Sys(Site(Add(EMPTY_QUEUE, x), map[]), map[], {}, map[]), moves, x)
              && AttemptCount(Sys(Site(Add(EMPTY_QUEUE, x), map[]), map[], {}, map[]), moves, x) == 17
              && !Present(Final(Sys(Site(Add(EMPTY_QUEUE, x), map[]), map[], {}, map[]), moves, x), x)
  {
    var ring := Add(EMPTY_QUEUE, x).ring;
    assert [] + [x] == [x];
    assert Sys(Site(Add(EMPTY_QUEUE, x), map[]), map[], {}, map[]) == Queueing(x, 0, ring);
    var moves := LongestFrom(x, 0, ring);
  }
}
