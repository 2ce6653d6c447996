/** First-fit placement of slices on a usage snapshot. */
module Algorithm {
  import opened Resources
  import opened Snapshot

  /** Empty `mandatory` or `hint` means there is none. */
  datatype SliceInfo = SliceInfo(
    ns: NsKey, request: ResourceList, mandatory: string, hint: string, result: string, failed: bool)

  /** A hint that names no cluster of the snapshot is dereferenced all the same, which panics. */
  datatype Choice = Placed(cluster: string) | Rejected | Panicked

  /** Every resource of the capacity has room for the request on top of max(alloc, provision). */
  predicate Fits(request: ResourceList, u: ClusterUsage) {
    forall k :: k in u.capacity ==>
      Amount(MaxAlloc(u.alloc, u.provision), k) + Amount(request, k) <= u.capacity[k]
  }

  method FitSlice(request: ResourceList, u: ClusterUsage) returns (ok: bool)
    ensures ok == Fits(request, u)
  {
    var used := GetMaxAlloc(u.alloc, u.provision);
    var todo := u.capacity.Keys;
    while todo != {}
      invariant todo <= u.capacity.Keys
      invariant forall k :: k in u.capacity.Keys - todo ==> Amount(used, k) + Amount(request, k) <= u.capacity[k]
      decreases todo
    {
      var k :| k in todo;
      todo := todo - {k};
      if u.capacity[k] < Amount(used, k) + Amount(request, k) {
        return false;
      }
    }
    return true;
  }

  /**
   What one call may answer. A hint that is in the snapshot plays no part; an empty snapshot makes
   the call succeed with the empty cluster name.
   */
  ghost predicate Chooses(u: UsageMap, s: SliceInfo, r: Choice) {
    if s.mandatory != "" then
      r == if s.mandatory in u && Fits(s.request, u[s.mandatory]) then Placed(s.mandatory) else Rejected
    else if s.hint != "" && s.hint !in u then r == Panicked
    else if u == map[] then r == Placed("")
    else if exists n :: n in u && Fits(s.request, u[n]) then
      r.Placed? && r.cluster in u && Fits(s.request, u[r.cluster])
    else r == Rejected
  }

  method ScheduleOneSlice(s: SliceInfo, u: UsageMap) returns (r: Choice)
    ensures Chooses(u, s, r)
  {
    if s.mandatory != "" {
      if s.mandatory !in u {
        return Rejected;
      }
      var ok := FitSlice(s.request, u[s.mandatory]);
      return if ok then Placed(s.mandatory) else Rejected;
    }
    if s.hint != "" {
      if s.hint !in u {
        return Panicked;
      }
    }
    var last := false;
    var todo := u.Keys;
    while todo != {}
      invariant todo <= u.Keys && (last <==> todo != u.Keys)
      invariant forall n :: n in u && n !in todo ==> !Fits(s.request, u[n])
      decreases todo
    {
      var n :| n in todo;
      todo := todo - {n};
      var ok := FitSlice(s.request, u[n]);
      if ok {
        return Placed(n);
      }
      last := true;
    }
    assert u != map[] ==> u.Keys != {};
    return if last then Rejected else Placed("");
  }

  // ---------- the whole array ----------

  function ChoiceOf(s: SliceInfo): Choice {
    if s.failed then Rejected else Placed(s.result)
  }

  /** The snapshot after the outcomes in `out` have been entered into it. */
  function After(u: UsageMap, out: seq<SliceInfo>): UsageMap {
    if out == [] then u
    else
      var s := out[|out| - 1];
      var before := After(u, out[..|out| - 1]);
      if s.failed then before else AddOne(before, Slice(s.ns, s.request, s.result))
  }

  /** Each slice was placed against the snapshot left by the ones before it. */
  ghost predicate Planned(u: UsageMap, out: seq<SliceInfo>) {
    forall i :: 0 <= i < |out| ==> Chooses(After(u, out[..i]), out[i], ChoiceOf(out[i]))
  }

  predicate SameSlices(slices: seq<SliceInfo>, out: seq<SliceInfo>) {
    |out| == |slices| && forall i :: 0 <= i < |out| ==> out[i] == slices[i].(result := out[i].result, failed := out[i].failed)
  }

  lemma AfterSnoc(u: UsageMap, out: seq<SliceInfo>, s: SliceInfo)
    ensures After(u, out + [s]) == if s.failed then After(u, out) else AddOne(After(u, out), Slice(s.ns, s.request, s.result))
  {
    assert (out + [s])[..|out|] == out;
  }

  lemma PlannedSnoc(u: UsageMap, out: seq<SliceInfo>, s: SliceInfo)
    requires Planned(u, out) && Chooses(After(u, out), s, ChoiceOf(s))
    ensures Planned(u, out + [s])
  {
    var more := out + [s];
    forall i | 0 <= i < |more|
      ensures Chooses(After(u, more[..i]), more[i], ChoiceOf(more[i]))
    {
      if i < |out| {
        assert more[..i] == out[..i] && more[i] == out[i];
        assert Chooses(After(u, out[..i]), out[i], ChoiceOf(out[i]));
      } else {
        assert more[..i] == out && more[i] == s;
      }
    }
  }

  /** The hint of a free slice names a cluster outside the snapshot. */
  predicate Perilous(u: UsageMap, s: SliceInfo) {
    s.mandatory == "" && s.hint != "" && s.hint !in u
  }

  /** The entry that records what was chosen for a slice. */
  function Entered(s: SliceInfo, r: Choice): SliceInfo {
    match r
    case Placed(n) => s.(result := n)
    case Rejected => s.(failed := true)
    case Panicked => s
  }

  /** One slice: chosen against the snapshot, and entered into it. */
  method PlaceOne(s: SliceInfo, snapshot: NamespaceSchedSnapshot, ghost u: UsageMap, ghost out: seq<SliceInfo>)
    returns (entry: SliceInfo, panicked: bool)
    requires s.result == "" && !s.failed && Planned(u, out) && snapshot.usage == After(u, out)
    modifies snapshot
    ensures panicked <==> Perilous(u, s)
    ensures !panicked ==>
              && entry == s.(result := entry.result, failed := entry.failed)
              && Planned(u, out + [entry]) && snapshot.usage == After(u, out + [entry])
  {
    AfterKeys(u, out);
    var r := ScheduleOneSlice(s, snapshot.usage);
    entry := Entered(s, r);
    panicked := r.Panicked?;
    if panicked {
      return;
    }
    ChoosesStatic(snapshot.usage, s, entry, r);
    PlannedSnoc(u, out, entry);
    AfterSnoc(u, out, entry);
    if r.Placed? {
      var _ := snapshot.AddSlices([Slice(s.ns, s.request, r.cluster)]);
    }
  }

  /** Places the slices one after the other, each entered into the snapshot before the next is tried. */
  method ScheduleNamespaceSlices(slices: seq<SliceInfo>, snapshot: NamespaceSchedSnapshot)
    returns (out: seq<SliceInfo>, panicked: bool)
    requires forall i :: 0 <= i < |slices| ==> slices[i].result == "" && !slices[i].failed
    modifies snapshot
    ensures panicked <==> exists s :: s in slices && Perilous(old(snapshot.usage), s)
    ensures !panicked ==> SameSlices(slices, out) && Planned(old(snapshot.usage), out)
    ensures !panicked ==> snapshot.usage == After(old(snapshot.usage), out)
  {
    ghost var u := snapshot.usage;
    out := [];
    panicked := false;
    for i := 0 to |slices|
      invariant |out| == i && SameSlices(slices[..i], out)
      invariant Planned(u, out) && snapshot.usage == After(u, out)
      invariant forall j :: 0 <= j < i ==> !Perilous(u, slices[j])
    {
      var entry;
      entry, panicked := PlaceOne(slices[i], snapshot, u, out);
      if panicked {
        assert slices[i] in slices;
        return;
      }
      out := out + [entry];
    }
    assert slices[..|slices|] == slices;
  }

  lemma ChoosesStatic(u: UsageMap, s: SliceInfo, t: SliceInfo, r: Choice)
    requires Chooses(u, s, r) && t == s.(result := t.result, failed := t.failed) && r == ChoiceOf(t)
    ensures Chooses(u, t, ChoiceOf(t))
  {
  }

  // ---------- no overcommit ----------

  /** How much of resource `k` the successful slices put on cluster `n`. */
  function Assigned(out: seq<SliceInfo>, n: string, k: Res): nat {
    if out == [] then 0
    else
      var s := out[|out| - 1];
      Assigned(out[..|out| - 1], n, k) + if !s.failed && s.result == n then Amount(s.request, k) else 0
  }

  /** Only `alloc` moves, and by exactly what was assigned. */
  lemma {:induction false} PlanConserves(u: UsageMap, out: seq<SliceInfo>, n: string, k: Res)
    requires n in u
    ensures After(u, out).Keys == u.Keys
    ensures After(u, out)[n].capacity == u[n].capacity && After(u, out)[n].provision == u[n].provision
    ensures u[n].alloc.Keys <= After(u, out)[n].alloc.Keys
    ensures Amount(After(u, out)[n].alloc, k) == Amount(u[n].alloc, k) + Assigned(out, n, k)
  {
    if out != [] {
      PlanConserves(u, out[..|out| - 1], n, k);
    }
  }

  predicate Received(out: seq<SliceInfo>, n: string) {
    exists i :: 0 <= i < |out| && !out[i].failed && out[i].result == n
  }

  lemma FitsWithinCapacity(u: ClusterUsage, request: ResourceList, k: Res)
    requires Fits(request, u) && k in u.capacity
    ensures Amount(u.alloc, k) + Amount(request, k) <= u.capacity[k]
    ensures k in u.alloc ==> Amount(u.provision, k) + Amount(request, k) <= u.capacity[k]
  {
  }

  /** When a slice was placed on a cluster, the cluster had room for it over allocation and provision. */
  lemma RoomWhenPlaced(u: UsageMap, out: seq<SliceInfo>, i: nat, k: Res)
    requires Planned(u, out) && i < |out| && !out[i].failed && out[i].result in u
    requires k in u[out[i].result].capacity
    ensures var n := out[i].result;
            var request := Amount(out[i].request, k);
            && Amount(u[n].alloc, k) + Assigned(out[..i], n, k) + request <= u[n].capacity[k]
            && (k in u[n].alloc ==> Amount(u[n].provision, k) + request <= u[n].capacity[k])
  {
    var n := out[i].result;
    var now := After(u, out[..i]);
    PlanConserves(u, out[..i], n, k);
    assert Chooses(now, out[i], ChoiceOf(out[i]));
    FitsWithinCapacity(now[n], out[i].request, k);
  }

  /** The last slice a cluster received accounts for all that was assigned to it. */
  lemma {:induction false} LastReceived(out: seq<SliceInfo>, n: string, k: Res) returns (i: nat)
    requires Received(out, n)
    ensures i < |out| && !out[i].failed && out[i].result == n
    ensures Assigned(out, n, k) == Assigned(out[..i], n, k) + Amount(out[i].request, k)
    decreases |out|
  {
    var m := |out| - 1;
    if !out[m].failed && out[m].result == n {
      i := m;
    } else {
      var j :| 0 <= j < |out| && !out[j].failed && out[j].result == n;
      assert out[..m][j] == out[j];
      i := LastReceived(out[..m], n, k);
      assert out[..m][..i] == out[..i];
    }
  }

  /** A cluster that received a slice ends within its capacity. */
  lemma PlanWithinCapacity(u: UsageMap, out: seq<SliceInfo>, n: string, k: Res)
    requires Planned(u, out) && n in u && Received(out, n) && k in u[n].capacity
    ensures n in After(u, out) && Amount(After(u, out)[n].alloc, k) <= u[n].capacity[k]
  {
    var i := LastReceived(out, n, k);
    RoomWhenPlaced(u, out, i, k);
    PlanConserves(u, out, n, k);
  }

  // ---------- enough room ----------

  /** Room for `n` slices over the larger of allocation and provision. */
  predicate Roomy(u: ClusterUsage, slice: ResourceList, n: nat) {
    forall k :: k in u.capacity ==>
      Max(Amount(u.alloc, k), Amount(u.provision, k)) + n * Amount(slice, k) <= u.capacity[k]
  }

  lemma {:induction false} AssignedBound(out: seq<SliceInfo>, slice: ResourceList, n: string, k: Res)
    requires forall s :: s in out ==> s.request == slice
    ensures Assigned(out, n, k) <= |out| * Amount(slice, k)
  {
    if out != [] {
      var m := |out| - 1;
      assert out[m] in out;
      assert forall s :: s in out[..m] ==> s in out;
      AssignedBound(out[..m], slice, n, k);
      RoomArithmetic(m, |out|, Amount(slice, k));
    }
  }

  /** A cluster with room for all the slices still takes the next one, wherever the earlier ones went. */
  lemma RoomyStillFits(u: UsageMap, out: seq<SliceInfo>, slice: ResourceList, n: string, total: nat)
    requires n in u && Roomy(u[n], slice, total) && |out| < total
    requires forall s :: s in out ==> s.request == slice
    ensures n in After(u, out) && Fits(slice, After(u, out)[n])
  {
    AfterKeys(u, out);
    var now := After(u, out)[n];
    PlanConserves(u, out, n, "");
    forall k | k in now.capacity
      ensures Amount(MaxAlloc(now.alloc, now.provision), k) + Amount(slice, k) <= now.capacity[k]
    {
      PlanConserves(u, out, n, k);
      AssignedBound(out, slice, n, k);
      RoomArithmetic(|out|, total, Amount(slice, k));
    }
  }

  lemma RoomArithmetic(i: nat, total: nat, unit: nat)
    requires i < total
    ensures i * unit + unit <= total * unit
  {
    assert (i + 1) * unit <= total * unit;
  }

  /** With a roomy cluster for the free slices, and roomy named clusters, no slice fails. */
  lemma RoomyNeverFails(u: UsageMap, out: seq<SliceInfo>, slice: ResourceList, total: nat)
    requires Planned(u, out) && |out| <= total && forall s :: s in out ==> s.request == slice
    requires exists n :: n in u && Roomy(u[n], slice, total)
    requires forall s :: s in out && s.mandatory != "" ==> s.mandatory in u && Roomy(u[s.mandatory], slice, total)
    ensures forall s :: s in out ==> !s.failed
  {
    var n :| n in u && Roomy(u[n], slice, total);
    forall i | 0 <= i < |out|
      ensures !out[i].failed
    {
      var before := out[..i];
      assert forall s :: s in before ==> s in out;
      assert out[i] in out;
      var c := if out[i].mandatory != "" then out[i].mandatory else n;
      RoomyStillFits(u, before, slice, c, total);
      assert Chooses(After(u, before), out[i], ChoiceOf(out[i]));
    }
  }

  /** Mandatory slices go where they must or fail; the others go to a cluster of a non-empty snapshot. */
  lemma PlacedWhere(u: UsageMap, out: seq<SliceInfo>, i: nat)
    requires Planned(u, out) && i < |out| && !out[i].failed
    ensures out[i].mandatory != "" ==> out[i].result == out[i].mandatory
    ensures out[i].mandatory != "" || u != map[] ==> out[i].result in u
    ensures out[i].mandatory == "" && u == map[] ==> out[i].result == ""
  {
    var now := After(u, out[..i]);
    assert Chooses(now, out[i], ChoiceOf(out[i]));
    AfterKeys(u, out[..i]);
  }

  lemma {:induction false} AfterKeys(u: UsageMap, out: seq<SliceInfo>)
    ensures After(u, out).Keys == u.Keys
  {
    if out != [] {
      AfterKeys(u, out[..|out| - 1]);
    }
  }
}
