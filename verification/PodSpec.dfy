/**
 The mutable part of a pod's specification: container images and the deadline. The tenant is the source
 of truth; containers that only the super cluster has are left alone.
 */
module PodSpecs {
  import opened Resources
  import opened MetaSync

  datatype Container = Container(name: string, image: string, rest: string)

  /** Images by container name; of two containers with one name the later counts. */
  function Images(cs: seq<Container>): KV {
    if cs == [] then map[]
    else Images(cs[..|cs| - 1])[cs[|cs| - 1].name := cs[|cs| - 1].image]
  }

  function Names(cs: seq<Container>): set<string> {
    set i | 0 <= i < |cs| :: cs[i].name
  }

  /** The images of those super containers whose name the tenant uses. */
  function Inherited(p: seq<Container>, tenant: KV): KV {
    map k | k in Images(p) && k in tenant :: Images(p)[k]
  }

  lemma {:induction false} ImagesByName(cs: seq<Container>)
    ensures Images(cs).Keys == Names(cs)
  {
    if cs != [] {
      var n := |cs| - 1;
      ImagesByName(cs[..n]);
      assert forall i :: 0 <= i < n ==> cs[..n][i] == cs[i];
      assert Names(cs) == Names(cs[..n]) + {cs[n].name};
    }
  }

  /** Container `i` is the last one of that name. */
  predicate LastNamed(cs: seq<Container>, i: int, name: string) {
    0 <= i < |cs| && cs[i].name == name && forall j :: i < j < |cs| ==> cs[j].name != name
  }

  lemma {:induction false} ImagesLast(cs: seq<Container>, i: int, name: string)
    requires LastNamed(cs, i, name)
    ensures name in Images(cs) && Images(cs)[name] == cs[i].image
  {
    var n := |cs| - 1;
    if i < n {
      assert cs[n].name != name;
      assert forall j :: 0 <= j < n ==> cs[..n][j] == cs[j];
      ImagesLast(cs[..n], i, name);
    }
  }

  lemma {:induction false} SomeLastNamed(cs: seq<Container>, name: string) returns (i: int)
    requires name in Names(cs)
    ensures LastNamed(cs, i, name)
  {
    var n := |cs| - 1;
    i := n;
    if cs[n].name != name {
      var j :| 0 <= j < |cs| && cs[j].name == name;
      assert cs[..n][j].name == name;
      i := SomeLastNamed(cs[..n], name);
      assert forall j :: 0 <= j < n ==> cs[..n][j] == cs[j];
    }
  }

  /** Every container named in `images` gets the image found there. */
  function WithImages(p: seq<Container>, images: KV): (r: seq<Container>)
    ensures |r| == |p|
  {
    if p == [] then []
    else
      var c := p[|p| - 1];
      WithImages(p[..|p| - 1], images) + [if c.name in images then c.(image := images[c.name]) else c]
  }

  lemma {:induction false} WithImagesAt(p: seq<Container>, images: KV, i: nat)
    requires i < |p|
    ensures WithImages(p, images)[i] == if p[i].name in images then p[i].(image := images[p[i].name]) else p[i]
  {
    if i < |p| - 1 {
      WithImagesAt(p[..|p| - 1], images, i);
    }
  }

  lemma {:induction false} ImagesAfter(p: seq<Container>, images: KV)
    ensures Images(WithImages(p, images)) ==
            map k | k in Images(p) :: if k in images then images[k] else Images(p)[k]
  {
    if p != [] {
      var n := |p| - 1;
      ImagesAfter(p[..n], images);
      var w := WithImages(p, images);
      assert w[..n] == WithImages(p[..n], images);
    }
  }

  // ---------- the check ----------

  method CollectImages(cs: seq<Container>) returns (m: KV)
    ensures m == Images(cs)
  {
    m := map[];
    for i := 0 to |cs|
      invariant m == Images(cs[..i])
    {
      assert cs[..i + 1][..i] == cs[..i];
      m := m[cs[i].name := cs[i].image];
    }
    assert cs[..|cs|] == cs;
  }

  method CollectInherited(p: seq<Container>, tenant: KV) returns (m: KV)
    ensures m == Inherited(p, tenant)
  {
    m := map[];
    for i := 0 to |p|
      invariant m == Inherited(p[..i], tenant)
    {
      assert p[..i + 1][..i] == p[..i];
      if p[i].name in tenant {
        m := m[p[i].name := p[i].image];
      }
    }
    assert p[..|p|] == p;
  }

  /** Nothing to change, told apart from a repair by the caller through the length of the list. */
  predicate ImagesEqual(env: Env, p: seq<Container>, v: seq<Container>) {
    DWEqual(env, Inherited(p, Images(v)), Images(v))
  }

  function ImagesRepair(env: Env, p: seq<Container>, v: seq<Container>): seq<Container> {
    WithImages(p, DWRepair(env, Inherited(p, Images(v)), Images(v)))
  }

  method CheckContainersImageEquality(env: Env, p: seq<Container>, v: seq<Container>) returns (updated: seq<Container>)
    ensures updated == if ImagesEqual(env, p, v) then [] else ImagesRepair(env, p, v)
  {
    var tenant := CollectImages(v);
    var inherited := CollectInherited(p, tenant);
    var diff := CheckDWKVEquality(env, inherited, tenant);
    if diff.None? {
      return [];
    }
    updated := [];
    for i := 0 to |p|
      invariant updated == WithImages(p[..i], diff.value)
    {
      assert p[..i + 1][..i] == p[..i];
      if p[i].name !in diff.value || diff.value[p[i].name] == p[i].image {
        updated := updated + [p[i]];
      } else {
        updated := updated + [p[i].(image := diff.value[p[i].name])];
      }
    }
    assert p[..|p|] == p;
  }

  // ---------- when it settles ----------

  /** The super pod has a container for every tenant container the check looks at. */
  predicate Complete(env: Env, p: seq<Container>, v: seq<Container>) {
    forall k :: k in Names(v) && !Exempt(env, k) ==> k in Names(p)
  }

  lemma InheritedAfter(env: Env, p: seq<Container>, v: seq<Container>)
    ensures Inherited(ImagesRepair(env, p, v), Images(v)) ==
            map k | k in Images(p) && k in Images(v) :: if Exempt(env, k) then Images(p)[k] else Images(v)[k]
  {
    ImagesAfter(p, DWRepair(env, Inherited(p, Images(v)), Images(v)));
  }

  lemma RepairedIffComplete(env: Env, p: seq<Container>, v: seq<Container>)
    ensures ImagesEqual(env, ImagesRepair(env, p, v), v) <==> Complete(env, p, v)
  {
    InheritedAfter(env, p, v);
    ImagesByName(p);
    ImagesByName(v);
    var after := Inherited(ImagesRepair(env, p, v), Images(v));
    if !Complete(env, p, v) {
      var k :| k in Names(v) && !Exempt(env, k) && k !in Names(p);
      assert k in Images(v) && k !in after;
    }
  }

  /** What the caller stores: the repaired list, unless the check returned an empty one. */
  function Stored(env: Env, p: seq<Container>, v: seq<Container>): seq<Container> {
    if ImagesEqual(env, p, v) then p else ImagesRepair(env, p, v)
  }

  /** An update is requested when the returned list is not empty. */
  predicate Requests(env: Env, p: seq<Container>, v: seq<Container>) {
    !ImagesEqual(env, p, v) && ImagesRepair(env, p, v) != []
  }

  lemma EqualIsComplete(env: Env, p: seq<Container>, v: seq<Container>)
    requires ImagesEqual(env, p, v)
    ensures Complete(env, p, v)
  {
    ImagesByName(p);
    ImagesByName(v);
    forall k | k in Names(v) && !Exempt(env, k)
      ensures k in Names(p)
    {
      assert k in Images(v);
      assert k in Inherited(p, Images(v));
    }
  }

  /** One update settles the images exactly when no compared tenant container is missing from a non-empty super pod. */
  lemma ImagesSettleIff(env: Env, p: seq<Container>, v: seq<Container>)
    ensures !Requests(env, Stored(env, p, v), v) <==> p == [] || Complete(env, p, v)
  {
    if ImagesEqual(env, p, v) {
      EqualIsComplete(env, p, v);
    } else {
      RepairedIffComplete(env, p, v);
    }
  }

  function StoredAfter(env: Env, p: seq<Container>, v: seq<Container>, rounds: nat): seq<Container> {
    if rounds == 0 then p else Stored(env, StoredAfter(env, p, v, rounds - 1), v)
  }

  /** A repair renames nothing. */
  lemma RepairKeepsNames(env: Env, p: seq<Container>, v: seq<Container>)
    ensures Names(ImagesRepair(env, p, v)) == Names(p)
  {
    var diff := DWRepair(env, Inherited(p, Images(v)), Images(v));
    var r := ImagesRepair(env, p, v);
    forall i | 0 <= i < |p|
      ensures r[i].name == p[i].name
    {
      WithImagesAt(p, diff, i);
    }
    assert forall k :: k in Names(p) ==> exists i :: 0 <= i < |p| && p[i].name == k && r[i].name == k;
  }

  lemma IncompleteStep(env: Env, p: seq<Container>, v: seq<Container>)
    requires p != [] && !Complete(env, p, v)
    ensures Requests(env, p, v)
    ensures Stored(env, p, v) != [] && !Complete(env, Stored(env, p, v), v)
  {
    RepairKeepsNames(env, p, v);
    assert ImagesEqual(env, p, v) ==> Complete(env, p, v) by {
      if ImagesEqual(env, p, v) {
        EqualIsComplete(env, p, v);
      }
    }
  }

  /** Otherwise every later check requests one more update, forever. */
  lemma {:induction false} MissingContainerNeverSettles(env: Env, p: seq<Container>, v: seq<Container>, rounds: nat)
    requires p != [] && !Complete(env, p, v)
    ensures var q := StoredAfter(env, p, v, rounds); q != [] && !Complete(env, q, v) && Requests(env, q, v)
  {
    if rounds > 0 {
      MissingContainerNeverSettles(env, p, v, rounds - 1);
      IncompleteStep(env, StoredAfter(env, p, v, rounds - 1), v);
    }
    IncompleteStep(env, StoredAfter(env, p, v, rounds), v);
  }

  /** Order, names and everything but the image stay; compared tenant containers get the tenant's image. */
  lemma RepairTouchesImages(env: Env, p: seq<Container>, v: seq<Container>, i: nat)
    requires i < |p|
    ensures var c := ImagesRepair(env, p, v)[i];
      && c == p[i].(image := c.image)
      && (p[i].name !in Names(v) ==> c.image == p[i].image)
      && (p[i].name in Names(v) && !Exempt(env, c.name) ==> p[i].name in Images(v) && c.image == Images(v)[c.name])
  {
    WithImagesAt(p, DWRepair(env, Inherited(p, Images(v)), Images(v)), i);
    ImagesByName(v);
  }

  /**
   What is compared and what is changed, container by container: a tenant container that is not the super
   cluster's business must be there with its image, the last of a name counting; the repair gives every super
   container of that name the tenant's image and leaves all others alone.
   */
  lemma ImagesEqualIff(env: Env, p: seq<Container>, v: seq<Container>)
    ensures ImagesEqual(env, p, v) <==>
            forall i, k :: LastNamed(v, i, k) && !SuperOwned(env, k) ==> exists j :: LastNamed(p, j, k) && p[j].image == v[i].image
  {
    ImagesByName(p);
    ImagesByName(v);
    var mine, theirs := Inherited(p, Images(v)), Images(v);
    forall k
      ensures Exempt(env, k) <==> SuperOwned(env, k)
    {
      ExemptIff(env, k);
    }
    forall i, k | LastNamed(v, i, k)
      ensures k in theirs && theirs[k] == v[i].image
      ensures (k in mine && mine[k] == theirs[k]) <==> exists j :: LastNamed(p, j, k) && p[j].image == v[i].image
    {
      ImagesLast(v, i, k);
      SameImage(p, v, i, k);
    }
    if !ImagesEqual(env, p, v) {
      var k :| k in theirs && !Exempt(env, k) && !(k in mine && mine[k] == theirs[k]);
      var i := SomeLastNamed(v, k);
      assert LastNamed(v, i, k) && !SuperOwned(env, k);
    }
  }

  lemma SameImage(p: seq<Container>, v: seq<Container>, i: int, k: string)
    requires LastNamed(v, i, k)
    ensures k in Images(v)
    ensures (k in Inherited(p, Images(v)) && Inherited(p, Images(v))[k] == v[i].image) <==>
            exists j :: LastNamed(p, j, k) && p[j].image == v[i].image
  {
    ImagesLast(v, i, k);
    ImagesByName(p);
    if k in Names(p) {
      var j := SomeLastNamed(p, k);
      ImagesLast(p, j, k);
      assert LastNamed(p, j, k);
    }
  }

  lemma RepairMeans(env: Env, p: seq<Container>, v: seq<Container>, i: nat)
    requires i < |p|
    ensures var c := ImagesRepair(env, p, v)[i];
            && |ImagesRepair(env, p, v)| == |p| && c == p[i].(image := c.image)
            && (p[i].name !in Names(v) ==> c.image == p[i].image)
            && (forall j :: LastNamed(v, j, p[i].name) && !SuperOwned(env, p[i].name) ==> c.image == v[j].image)
            && (forall j :: LastNamed(p, j, p[i].name) && SuperOwned(env, p[i].name) && p[i].name in Names(v) ==> c.image == p[j].image)
  {
    var k := p[i].name;
    WithImagesAt(p, DWRepair(env, Inherited(p, Images(v)), Images(v)), i);
    ImagesByName(v);
    ImagesByName(p);
    ExemptIff(env, k);
    forall j | LastNamed(v, j, k) ensures k in Images(v) && Images(v)[k] == v[j].image { ImagesLast(v, j, k); }
    forall j | LastNamed(p, j, k) ensures k in Images(p) && Images(p)[k] == p[j].image { ImagesLast(p, j, k); }
  }

  // ---------- the specification as a whole ----------

  datatype PodSpec = PodSpec(deadline: Option<int>, containers: seq<Container>, initContainers: seq<Container>, rest: string)

  function SpecRepair(env: Env, p: PodSpec, v: PodSpec): PodSpec {
    p.(deadline := v.deadline,
       containers := Stored(env, p.containers, v.containers),
       initContainers := Stored(env, p.initContainers, v.initContainers))
  }

  predicate SpecRequests(env: Env, p: PodSpec, v: PodSpec) {
    p.deadline != v.deadline || Requests(env, p.containers, v.containers) || Requests(env, p.initContainers, v.initContainers)
  }

  method CheckPodSpecEquality(env: Env, p: PodSpec, v: PodSpec) returns (r: Option<PodSpec>)
    ensures r == if SpecRequests(env, p, v) then Some(SpecRepair(env, p, v)) else None
    ensures r.None? ==> p.deadline == v.deadline
    ensures r.Some? ==> r.value.deadline == v.deadline && r.value.rest == p.rest
  {
    r := None;
    if p.deadline != v.deadline {
      r := Some(p.(deadline := v.deadline));
    }
    var updated := CheckContainersImageEquality(env, p.containers, v.containers);
    if |updated| != 0 {
      r := Some((if r.Some? then r.value else p).(containers := updated));
    }
    updated := CheckContainersImageEquality(env, p.initContainers, v.initContainers);
    if |updated| != 0 {
      r := Some((if r.Some? then r.value else p).(initContainers := updated));
    }
  }

  /** One update of the specification suffices exactly when no compared tenant container is missing. */
  lemma SpecSettlesIff(env: Env, p: PodSpec, v: PodSpec)
    ensures !SpecRequests(env, SpecRepair(env, p, v), v) <==>
      && (p.containers == [] || Complete(env, p.containers, v.containers))
      && (p.initContainers == [] || Complete(env, p.initContainers, v.initContainers))
  {
    ImagesSettleIff(env, p.containers, v.containers);
    ImagesSettleIff(env, p.initContainers, v.initContainers);
  }
}
