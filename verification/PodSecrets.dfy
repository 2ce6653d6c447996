/**
 Service account secrets of a pod on its way to the super cluster: volumes named after their secret are
 renamed with it, and so are the mounts that refer to them, in separate loops. Mounts keep finding their
 volume exactly when no two volumes end up with one name.
 */
module PodSecrets {
  import opened Resources

  datatype Volume = Volume(name: string, secret: Option<string>, rest: string)

  datatype Mount = Mount(name: string, path: string)

  /** Tenant secret names to super secret names. */
  type SecretMap = map<string, string>

  // ---------- references ----------

  /** The first volume of that name, or the length of the list. */
  function Resolve(name: string, vs: seq<Volume>): (i: nat)
    ensures i <= |vs|
    ensures i < |vs| ==> vs[i].name == name
    ensures forall j :: 0 <= j < i ==> vs[j].name != name
  {
    if vs == [] || vs[0].name == name then 0 else 1 + Resolve(name, vs[1..])
  }

  ghost predicate UniqueNames(vs: seq<Volume>) {
    forall i, j :: 0 <= i < j < |vs| ==> vs[i].name != vs[j].name
  }

  lemma UniqueResolves(vs: seq<Volume>)
    ensures UniqueNames(vs) <==> forall i :: 0 <= i < |vs| ==> Resolve(vs[i].name, vs) == i
  {
  }

  // ---------- renaming ----------

  predicate NamedAfterSecret(v: Volume) { v.secret == Some(v.name) }

  predicate Moves(v: Volume, sa: SecretMap) { NamedAfterSecret(v) && v.name in sa }

  function RenameVolume(v: Volume, sa: SecretMap): Volume {
    if v.secret.None? || v.secret.value !in sa then v
    else v.(secret := Some(sa[v.secret.value]), name := if v.name == v.secret.value then sa[v.secret.value] else v.name)
  }

  function RenameMount(m: Mount, sa: SecretMap, vs: seq<Volume>): Mount {
    var i := Resolve(m.name, vs);
    if i < |vs| && NamedAfterSecret(vs[i]) && m.name in sa then m.(name := sa[m.name]) else m
  }

  function RenameVolumes(vs: seq<Volume>, sa: SecretMap): (r: seq<Volume>)
    ensures |r| == |vs|
    ensures forall i :: 0 <= i < |vs| ==> r[i] == RenameVolume(vs[i], sa)
  {
    if vs == [] then [] else RenameVolumes(vs[..|vs| - 1], sa) + [RenameVolume(vs[|vs| - 1], sa)]
  }

  /** The super cluster's secret for a tenant secret, if there is one. */
  function SuperSecret(secret: Option<string>, sa: SecretMap): Option<string> {
    if secret.Some? && secret.value in sa then Some(sa[secret.value]) else secret
  }

  /** The volume points to the super secret; apart from its name nothing else changes, and the name only along with the secret. */
  lemma VolumeMeans(v: Volume, sa: SecretMap)
    ensures var r := RenameVolume(v, sa);
            && r.secret == SuperSecret(v.secret, sa) && r.rest == v.rest
            && (if v.secret == Some(v.name) then Some(r.name) == r.secret else r.name == v.name)
  {
  }

  // ---------- the loops ----------

  method FindVolume(name: string, vs: seq<Volume>) returns (need: bool)
    ensures need == (Resolve(name, vs) < |vs| && NamedAfterSecret(vs[Resolve(name, vs)]))
  {
    need := false;
    for i := 0 to |vs|
      invariant !need
      invariant forall j :: 0 <= j < i ==> vs[j].name != name
    {
      if name == vs[i].name {
        assert Resolve(name, vs) == i;
        need := vs[i].secret.Some? && vs[i].name == vs[i].secret.value;
        return;
      }
    }
  }

  method MutateContainerSecret(mounts: array<Mount>, sa: SecretMap, vs: seq<Volume>)
    modifies mounts
    ensures forall j :: 0 <= j < mounts.Length ==> mounts[j] == RenameMount(old(mounts[j]), sa, vs)
    ensures forall j :: 0 <= j < mounts.Length ==> mounts[j].path == old(mounts[j]).path
  {
    for j := 0 to mounts.Length
      invariant forall k :: 0 <= k < j ==> mounts[k] == RenameMount(old(mounts[k]), sa, vs)
      invariant forall k :: j <= k < mounts.Length ==> mounts[k] == old(mounts[k])
    {
      var need := FindVolume(mounts[j].name, vs);
      if need {
        if mounts[j].name in sa {
          mounts[j] := mounts[j].(name := sa[mounts[j].name]);
        }
      }
    }
  }

  method RenameSecretVolumes(volumes: array<Volume>, sa: SecretMap)
    modifies volumes
    ensures volumes[..] == RenameVolumes(old(volumes[..]), sa)
    ensures forall i :: 0 <= i < volumes.Length ==>
      && volumes[i].secret == SuperSecret(old(volumes[i]).secret, sa) && volumes[i].rest == old(volumes[i]).rest
      && (if old(volumes[i]).secret == Some(old(volumes[i]).name) then Some(volumes[i].name) == volumes[i].secret
          else volumes[i].name == old(volumes[i]).name)
  {
    for i := 0 to volumes.Length
      invariant forall k :: 0 <= k < i ==> volumes[k] == RenameVolume(old(volumes[k]), sa)
      invariant forall k :: i <= k < volumes.Length ==> volumes[k] == old(volumes[k])
    {
      var v := volumes[i];
      if v.secret.Some? && v.secret.value in sa {
        var name := sa[v.secret.value];
        if v.name == v.secret.value {
          volumes[i] := volumes[i].(name := name);
        }
        volumes[i] := volumes[i].(secret := Some(name));
      }
    }
  }

  // ---------- when mounts keep their volume ----------

  /** Renamed volumes get names of their own, different from each other and from the names that stay. */
  ghost predicate NoCollision(vs: seq<Volume>, sa: SecretMap) {
    forall i, j :: 0 <= i < |vs| && 0 <= j < |vs| && i != j && Moves(vs[i], sa) ==>
      sa[vs[i].name] != if Moves(vs[j], sa) then sa[vs[j].name] else vs[j].name
  }

  /** Every mount that had a volume still finds the one at the same index. */
  ghost predicate KeepsResolving(vs: seq<Volume>, sa: SecretMap) {
    forall m: Mount :: Resolve(m.name, vs) < |vs| ==>
      Resolve(RenameMount(m, sa, vs).name, RenameVolumes(vs, sa)) == Resolve(m.name, vs)
  }

  lemma NewName(v: Volume, sa: SecretMap)
    ensures RenameVolume(v, sa).name == if Moves(v, sa) then sa[v.name] else v.name
  {
  }

  lemma NoCollisionIsUnique(vs: seq<Volume>, sa: SecretMap)
    requires UniqueNames(vs)
    ensures NoCollision(vs, sa) <==> UniqueNames(RenameVolumes(vs, sa))
  {
    var r := RenameVolumes(vs, sa);
    forall i | 0 <= i < |vs|
      ensures r[i].name == if Moves(vs[i], sa) then sa[vs[i].name] else vs[i].name
    {
      NewName(vs[i], sa);
    }
    if UniqueNames(r) {
      forall i, j | 0 <= i < |vs| && 0 <= j < |vs| && i != j && Moves(vs[i], sa)
        ensures sa[vs[i].name] != if Moves(vs[j], sa) then sa[vs[j].name] else vs[j].name
      {
        assert r[i].name != r[j].name;
      }
    }
  }

  /** A mount and the volume it names are renamed alike, though by different loops. */
  lemma RenamedAlike(m: Mount, vs: seq<Volume>, sa: SecretMap)
    requires Resolve(m.name, vs) < |vs|
    ensures RenameMount(m, sa, vs).name == RenameVolume(vs[Resolve(m.name, vs)], sa).name
  {
    NewName(vs[Resolve(m.name, vs)], sa);
  }

  lemma MountsResolveIff(vs: seq<Volume>, sa: SecretMap)
    requires UniqueNames(vs)
    ensures KeepsResolving(vs, sa) <==> NoCollision(vs, sa)
  {
    var r := RenameVolumes(vs, sa);
    NoCollisionIsUnique(vs, sa);
    UniqueResolves(vs);
    UniqueResolves(r);
    if KeepsResolving(vs, sa) {
      forall i | 0 <= i < |vs|
        ensures Resolve(r[i].name, r) == i
      {
        var m := Mount(vs[i].name, "");
        RenamedAlike(m, vs, sa);
        assert Resolve(m.name, vs) == i;
      }
    }
    if UniqueNames(r) {
      forall m: Mount | Resolve(m.name, vs) < |vs|
        ensures Resolve(RenameMount(m, sa, vs).name, r) == Resolve(m.name, vs)
      {
        RenamedAlike(m, vs, sa);
      }
    }
  }

  /** What is mounted is the tenant's volume with the super secret in it, at the same path. */
  lemma MountsFollowSecrets(m: Mount, vs: seq<Volume>, sa: SecretMap)
    requires UniqueNames(vs) && NoCollision(vs, sa) && Resolve(m.name, vs) < |vs|
    ensures var v, n, r := vs[Resolve(m.name, vs)], RenameMount(m, sa, vs), RenameVolumes(vs, sa);
            && n.path == m.path && Resolve(n.name, r) < |r|
            && r[Resolve(n.name, r)].secret == SuperSecret(v.secret, sa) && r[Resolve(n.name, r)].rest == v.rest
  {
    MountsResolveIff(vs, sa);
  }

  /** A dangling mount is not renamed; it stays dangling unless a secret's new name happens to be its name. */
  lemma DanglingMounts(m: Mount, vs: seq<Volume>, sa: SecretMap)
    requires Resolve(m.name, vs) == |vs|
    ensures RenameMount(m, sa, vs) == m
    ensures Resolve(m.name, RenameVolumes(vs, sa)) == |vs| <==>
            forall i :: 0 <= i < |vs| && Moves(vs[i], sa) ==> sa[vs[i].name] != m.name
  {
    var r := RenameVolumes(vs, sa);
    forall i | 0 <= i < |vs|
      ensures r[i].name == m.name <==> Moves(vs[i], sa) && sa[vs[i].name] == m.name
    {
      NewName(vs[i], sa);
    }
  }

  // ---------- the pod ----------

  /** The mount lists of different containers are different arrays. */
  ghost predicate Separate(containers: seq<array<Mount>>) {
    forall i, j :: 0 <= i < j < |containers| ==> containers[i] != containers[j]
  }

  ghost function MountSet(containers: seq<array<Mount>>): set<array<Mount>> {
    set i | 0 <= i < |containers| :: containers[i]
  }

  method MutateContainers(containers: seq<array<Mount>>, sa: SecretMap, vs: seq<Volume>)
    requires Separate(containers)
    modifies MountSet(containers)
    ensures forall i, j :: 0 <= i < |containers| && 0 <= j < containers[i].Length ==>
      containers[i][j] == RenameMount(old(containers[i][j]), sa, vs)
  {
    for n := 0 to |containers|
      invariant forall i, j :: 0 <= i < n && 0 <= j < containers[i].Length ==>
        containers[i][j] == RenameMount(old(containers[i][j]), sa, vs)
      invariant forall i, j :: n <= i < |containers| && 0 <= j < containers[i].Length ==>
        containers[i][j] == old(containers[i][j])
    {
      MutateContainerSecret(containers[n], sa, vs);
    }
  }

  /** Containers (ordinary then init) and volumes of the super pod; `vs` are the volumes of the tenant pod. */
  method MutatePodSecrets(containers: seq<array<Mount>>, volumes: array<Volume>, sa: SecretMap, vs: seq<Volume>)
    requires Separate(containers)
    modifies MountSet(containers), volumes
    ensures volumes[..] == RenameVolumes(old(volumes[..]), sa)
    ensures forall i, j :: 0 <= i < |containers| && 0 <= j < containers[i].Length ==>
      containers[i][j] == RenameMount(old(containers[i][j]), sa, vs)
    ensures old(volumes[..]) == vs && UniqueNames(vs) && NoCollision(vs, sa) ==> forall i, j :: 0 <= i < |containers| && 0 <= j < containers[i].Length ==>
      var index := Resolve(old(containers[i][j]).name, vs);
      index < |vs| ==> Resolve(containers[i][j].name, volumes[..]) == index
  {
    MutateContainers(containers, sa, vs);
    RenameSecretVolumes(volumes, sa);
    if old(volumes[..]) == vs && UniqueNames(vs) {
      MountsResolveIff(vs, sa);
    }
  }
}
