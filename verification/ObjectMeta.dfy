/**
 The metadata of an object: the downward and upward checks, the object the syncer creates in the super
 cluster, and the fact that a freshly created object needs no repair.
 */
module ObjectMetas {
  import opened Resources
  import opened Directions
  import opened MetaSync

  /** The fields the checks compare (the first four) and those that creation overwrites. */
  datatype Meta = Meta(
    generateName: string, labels: KV, annotations: KV, clusterName: string,
    name: string, namespace: string, uid: string, resourceVersion: string,
    owners: seq<string>, finalizers: seq<string>)

  // ---------- the downward check ----------

  predicate MetaDWEqual(env: Env, p: Meta, v: Meta) {
    && p.generateName == v.generateName
    && p.clusterName == v.clusterName
    && DWEqual(env, p.labels, v.labels)
    && DWEqual(env, p.annotations, v.annotations)
  }

  function MetaDWRepair(env: Env, p: Meta, v: Meta): Meta {
    p.(generateName := v.generateName, clusterName := v.clusterName,
       labels := DWRepair(env, p.labels, v.labels), annotations := DWRepair(env, p.annotations, v.annotations))
  }

  method CheckDWObjectMetaEquality(env: Env, p: Meta, v: Meta) returns (r: Option<Meta>)
    ensures r == if MetaDWEqual(env, p, v) then None else Some(MetaDWRepair(env, p, v))
  {
    DWEqualIsRepaired(env, p.labels, v.labels);
    DWEqualIsRepaired(env, p.annotations, v.annotations);
    r := None;
    if p.generateName != v.generateName {
      r := Some(p.(generateName := v.generateName));
    }
    var labels := CheckDWKVEquality(env, p.labels, v.labels);
    if labels.Some? {
      r := Some((if r.Some? then r.value else p).(labels := labels.value));
    }
    var annotations := CheckDWKVEquality(env, p.annotations, v.annotations);
    if annotations.Some? {
      r := Some((if r.Some? then r.value else p).(annotations := annotations.value));
    }
    if p.clusterName != v.clusterName {
      r := Some((if r.Some? then r.value else p).(clusterName := v.clusterName));
    }
  }

  // ---------- the upward check ----------

  predicate MetaUWEqual(env: Env, p: Meta, v: Meta) {
    UWEqual(env, p.labels, v.labels) && UWEqual(env, p.annotations, v.annotations)
  }

  function MetaUWRepair(env: Env, p: Meta, v: Meta): Meta {
    v.(labels := UWRepair(env, p.labels, v.labels), annotations := UWRepair(env, p.annotations, v.annotations))
  }

  method CheckUWObjectMetaEquality(env: Env, p: Meta, v: Meta) returns (r: Option<Meta>)
    ensures r == if MetaUWEqual(env, p, v) then None else Some(MetaUWRepair(env, p, v))
  {
    UWEqualIsRepaired(env, p.labels, v.labels);
    UWEqualIsRepaired(env, p.annotations, v.annotations);
    r := None;
    var labels := CheckUWKVEquality(env, p.labels, v.labels);
    if labels.Some? {
      r := Some(v.(labels := labels.value));
    }
    var annotations := CheckUWKVEquality(env, p.annotations, v.annotations);
    if annotations.Some? {
      r := Some((if r.Some? then r.value else v).(annotations := annotations.value));
    }
  }

  // ---------- both directions, any number of times ----------

  datatype Twins = Twins(p: Meta, v: Meta)

  function SyncTwins(env: Env, s: Twins, d: Direction): Twins {
    match d
    case Down => if MetaDWEqual(env, s.p, s.v) then s else s.(p := MetaDWRepair(env, s.p, s.v))
    case Up => if MetaUWEqual(env, s.p, s.v) then s else s.(v := MetaUWRepair(env, s.p, s.v))
  }

  function SyncTwinsAll(env: Env, s: Twins, ds: seq<Direction>): Twins {
    if ds == [] then s else SyncTwins(env, SyncTwinsAll(env, s, ds[..|ds| - 1]), ds[|ds| - 1])
  }

  function Labels(s: Twins): Pair { Pair(s.p.labels, s.v.labels) }

  function Annotations(s: Twins): Pair { Pair(s.p.annotations, s.v.annotations) }

  lemma SyncTwinsSplits(env: Env, s: Twins, d: Direction)
    ensures Labels(SyncTwins(env, s, d)) == Sync(env, Labels(s), d)
    ensures Annotations(SyncTwins(env, s, d)) == Sync(env, Annotations(s), d)
  {
    DWEqualIsRepaired(env, s.p.labels, s.v.labels);
    DWEqualIsRepaired(env, s.p.annotations, s.v.annotations);
    UWEqualIsRepaired(env, s.p.labels, s.v.labels);
    UWEqualIsRepaired(env, s.p.annotations, s.v.annotations);
  }

  /** The fields no check compares. */
  predicate SameIdentity(a: Meta, b: Meta) {
    && a.name == b.name && a.namespace == b.namespace && a.uid == b.uid && a.resourceVersion == b.resourceVersion
    && a.owners == b.owners && a.finalizers == b.finalizers
  }

  /**
   The tenant's own fields never change and reach the super object with the first downward repair; what no
   check compares is never touched on either side.
   */
  lemma {:induction false} SyncTwinsAllSplits(env: Env, s: Twins, ds: seq<Direction>)
    ensures var t := SyncTwinsAll(env, s, ds);
      && Labels(t) == SyncAll(env, Labels(s), ds)
      && Annotations(t) == SyncAll(env, Annotations(s), ds)
      && t.v.generateName == s.v.generateName && t.v.clusterName == s.v.clusterName
      && (Down in ds ==> t.p.generateName == s.v.generateName && t.p.clusterName == s.v.clusterName)
      && SameIdentity(t.p, s.p) && SameIdentity(t.v, s.v)
  {
    if ds != [] {
      var n := |ds| - 1;
      SyncTwinsAllSplits(env, s, ds[..n]);
      SyncTwinsSplits(env, SyncTwinsAll(env, s, ds[..n]), ds[n]);
      assert ds[..n] + [ds[n]] == ds;
    }
  }

  /** After any run that used both directions, both checks of the whole metadata report equal. */
  lemma MetadataIsQuiet(env: Env, s: Twins, ds: seq<Direction>)
    requires Down in ds && Up in ds
    ensures var t := SyncTwinsAll(env, s, ds);
            && MetaDWEqual(env, t.p, t.v) && MetaUWEqual(env, t.p, t.v)
            && t.p.generateName == s.v.generateName && t.p.clusterName == s.v.clusterName
            && SameIdentity(t.p, s.p) && SameIdentity(t.v, s.v)
  {
    SyncTwinsAllSplits(env, s, ds);
    SyncIsQuiet(env, Labels(s), ds);
    SyncIsQuiet(env, Annotations(s), ds);
  }

  // ---------- creation ----------

  const LABEL_CLUSTER := "tenancy.x-k8s.io/cluster"
  const LABEL_UID := "tenancy.x-k8s.io/uid"
  const LABEL_OWNERS := "tenancy.x-k8s.io/ownerReferences"
  const LABEL_NAMESPACE := "tenancy.x-k8s.io/namespace"
  const LABEL_VC_NAME := "tenancy.x-k8s.io/vcname"
  const LABEL_VC_NAMESPACE := "tenancy.x-k8s.io/vcnamespace"
  const LABEL_VC_UID := "tenancy.x-k8s.io/vcuid"
  const LABEL_CONTROLLED := "tenancy.x-k8s.io/controlled"

  /** The virtual cluster an object belongs to. */
  datatype Owner = Owner(name: string, namespace: string, uid: string)

  /**
   What creation learns from outside: the cluster key, its owner if the lookup finds one, the feature
   gate, and two encodings, of which the one of owner references can fail.
   */
  datatype Creation = Creation(
    cluster: string, owner: Option<Owner>, labelling: bool,
    marshal: seq<string> -> Option<string>, superNamespace: string -> string)

  /** Keys dropped at creation: transparent prefixes of the tenant stay. */
  predicate Opaque(env: Env, key: string) {
    || (env.vc.Some? && HasPrefixIn(key, env.vc.value.opaquePrefixes + [OPAQUE_PREFIX, TRANSPARENT_PREFIX]))
    || IsOpaqueKey(env, key)
  }

  /** What a tenant cannot bring along: its opaque prefixes, the syncer's own, configured domains. */
  ghost predicate LeftBehind(env: Env, key: string) {
    || (env.vc.Some? && (|| StartsWith(key, "tenancy.x-k8s.io") || StartsWith(key, "transparency.tenancy.x-k8s.io")
                         || exists p :: p in env.vc.value.opaquePrefixes && StartsWith(key, p)))
    || InDomain(env, key)
  }

  lemma OpaqueIff(env: Env, key: string)
    ensures Opaque(env, key) <==> LeftBehind(env, key)
  {
    OpaqueKeyIff(env, key);
    if env.vc.Some? {
      var list := env.vc.value.opaquePrefixes + [OPAQUE_PREFIX, TRANSPARENT_PREFIX];
      PrefixInMeans(key, list);
      assert forall p :: p in list <==>
        p in env.vc.value.opaquePrefixes || p == "tenancy.x-k8s.io" || p == "transparency.tenancy.x-k8s.io";
    }
  }

  lemma CleanedMeans(env: Env, m: KV, k: string)
    ensures At(Cleaned(env, m), k) == if LeftBehind(env, k) then None else At(m, k)
  {
    OpaqueIff(env, k);
  }

  function Cleaned(env: Env, m: KV): KV {
    map k | k in m && !Opaque(env, k) :: m[k]
  }

  method CleanOpaqueKeys(env: Env, keyMap: KV) returns (m: KV)
    ensures m == Cleaned(env, keyMap)
    ensures forall k :: At(m, k) == if LeftBehind(env, k) then None else At(keyMap, k)
  {
    forall k ensures At(Cleaned(env, keyMap), k) == if LeftBehind(env, k) then None else At(keyMap, k) { CleanedMeans(env, keyMap, k); }
    m := keyMap;
    var todo := keyMap.Keys;
    while todo != {}
      invariant todo <= keyMap.Keys
      invariant m == map k | k in keyMap && (k in todo || !Opaque(env, k)) :: keyMap[k]
      decreases todo
    {
      var k :| k in todo;
      todo := todo - {k};
      if Opaque(env, k) {
        m := m - {k};
      }
    }
  }

  /** The bookkeeping fields of a copy are emptied. */
  function Reset(m: Meta): Meta {
    m.(uid := "", resourceVersion := "", owners := [], finalizers := [], clusterName := "")
  }

  function ControlledLabel(c: Creation): KV {
    if c.labelling then map[LABEL_CONTROLLED := "true"] else map[]
  }

  function OwnerLabels(o: Owner): KV {
    map[LABEL_VC_NAME := o.name, LABEL_VC_NAMESPACE := o.namespace]
  }

  function ObjectLabels(c: Creation, o: Owner): KV {
    OwnerLabels(o) + ControlledLabel(c)
  }

  function ObjectAnnotations(c: Creation, o: Owner, v: Meta, owners: string): KV {
    map[LABEL_CLUSTER := c.cluster, LABEL_UID := v.uid, LABEL_OWNERS := owners,
        LABEL_NAMESPACE := v.namespace, LABEL_VC_NAME := o.name, LABEL_VC_NAMESPACE := o.namespace]
  }

  function NamespaceAnnotations(c: Creation, o: Owner, v: Meta): KV {
    map[LABEL_CLUSTER := c.cluster, LABEL_UID := v.uid, LABEL_NAMESPACE := v.name,
        LABEL_VC_NAME := o.name, LABEL_VC_NAMESPACE := o.namespace, LABEL_VC_UID := o.uid]
  }

  /** A cleaned, reset copy that carries the syncer's own labels and annotations. */
  function Dressed(env: Env, v: Meta, labels: KV, annotations: KV): Meta {
    Reset(v).(labels := Cleaned(env, v.labels) + labels, annotations := Cleaned(env, v.annotations) + annotations)
  }

  lemma AddInTurn(m: KV, a: KV, b: KV)
    ensures (m + a) + b == m + (a + b)
  {
  }

  method WithSuperClusterLabels(c: Creation, labels: KV) returns (r: KV)
    ensures r == labels + ControlledLabel(c)
  {
    r := if c.labelling then labels[LABEL_CONTROLLED := "true"] else labels;
  }

  /** The cluster lookup fails when the key names no virtual cluster; then nothing is built. */
  method BuildCleanSuperClusterObject(env: Env, v: Meta) returns (r: Option<Meta>)
    ensures r == if env.vc.None? then None
      else Some(Reset(v).(labels := Cleaned(env, v.labels), annotations := Cleaned(env, v.annotations)))
  {
    if env.vc.None? {
      return None;
    }
    var labels := CleanOpaqueKeys(env, v.labels);
    var annotations := CleanOpaqueKeys(env, v.annotations);
    return Some(Reset(v.(labels := labels, annotations := annotations)));
  }

  /** Needs the virtual cluster, its owner information and encodable owner references, in this order. */
  method BuildSuperClusterObject(env: Env, c: Creation, v: Meta) returns (r: Option<Meta>)
    ensures r == if env.vc.None? || c.owner.None? || c.marshal(v.owners).None? then None
      else Some(Dressed(env, v, ObjectLabels(c, c.owner.value), ObjectAnnotations(c, c.owner.value, v, c.marshal(v.owners).value))
                  .(namespace := c.superNamespace(v.namespace)))
    ensures r.Some? ==> CreatedObject(env, c, v, r.value) && VirtualOwner(r.value) == (c.cluster, v.namespace)
  {
    var clean := BuildCleanSuperClusterObject(env, v);
    if clean.None? || c.owner.None? {
      return None;
    }
    var owners := c.marshal(v.owners);
    if owners.None? {
      return None;
    }
    var m, o := clean.value, c.owner.value;
    m := m.(annotations := m.annotations + ObjectAnnotations(c, o, v, owners.value));
    var labels := WithSuperClusterLabels(c, m.labels + OwnerLabels(o));
    AddInTurn(m.labels, OwnerLabels(o), ControlledLabel(c));
    ObjectIsAnnotated(env, c, o, v);
    ObjectIsLabelled(env, c, o, v);
    return Some(m.(labels := labels, namespace := c.superNamespace(v.namespace)));
  }

  method BuildSuperClusterNamespace(env: Env, c: Creation, v: Meta) returns (r: Option<Meta>)
    ensures r == if env.vc.None? || c.owner.None? then None
      else Some(Dressed(env, v, ControlledLabel(c), NamespaceAnnotations(c, c.owner.value, v)).(name := c.superNamespace(v.name)))
    ensures r.Some? ==> CreatedNamespace(env, c, v, r.value) && VirtualOwner(r.value) == (c.cluster, v.name)
  {
    var clean := BuildCleanSuperClusterObject(env, v);
    if clean.None? || c.owner.None? {
      return None;
    }
    var m := clean.value;
    var labels := WithSuperClusterLabels(c, m.labels);
    m := m.(annotations := m.annotations + NamespaceAnnotations(c, c.owner.value, v));
    NamespaceIsAnnotated(env, c, c.owner.value, v);
    NamespaceIsLabelled(env, c, v.labels);
    return Some(m.(labels := labels, name := c.superNamespace(v.name)));
  }

  // ---------- what a created object carries ----------

  /** Nothing of the tenant object's bookkeeping is copied; its generated name prefix is. */
  predicate Fresh(m: Meta, v: Meta) {
    && m.uid == "" && m.resourceVersion == "" && m.owners == [] && m.finalizers == [] && m.clusterName == ""
    && m.generateName == v.generateName
  }

  /** Besides the keys in `own`, a tenant key is carried over unless it has to stay behind. */
  ghost predicate Carries(env: Env, m: KV, v: KV, own: set<string>) {
    forall k :: k !in own ==> At(m, k) == if LeftBehind(env, k) then None else At(v, k)
  }

  /** Where the object comes from can be read off its annotations. */
  ghost predicate ObjectAnnotated(env: Env, c: Creation, o: Owner, v: Meta, m: KV) {
    && At(m, "tenancy.x-k8s.io/cluster") == Some(c.cluster)
    && At(m, "tenancy.x-k8s.io/uid") == Some(v.uid)
    && At(m, "tenancy.x-k8s.io/ownerReferences") == c.marshal(v.owners)
    && At(m, "tenancy.x-k8s.io/namespace") == Some(v.namespace)
    && At(m, "tenancy.x-k8s.io/vcname") == Some(o.name)
    && At(m, "tenancy.x-k8s.io/vcnamespace") == Some(o.namespace)
    && Carries(env, m, v.annotations,
         {"tenancy.x-k8s.io/cluster", "tenancy.x-k8s.io/uid", "tenancy.x-k8s.io/ownerReferences", "tenancy.x-k8s.io/namespace",
          "tenancy.x-k8s.io/vcname", "tenancy.x-k8s.io/vcnamespace"})
  }

  ghost predicate ObjectLabelled(env: Env, c: Creation, o: Owner, v: Meta, m: KV) {
    && At(m, "tenancy.x-k8s.io/vcname") == Some(o.name)
    && At(m, "tenancy.x-k8s.io/vcnamespace") == Some(o.namespace)
    && Controlled(c, m)
    && Carries(env, m, v.labels, {"tenancy.x-k8s.io/vcname", "tenancy.x-k8s.io/vcnamespace", "tenancy.x-k8s.io/controlled"})
  }

  ghost predicate CreatedObject(env: Env, c: Creation, v: Meta, m: Meta)
    requires c.owner.Some?
  {
    && Fresh(m, v) && m.name == v.name && m.namespace == c.superNamespace(v.namespace)
    && ObjectAnnotated(env, c, c.owner.value, v, m.annotations)
    && ObjectLabelled(env, c, c.owner.value, v, m.labels)
  }

  ghost predicate NamespaceAnnotated(env: Env, c: Creation, o: Owner, v: Meta, m: KV) {
    && At(m, "tenancy.x-k8s.io/cluster") == Some(c.cluster)
    && At(m, "tenancy.x-k8s.io/uid") == Some(v.uid)
    && At(m, "tenancy.x-k8s.io/namespace") == Some(v.name)
    && At(m, "tenancy.x-k8s.io/vcname") == Some(o.name)
    && At(m, "tenancy.x-k8s.io/vcnamespace") == Some(o.namespace)
    && At(m, "tenancy.x-k8s.io/vcuid") == Some(o.uid)
    && Carries(env, m, v.annotations,
         {"tenancy.x-k8s.io/cluster", "tenancy.x-k8s.io/uid", "tenancy.x-k8s.io/namespace",
          "tenancy.x-k8s.io/vcname", "tenancy.x-k8s.io/vcnamespace", "tenancy.x-k8s.io/vcuid"})
  }

  ghost predicate CreatedNamespace(env: Env, c: Creation, v: Meta, m: Meta)
    requires c.owner.Some?
  {
    && Fresh(m, v) && m.name == c.superNamespace(v.name) && m.namespace == v.namespace
    && NamespaceAnnotated(env, c, c.owner.value, v, m.annotations)
    && Controlled(c, m.labels) && Carries(env, m.labels, v.labels, {"tenancy.x-k8s.io/controlled"})
  }

  /** With the feature gate on the object is labelled as controlled; a tenant cannot do that itself. */
  predicate Controlled(c: Creation, labels: KV) {
    At(labels, "tenancy.x-k8s.io/controlled") == if c.labelling then Some("true") else None
  }

  lemma OwnKeyIsLeftBehind(env: Env, name: string)
    requires env.vc.Some?
    ensures LeftBehind(env, "tenancy.x-k8s.io/" + name)
  {
    assert "tenancy.x-k8s.io/" + name == "tenancy.x-k8s.io" + ("/" + name);
  }

  /** Adding the syncer's keys on top of the cleaned ones. */
  lemma AddedOnTop(env: Env, v: KV, added: KV, k: string)
    ensures At(Cleaned(env, v) + added, k) == if k in added then Some(added[k]) else if LeftBehind(env, k) then None else At(v, k)
  {
    CleanedMeans(env, v, k);
  }

  lemma OnTop(env: Env, v: KV, added: KV)
    ensures forall k :: At(Cleaned(env, v) + added, k) == if k in added then Some(added[k]) else if LeftBehind(env, k) then None else At(v, k)
  {
    forall k
      ensures At(Cleaned(env, v) + added, k) == if k in added then Some(added[k]) else if LeftBehind(env, k) then None else At(v, k)
    {
      AddedOnTop(env, v, added, k);
    }
  }

  lemma ObjectIsAnnotated(env: Env, c: Creation, o: Owner, v: Meta)
    requires c.marshal(v.owners).Some?
    ensures ObjectAnnotated(env, c, o, v, Cleaned(env, v.annotations) + ObjectAnnotations(c, o, v, c.marshal(v.owners).value))
  {
    OnTop(env, v.annotations, ObjectAnnotations(c, o, v, c.marshal(v.owners).value));
  }

  lemma ObjectIsLabelled(env: Env, c: Creation, o: Owner, v: Meta)
    requires env.vc.Some?
    ensures ObjectLabelled(env, c, o, v, Cleaned(env, v.labels) + ObjectLabels(c, o))
  {
    OwnKeyIsLeftBehind(env, "controlled");
    assert "tenancy.x-k8s.io/" + "controlled" == "tenancy.x-k8s.io/controlled";
    OnTop(env, v.labels, ObjectLabels(c, o));
  }

  lemma NamespaceIsAnnotated(env: Env, c: Creation, o: Owner, v: Meta)
    ensures NamespaceAnnotated(env, c, o, v, Cleaned(env, v.annotations) + NamespaceAnnotations(c, o, v))
  {
    OnTop(env, v.annotations, NamespaceAnnotations(c, o, v));
  }

  lemma NamespaceIsLabelled(env: Env, c: Creation, v: KV)
    requires env.vc.Some?
    ensures var m := Cleaned(env, v) + ControlledLabel(c);
            Controlled(c, m) && Carries(env, m, v, {"tenancy.x-k8s.io/controlled"})
  {
    OwnKeyIsLeftBehind(env, "controlled");
    assert "tenancy.x-k8s.io/" + "controlled" == "tenancy.x-k8s.io/controlled";
    OnTop(env, v, ControlledLabel(c));
  }

  // ---------- back from a super object to its tenant object ----------

  function Lookup(m: KV, k: string): string {
    if k in m then m[k] else ""
  }

  /** `GetVirtualOwner` and `GetVirtualNamespace`: the cluster and the namespace the annotations name. */
  function VirtualOwner(m: Meta): (string, string) {
    (Lookup(m.annotations, LABEL_CLUSTER), Lookup(m.annotations, LABEL_NAMESPACE))
  }

  // ---------- a created object is left alone ----------

  /** Every key the syncer adds lies under its own prefix. */
  predicate Reserved(m: KV) {
    forall k :: k in m ==> OPAQUE_PREFIX <= k
  }

  lemma LabelsAreReserved(c: Creation, o: Owner)
    ensures Reserved(ObjectLabels(c, o)) && Reserved(ControlledLabel(c))
  {
  }

  lemma ObjectAnnotationsAreReserved(c: Creation, o: Owner, v: Meta, owners: string)
    ensures Reserved(ObjectAnnotations(c, o, v, owners))
  {
  }

  lemma NamespaceAnnotationsAreReserved(c: Creation, o: Owner, v: Meta)
    ensures Reserved(NamespaceAnnotations(c, o, v))
  {
  }

  lemma ReservedIsExempt(env: Env, key: string)
    requires env.vc.Some? && OPAQUE_PREFIX <= key
    ensures Exempt(env, key)
  {
    assert OPAQUE_PREFIX in Exceptions(env);
  }

  lemma OpaqueIsExempt(env: Env, key: string)
    requires Opaque(env, key)
    ensures Exempt(env, key)
  {
    if !IsOpaqueKey(env, key) {
      var p :| p in env.vc.value.opaquePrefixes + [OPAQUE_PREFIX, TRANSPARENT_PREFIX] && p <= key;
      assert p in Exceptions(env) && p <= key;
    }
  }

  lemma CleanedIsQuiet(env: Env, v: KV, added: KV)
    requires env.vc.Some? && Reserved(added)
    ensures DWEqual(env, Cleaned(env, v) + added, v)
  {
    var p := Cleaned(env, v) + added;
    forall k | !Exempt(env, k)
      ensures k in v <==> k in p
      ensures k in v ==> p[k] == v[k]
    {
      if Opaque(env, k) {
        OpaqueIsExempt(env, k);
      }
      if k in added {
        ReservedIsExempt(env, k);
      }
    }
  }

  /** A created object passes the downward check against its source exactly when the source names no cluster. */
  lemma CreatedIsQuiet(env: Env, v: Meta, labels: KV, annotations: KV, name: string, namespace: string)
    requires env.vc.Some? && Reserved(labels) && Reserved(annotations)
    ensures MetaDWEqual(env, Dressed(env, v, labels, annotations).(name := name, namespace := namespace), v) <==>
            v.clusterName == ""
  {
    CleanedIsQuiet(env, v.labels, labels);
    CleanedIsQuiet(env, v.annotations, annotations);
  }

  /** Everything creation looks up is there. */
  predicate Creatable(env: Env, c: Creation, v: Meta, isNamespace: bool) {
    env.vc.Some? && c.owner.Some? && (isNamespace || c.marshal(v.owners).Some?)
  }

  /**
   Creation followed by a check, for objects and for namespaces: if the object is created, the check asks
   for a repair iff `clusterName` is set.
   */
  method CreateThenCheck(env: Env, c: Creation, v: Meta, isNamespace: bool) returns (created: bool, r: Option<Meta>)
    ensures created == Creatable(env, c, v, isNamespace)
    ensures created ==> (r.None? <==> v.clusterName == "")
    ensures r.Some? ==> created && r.value.clusterName == v.clusterName
  {
    var m: Option<Meta>;
    if isNamespace {
      m := BuildSuperClusterNamespace(env, c, v);
    } else {
      m := BuildSuperClusterObject(env, c, v);
    }
    if m.None? {
      return false, None;
    }
    var o := c.owner.value;
    LabelsAreReserved(c, o);
    if isNamespace {
      NamespaceAnnotationsAreReserved(c, o, v);
      CreatedIsQuiet(env, v, ControlledLabel(c), NamespaceAnnotations(c, o, v), m.value.name, m.value.namespace);
    } else {
      var owners := c.marshal(v.owners).value;
      ObjectAnnotationsAreReserved(c, o, v, owners);
      CreatedIsQuiet(env, v, ObjectLabels(c, o), ObjectAnnotations(c, o, v, owners), m.value.name, m.value.namespace);
    }
    r := CheckDWObjectMetaEquality(env, m.value, v);
    created := true;
  }

  /**
   What creation sends back up: the upward check of a created object is quiet exactly when no key the
   syncer added is transparent for this tenant with a value the tenant does not already hold.
   */
  lemma CreatedGoesUpIff(env: Env, v: KV, added: KV)
    ensures UWEqual(env, Cleaned(env, v) + added, v) <==>
            forall k :: k in added && Transparent(env, k) ==> k in v && v[k] == added[k]
  {
    var p := Cleaned(env, v) + added;
    assert forall k :: k in p ==> if k in added then p[k] == added[k] else k in v && p[k] == v[k];
    assert forall k :: k in added ==> k in p && p[k] == added[k];
  }
}
