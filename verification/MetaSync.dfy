/**
 Labels and annotations between a tenant object and its copy in the super cluster. The downward check
 (DW) takes the tenant as the truth for ordinary keys, the upward check (UW) takes the super cluster as
 the truth for transparent keys; each returns nothing or a repaired map.
 */
module MetaSync {
  import opened Resources
  import opened Directions

  type KV = map<string, string>

  const OPAQUE_PREFIX := "tenancy.x-k8s.io"
  const TRANSPARENT_PREFIX := "transparency.tenancy.x-k8s.io"

  datatype VirtualCluster = VirtualCluster(transparentPrefixes: seq<string>, opaquePrefixes: seq<string>)

  /** `vc` is absent for objects that belong to no virtual cluster; `domains` are the configured opaque domains. */
  datatype Env = Env(vc: Option<VirtualCluster>, domains: seq<string>)

  // ---------- which keys are whose ----------

  predicate HasPrefixIn(key: string, list: seq<string>) {
    exists p :: p in list && p <= key
  }

  function FirstToken(key: string): string {
    if key == "" || key[0] == '/' then "" else [key[0]] + FirstToken(key[1..])
  }

  predicate HasSuffix(s: string, suffix: string) {
    |suffix| <= |s| && s[|s| - |suffix|..] == suffix
  }

  predicate IsOpaqueKey(env: Env, key: string) {
    exists d :: d in env.domains && HasSuffix(FirstToken(key), d)
  }

  function Exceptions(env: Env): seq<string> {
    if env.vc.None? then []
    else env.vc.value.transparentPrefixes + env.vc.value.opaquePrefixes + [OPAQUE_PREFIX, TRANSPARENT_PREFIX]
  }

  /** Keys the downward check leaves to the super cluster. */
  predicate Exempt(env: Env, key: string) {
    HasPrefixIn(key, Exceptions(env)) || IsOpaqueKey(env, key)
  }

  /** Keys the upward check copies back to the tenant. */
  predicate Transparent(env: Env, key: string) {
    env.vc.Some? && HasPrefixIn(key, [TRANSPARENT_PREFIX] + env.vc.value.transparentPrefixes)
  }

  lemma TransparentIsExempt(env: Env, key: string)
    requires Transparent(env, key)
    ensures Exempt(env, key)
  {
    var p :| p in [TRANSPARENT_PREFIX] + env.vc.value.transparentPrefixes && p <= key;
    assert p in Exceptions(env) && p <= key;
  }

  // ---------- what the key tests mean ----------

  /** The text is `start` and something after it. */
  ghost predicate StartsWith(key: string, start: string) {
    exists rest :: key == start + rest
  }

  /** The text is something and then one of the configured domains. */
  ghost predicate EndsInDomain(env: Env, t: string) {
    exists d, head :: d in env.domains && t == head + d
  }

  /** The part of the key before its first slash, or the whole key without one, is in a configured domain. */
  ghost predicate InDomain(env: Env, key: string) {
    exists t, rest :: key == t + rest && '/' !in t && (rest == "" || rest[0] == '/') && EndsInDomain(env, t)
  }

  /** The keys that are none of the tenant's business: configured prefixes, the syncer's own, configured domains. */
  ghost predicate SuperOwned(env: Env, key: string) {
    || (env.vc.Some? && (|| StartsWith(key, "tenancy.x-k8s.io") || StartsWith(key, "transparency.tenancy.x-k8s.io")
                         || (exists p :: p in env.vc.value.transparentPrefixes && StartsWith(key, p))
                         || (exists p :: p in env.vc.value.opaquePrefixes && StartsWith(key, p))))
    || InDomain(env, key)
  }

  /** The keys the tenant is shown. */
  ghost predicate Shown(env: Env, key: string) {
    && env.vc.Some?
    && (StartsWith(key, "transparency.tenancy.x-k8s.io") || exists p :: p in env.vc.value.transparentPrefixes && StartsWith(key, p))
  }

  lemma PrefixMeans(key: string, start: string)
    ensures start <= key <==> StartsWith(key, start)
  {
    if start <= key {
      assert key == start + key[|start|..];
    }
  }

  lemma SuffixMeans(s: string, suffix: string)
    ensures HasSuffix(s, suffix) <==> exists head :: s == head + suffix
  {
    if HasSuffix(s, suffix) {
      assert s == s[..|s| - |suffix|] + suffix;
    }
  }

  lemma EndsMeans(env: Env, t: string)
    ensures EndsInDomain(env, t) <==> exists d :: d in env.domains && HasSuffix(t, d)
  {
    if d, head :| d in env.domains && t == head + d {
      SuffixMeans(t, d);
    }
    if d :| d in env.domains && HasSuffix(t, d) {
      SuffixMeans(t, d);
    }
  }

  /** Cutting at the first slash. */
  lemma {:induction false} FirstTokenIs(t: string, rest: string)
    requires '/' !in t && (rest == "" || rest[0] == '/')
    ensures FirstToken(t + rest) == t
  {
    if t == "" {
      assert t + rest == rest;
    } else {
      assert (t + rest)[1..] == t[1..] + rest;
      FirstTokenIs(t[1..], rest);
    }
  }

  lemma {:induction false} FirstTokenCuts(key: string) returns (rest: string)
    ensures key == FirstToken(key) + rest && '/' !in FirstToken(key) && (rest == "" || rest[0] == '/')
  {
    if key == "" || key[0] == '/' {
      rest := key;
    } else {
      rest := FirstTokenCuts(key[1..]);
      var t := FirstToken(key[1..]);
      assert FirstToken(key) == [key[0]] + t;
      assert key == [key[0]] + (t + rest) == ([key[0]] + t) + rest;
    }
  }

  lemma OpaqueKeyIff(env: Env, key: string)
    ensures IsOpaqueKey(env, key) <==> InDomain(env, key)
  {
    var rest := FirstTokenCuts(key);
    EndsMeans(env, FirstToken(key));
    if t, after :| key == t + after && '/' !in t && (after == "" || after[0] == '/') && EndsInDomain(env, t) {
      FirstTokenIs(t, after);
    }
  }

  /** A key with or without a path belongs to the domain its host ends in. */
  lemma DomainKeys(env: Env, t: string, path: string)
    requires '/' !in t
    ensures IsOpaqueKey(env, t + "/" + path) <==> EndsInDomain(env, t)
    ensures IsOpaqueKey(env, t) <==> EndsInDomain(env, t)
  {
    EndsMeans(env, t);
    assert t + "/" + path == t + ("/" + path) && t == t + "";
    FirstTokenIs(t, "/" + path);
    FirstTokenIs(t, "");
  }

  lemma PrefixInMeans(key: string, list: seq<string>)
    ensures HasPrefixIn(key, list) <==> exists p :: p in list && StartsWith(key, p)
  {
    forall p ensures p <= key <==> StartsWith(key, p) { PrefixMeans(key, p); }
  }

  lemma ExemptIff(env: Env, key: string)
    ensures Exempt(env, key) <==> SuperOwned(env, key)
  {
    OpaqueKeyIff(env, key);
    PrefixInMeans(key, Exceptions(env));
    if env.vc.Some? {
      var vc := env.vc.value;
      assert Exceptions(env) == vc.transparentPrefixes + vc.opaquePrefixes + ["tenancy.x-k8s.io", "transparency.tenancy.x-k8s.io"];
      assert forall p :: p in Exceptions(env) <==>
        p in vc.transparentPrefixes || p in vc.opaquePrefixes || p == "tenancy.x-k8s.io" || p == "transparency.tenancy.x-k8s.io";
    }
  }

  lemma TransparentIff(env: Env, key: string)
    ensures Transparent(env, key) <==> Shown(env, key)
  {
    if env.vc.Some? {
      var list := [TRANSPARENT_PREFIX] + env.vc.value.transparentPrefixes;
      PrefixInMeans(key, list);
      assert forall p :: p in list <==> p in env.vc.value.transparentPrefixes || p == "transparency.tenancy.x-k8s.io";
    }
  }

  // ---------- what the checks mean ----------

  predicate DWEqual(env: Env, p: KV, v: KV) {
    && (forall k :: k in v && !Exempt(env, k) ==> k in p && p[k] == v[k])
    && (forall k :: k in p && !Exempt(env, k) ==> k in v)
  }

  /** The tenant's value on every ordinary key, the old super value on every exempt key. */
  function DWRepair(env: Env, p: KV, v: KV): KV {
    map k | k in p.Keys + v.Keys && (if Exempt(env, k) then k in p else k in v) ::
      if Exempt(env, k) then p[k] else v[k]
  }

  predicate UWEqual(env: Env, p: KV, v: KV) {
    forall k :: k in p && Transparent(env, k) ==> k in v && v[k] == p[k]
  }

  /** The super value on every transparent key the super cluster has; nothing is ever removed. */
  function UWRepair(env: Env, p: KV, v: KV): KV {
    v + map k | k in p && Transparent(env, k) :: p[k]
  }

  // ---------- the checks ----------

  /** Tenant keys that the super object misses or holds with another value. */
  function More(env: Env, p: KV, v: KV): KV {
    map k | k in v && !Exempt(env, k) && !(k in p && p[k] == v[k]) :: v[k]
  }

  /** Super keys that the tenant does not have. */
  function Less(env: Env, p: KV, v: KV): set<string> {
    set k | k in p && !Exempt(env, k) && k !in v
  }

  /** Transparent super keys that the tenant misses or holds with another value. */
  function Back(env: Env, p: KV, v: KV): KV {
    map k | k in p && Transparent(env, k) && !(k in v && v[k] == p[k]) :: p[k]
  }

  lemma DWDifference(env: Env, p: KV, v: KV)
    ensures More(env, p, v) == map[] && Less(env, p, v) == {} <==> DWEqual(env, p, v)
    ensures (p - Less(env, p, v)) + More(env, p, v) == DWRepair(env, p, v)
  {
    if DWEqual(env, p, v) {
      assert More(env, p, v).Keys == {};
    } else if k :| k in v && !Exempt(env, k) && !(k in p && p[k] == v[k]) {
      assert k in More(env, p, v);
    } else {
      var k :| k in p && !Exempt(env, k) && k !in v;
      assert k in Less(env, p, v);
    }
  }

  lemma UWDifference(env: Env, p: KV, v: KV)
    ensures Back(env, p, v) == map[] <==> UWEqual(env, p, v)
    ensures v + Back(env, p, v) == UWRepair(env, p, v)
  {
    if UWEqual(env, p, v) {
      assert Back(env, p, v).Keys == {};
    } else {
      var k :| k in p && Transparent(env, k) && !(k in v && v[k] == p[k]);
      assert k in Back(env, p, v);
    }
  }

  method CollectMore(env: Env, p: KV, v: KV) returns (m: KV)
    ensures m == More(env, p, v)
  {
    m := map[];
    var todo := v.Keys;
    while todo != {}
      invariant todo <= v.Keys
      invariant m == map k | k in v && k !in todo && !Exempt(env, k) && !(k in p && p[k] == v[k]) :: v[k]
      decreases todo
    {
      var k :| k in todo;
      todo := todo - {k};
      if !Exempt(env, k) && (k !in p || p[k] != v[k]) {
        m := m[k := v[k]];
      }
    }
  }

  method CollectLess(env: Env, p: KV, v: KV) returns (m: set<string>)
    ensures m == Less(env, p, v)
  {
    m := {};
    var todo := p.Keys;
    while todo != {}
      invariant todo <= p.Keys
      invariant m == set k | k in p && k !in todo && !Exempt(env, k) && k !in v
      decreases todo
    {
      var k :| k in todo;
      todo := todo - {k};
      if !Exempt(env, k) && k !in v {
        m := m + {k};
      }
    }
  }

  method CollectBack(env: Env, p: KV, v: KV) returns (m: KV)
    ensures m == Back(env, p, v)
  {
    m := map[];
    var todo := p.Keys;
    while todo != {}
      invariant todo <= p.Keys
      invariant m == map k | k in p && k !in todo && Transparent(env, k) && !(k in v && v[k] == p[k]) :: p[k]
      decreases todo
    {
      var k :| k in todo;
      todo := todo - {k};
      if Transparent(env, k) && (k !in v || p[k] != v[k]) {
        m := m[k := p[k]];
      }
    }
  }

  method CheckDWKVEquality(env: Env, p: KV, v: KV) returns (r: Option<KV>)
    ensures r == if DWEqual(env, p, v) then None else Some(DWRepair(env, p, v))
    ensures r.None? <==> forall k :: SuperOwned(env, k) || At(p, k) == At(v, k)
    ensures r.Some? ==> forall k :: At(r.value, k) == if SuperOwned(env, k) then At(p, k) else At(v, k)
  {
    ChecksMean(env, p, v);
    forall k ensures At(DWRepair(env, p, v), k) == if SuperOwned(env, k) then At(p, k) else At(v, k) { RepairsMean(env, p, v, k); }
    var moreOrDiff := CollectMore(env, p, v);
    var less := CollectLess(env, p, v);
    DWDifference(env, p, v);
    if moreOrDiff == map[] && less == {} {
      return None;
    }
    return Some((p - less) + moreOrDiff);
  }

  method CheckUWKVEquality(env: Env, p: KV, v: KV) returns (r: Option<KV>)
    ensures r == if UWEqual(env, p, v) then None else Some(UWRepair(env, p, v))
    ensures r.None? <==> forall k :: Shown(env, k) && k in p ==> At(v, k) == At(p, k)
    ensures r.Some? ==> forall k :: At(r.value, k) == if Shown(env, k) && k in p then At(p, k) else At(v, k)
  {
    ChecksMean(env, p, v);
    forall k ensures At(UWRepair(env, p, v), k) == if Shown(env, k) && k in p then At(p, k) else At(v, k) { RepairsMean(env, p, v, k); }
    if env.vc.None? {
      return None;
    }
    var moreOrDiff := CollectBack(env, p, v);
    UWDifference(env, p, v);
    if moreOrDiff == map[] {
      return None;
    }
    return Some(v + moreOrDiff);
  }

  // ---------- repairs ----------

  /** A repair of something that is equal changes nothing, and only then. */
  lemma DWEqualIsRepaired(env: Env, p: KV, v: KV)
    ensures DWEqual(env, p, v) <==> DWRepair(env, p, v) == p
  {
    var d := DWRepair(env, p, v);
    if DWEqual(env, p, v) {
      assert d.Keys == p.Keys;
    } else if k :| k in v && !Exempt(env, k) && !(k in p && p[k] == v[k]) {
      assert k in d && d[k] == v[k];
    } else {
      var k :| k in p && !Exempt(env, k) && k !in v;
      assert k !in d;
    }
  }

  lemma UWEqualIsRepaired(env: Env, p: KV, v: KV)
    ensures UWEqual(env, p, v) <==> UWRepair(env, p, v) == v
  {
    var u := UWRepair(env, p, v);
    if UWEqual(env, p, v) {
      assert u.Keys == v.Keys;
    } else {
      var k :| k in p && Transparent(env, k) && !(k in v && v[k] == p[k]);
      assert k in u && u[k] == p[k];
    }
  }

  /** The two maps agree on the keys selected. */
  ghost predicate AgreeOn(a: KV, b: KV, keys: string -> bool) {
    forall k :: keys(k) ==> (k in a <==> k in b) && (k in a ==> a[k] == b[k])
  }

  lemma DWAgreement(env: Env, p: KV, v: KV)
    ensures AgreeOn(DWRepair(env, p, v), v, k => !Exempt(env, k))
    ensures AgreeOn(DWRepair(env, p, v), p, k => Exempt(env, k))
    ensures DWEqual(env, p, v) <==> AgreeOn(p, v, k => !Exempt(env, k))
  {
  }

  // ---------- the two directions do not fight ----------

  /** A pair of maps and one repair in one direction. */
  datatype Pair = Pair(p: KV, v: KV)

  function Sync(env: Env, s: Pair, d: Direction): Pair {
    match d
    case Down => if DWEqual(env, s.p, s.v) then s else s.(p := DWRepair(env, s.p, s.v))
    case Up => if UWEqual(env, s.p, s.v) then s else s.(v := UWRepair(env, s.p, s.v))
  }

  function SyncAll(env: Env, s: Pair, ds: seq<Direction>): Pair {
    if ds == [] then s else Sync(env, SyncAll(env, s, ds[..|ds| - 1]), ds[|ds| - 1])
  }

  /** The pair both directions are content with, computed from the start. */
  function Settled(env: Env, s: Pair, ds: seq<Direction>): Pair {
    Pair(if Down in ds then DWRepair(env, s.p, s.v) else s.p, if Up in ds then UWRepair(env, s.p, s.v) else s.v)
  }

  /** The value of a key, if it has one: two maps are equal when they agree on every key. */
  function At(m: KV, k: string): Option<string> {
    if k in m then Some(m[k]) else None
  }

  lemma SameMap(a: KV, b: KV)
    requires forall k :: At(a, k) == At(b, k)
    ensures a == b
  {
    assert forall k :: k in a ==> At(a, k) == Some(a[k]);
    assert forall k :: k in b ==> At(b, k) == Some(b[k]);
  }

  lemma DWAt(env: Env, p: KV, v: KV, k: string)
    ensures At(DWRepair(env, p, v), k) == if Exempt(env, k) then At(p, k) else At(v, k)
  {
  }

  lemma UWAt(env: Env, p: KV, v: KV, k: string)
    ensures At(UWRepair(env, p, v), k) == if Transparent(env, k) && k in p then At(p, k) else At(v, k)
  {
  }

  /**
   Key by key, by what the key is: the downward repair takes the tenant's value, or its absence, except for
   keys that are the super cluster's; the upward one takes the super value of the keys the tenant is shown.
   */
  lemma RepairsMean(env: Env, p: KV, v: KV, k: string)
    ensures At(DWRepair(env, p, v), k) == if SuperOwned(env, k) then At(p, k) else At(v, k)
    ensures At(UWRepair(env, p, v), k) == if Shown(env, k) && k in p then At(p, k) else At(v, k)
  {
    ExemptIff(env, k);
    TransparentIff(env, k);
  }

  /** And nothing else counts: the checks report equal exactly when no key would change. */
  lemma ChecksMean(env: Env, p: KV, v: KV)
    ensures DWEqual(env, p, v) <==> forall k :: SuperOwned(env, k) || At(p, k) == At(v, k)
    ensures UWEqual(env, p, v) <==> forall k :: Shown(env, k) && k in p ==> At(v, k) == At(p, k)
  {
    forall k
      ensures Exempt(env, k) <==> SuperOwned(env, k)
      ensures Transparent(env, k) <==> Shown(env, k)
    {
      ExemptIff(env, k);
      TransparentIff(env, k);
    }
    forall k | k in p ensures At(p, k) == Some(p[k]) {}
    forall k | k in v ensures At(v, k) == Some(v[k]) {}
  }

  /** The super cluster's own keys under a configured domain are kept, whatever the tenant has. */
  lemma DomainKeysKept(env: Env, p: KV, v: KV, t: string, path: string)
    requires '/' !in t && EndsInDomain(env, t)
    ensures At(DWRepair(env, p, v), t + "/" + path) == At(p, t + "/" + path)
  {
    DomainKeys(env, t, path);
  }

  /** Ordinary keys of the tenant survive the upward repair. */
  lemma UpKeepsDown(env: Env, p: KV, v: KV)
    ensures DWRepair(env, p, UWRepair(env, p, v)) == DWRepair(env, p, v)
  {
    var u := UWRepair(env, p, v);
    forall k
      ensures At(DWRepair(env, p, u), k) == At(DWRepair(env, p, v), k)
    {
      DWAt(env, p, u, k);
      DWAt(env, p, v, k);
      UWAt(env, p, v, k);
      if Transparent(env, k) {
        TransparentIsExempt(env, k);
      }
    }
    SameMap(DWRepair(env, p, u), DWRepair(env, p, v));
  }

  /** Exempt keys of the super object survive the downward repair. */
  lemma DownKeepsUp(env: Env, p: KV, v: KV)
    ensures UWRepair(env, DWRepair(env, p, v), v) == UWRepair(env, p, v)
  {
    var d := DWRepair(env, p, v);
    forall k
      ensures At(UWRepair(env, d, v), k) == At(UWRepair(env, p, v), k)
    {
      UWAt(env, d, v, k);
      UWAt(env, p, v, k);
      DWAt(env, p, v, k);
      if Transparent(env, k) {
        TransparentIsExempt(env, k);
      }
    }
    SameMap(UWRepair(env, d, v), UWRepair(env, p, v));
  }

  lemma RepairsIdempotent(env: Env, p: KV, v: KV)
    ensures DWRepair(env, DWRepair(env, p, v), v) == DWRepair(env, p, v)
    ensures UWRepair(env, p, UWRepair(env, p, v)) == UWRepair(env, p, v)
  {
  }

  lemma SettledStep(env: Env, s: Pair, ds: seq<Direction>, d: Direction)
    ensures Sync(env, Settled(env, s, ds), d) == Settled(env, s, ds + [d])
  {
    var p, v := s.p, s.v;
    var u, w := UWRepair(env, p, v), DWRepair(env, p, v);
    var now := Settled(env, s, ds);
    DWEqualIsRepaired(env, now.p, now.v);
    UWEqualIsRepaired(env, now.p, now.v);
    UpKeepsDown(env, p, v);
    DownKeepsUp(env, p, v);
    UpKeepsDown(env, w, v);
    DownKeepsUp(env, p, u);
    RepairsIdempotent(env, p, v);
    RepairsIdempotent(env, p, u);
    RepairsIdempotent(env, w, v);
  }

  /** Confluence: whatever the order and number of repairs, the outcome depends only on which directions ran. */
  lemma {:induction false} SyncConverges(env: Env, s: Pair, ds: seq<Direction>)
    ensures SyncAll(env, s, ds) == Settled(env, s, ds)
  {
    if ds != [] {
      var n := |ds| - 1;
      SyncConverges(env, s, ds[..n]);
      SettledStep(env, s, ds[..n], ds[n]);
      assert ds[..n] + [ds[n]] == ds;
    }
  }

  /** Once both directions have run, both report equal. */
  lemma SyncIsQuiet(env: Env, s: Pair, ds: seq<Direction>)
    requires Down in ds && Up in ds
    ensures var t := SyncAll(env, s, ds); DWEqual(env, t.p, t.v) && UWEqual(env, t.p, t.v)
  {
    SyncConverges(env, s, ds);
    SettledStep(env, s, ds, Down);
    SettledStep(env, s, ds, Up);
    var t := Settled(env, s, ds);
    DWEqualIsRepaired(env, t.p, t.v);
    UWEqualIsRepaired(env, t.p, t.v);
  }
}
