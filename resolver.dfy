/** `getMaintenanceState` (worker.js:86-119): read the maintenance blob and,
    when their banners are enabled, the 4G and UPS flags through the tiered
    cache, and normalise them into a typed snapshot. */
module Resolver {
  import opened Wrappers
  import opened Js
  import opened Text
  import opened Config
  import opened TieredCache

  /** The state object the worker acts on. The two lists keep whatever
      elements the stored JSON holds. */
  datatype Snapshot = Snapshot(
    isGlobalMaintenance: bool,
    subdomainsMaintenance: seq<JsValue>,
    isSubdomainMaintenance: bool,
    bannerSubdomains: seq<JsValue>,
    bannerMessage: string,
    is4gMode: bool,
    upsOnBattery: bool)

  /** The cache is on unless `ENABLE_CACHE` is set to something other than
      `true` or "true". */
  predicate CacheEnabled(env: Env) {
    env.enableCache == None || EnvIsTrue(env.enableCache)
  }

  /** `CACHE_TTL_MS ? parseInt(CACHE_TTL_MS, 10) : 60000`; `None` is NaN.
      A number is converted to its decimal text before parsing. */
  function CacheTtl(env: Env): Option<int> {
    if !Truthy(env.cacheTtlMs) then Some(60000)
    else
      match env.cacheTtlMs.value
      case JNum(n) => ParseInt(IntToString(n))
      case JStr(s) => ParseInt(s)
      case _ => None
  }

  /** An unset or falsy TTL is 60000 ms, an enabled flag keeps the cache on,
      and a number is taken as is. */
  lemma CacheSettings(env: Env)
    ensures env.enableCache == None ==> CacheEnabled(env)
    ensures env.enableCache == Some(JStr("false")) ==> !CacheEnabled(env)
    ensures !Truthy(env.cacheTtlMs) ==> CacheTtl(env) == Some(60000)
    ensures env.cacheTtlMs.Some? && env.cacheTtlMs.value.JNum? && env.cacheTtlMs.value.n != 0 ==>
              CacheTtl(env) == Some(env.cacheTtlMs.value.n)
  {
    if env.cacheTtlMs.Some? && env.cacheTtlMs.value.JNum? && env.cacheTtlMs.value.n != 0 {
      var n := env.cacheTtlMs.value.n;
      assert Truthy(env.cacheTtlMs);
      assert CacheTtl(env) == ParseInt(IntToString(n));
      ParseIntOfIntToString(n);
    }
  }

  /** The fallback `safeJsonParse` is given. */
  const Defaults := JObj(map[
    "isGlobalMaintenance" := JBool(false),
    "subdomainsMaintenance" := JArr([]),
    "bannerSubdomains" := JArr([]),
    "bannerMessage" := JStr("")])

  /** `Array.isArray(v) ? v : []`. */
  function ListField(v: Binding): seq<JsValue> {
    if v.Some? && v.value.JArr? then v.value.items else []
  }

  /** `typeof v === 'string' ? v : ''`. */
  function StringField(v: Binding): string {
    if v.Some? && v.value.JStr? then v.value.s else ""
  }

  /** The `host` header as `includes` compares it: `null` when absent. */
  function HostValue(host: Option<string>): JsValue {
    if host.Some? then JStr(host.value) else JNull
  }

  /** The normalisation of the parsed blob, with each field checked on its
      own, and the two raw flags (`None` when not read or missing). A parsed
      `null` reads as an object without properties. */
  function Normalize(obj: JsValue, host: Option<string>, raw4g: Option<string>, rawUps: Option<string>): (s: Snapshot)
    ensures s.isSubdomainMaintenance <==> HostValue(host) in s.subdomainsMaintenance
    ensures s.is4gMode <==> raw4g == Some("true")
    ensures s.upsOnBattery <==> rawUps == Some("true")
    // global maintenance exactly when the blob is an object whose flag is true or "true"
    ensures s.isGlobalMaintenance <==>
              obj.JObj? && "isGlobalMaintenance" in obj.props &&
              obj.props["isGlobalMaintenance"] in {JBool(true), JStr("true")}
    // each list is the stored array, and empty when the property is missing or not an array
    ensures obj.JObj? && "subdomainsMaintenance" in obj.props && obj.props["subdomainsMaintenance"].JArr? ==>
              s.subdomainsMaintenance == obj.props["subdomainsMaintenance"].items
    ensures !(obj.JObj? && "subdomainsMaintenance" in obj.props && obj.props["subdomainsMaintenance"].JArr?) ==>
              s.subdomainsMaintenance == []
    ensures obj.JObj? && "bannerSubdomains" in obj.props && obj.props["bannerSubdomains"].JArr? ==>
              s.bannerSubdomains == obj.props["bannerSubdomains"].items
    ensures !(obj.JObj? && "bannerSubdomains" in obj.props && obj.props["bannerSubdomains"].JArr?) ==>
              s.bannerSubdomains == []
    // the message is the stored string, and empty when it is missing or not a string
    ensures obj.JObj? && "bannerMessage" in obj.props && obj.props["bannerMessage"].JStr? ==>
              s.bannerMessage == obj.props["bannerMessage"].s
    ensures !(obj.JObj? && "bannerMessage" in obj.props && obj.props["bannerMessage"].JStr?) ==>
              s.bannerMessage == ""
  {
    var subs := ListField(Prop(obj, "subdomainsMaintenance"));
    Snapshot(
      EnvIsTrue(Prop(obj, "isGlobalMaintenance")),
      subs,
      HostValue(host) in subs,
      ListField(Prop(obj, "bannerSubdomains")),
      StringField(Prop(obj, "bannerMessage")),
      raw4g == Some("true"),
      rawUps == Some("true"))
  }

  /** The normalisation as written: reading a property of a parsed `null`
      throws a TypeError. */
  function NormalizeAsWritten(obj: JsValue, host: Option<string>, raw4g: Option<string>, rawUps: Option<string>): Completion<Snapshot> {
    if obj == JNull then Throws else Normal(Normalize(obj, host, raw4g, rawUps))
  }

  /** On the JSON text "null" the code as written throws, while the
      corrected normalisation gives the defaults' snapshot. */
  lemma NullBlobThrows(codec: Codec, blob: Option<string>, host: Option<string>, raw4g: Option<string>, rawUps: Option<string>)
    requires blob == Some("null") && codec.parse("null") == Some(JNull)
    ensures NormalizeAsWritten(SafeJsonParse(codec, blob, Defaults), host, raw4g, rawUps) == Throws
    ensures Normalize(SafeJsonParse(codec, blob, Defaults), host, raw4g, rawUps) ==
              Normalize(Defaults, host, raw4g, rawUps)
  {
  }

  /** A missing, empty or unparsable blob yields the defaults: no
      maintenance, empty lists, no message. */
  lemma MalformedBlobGivesDefaults(codec: Codec, blob: Option<string>, host: Option<string>, raw4g: Option<string>, rawUps: Option<string>)
    requires blob == None || blob == Some("") || codec.parse(blob.value) == None
    ensures var s := Normalize(SafeJsonParse(codec, blob, Defaults), host, raw4g, rawUps);
            !s.isGlobalMaintenance && s.subdomainsMaintenance == [] && !s.isSubdomainMaintenance &&
            s.bannerSubdomains == [] && s.bannerMessage == ""
  {
  }

  /** Each field depends on its own property alone: a blob whose other
      properties are missing or ill-typed still yields the same field. */
  lemma FieldsAreIndependent(a: JsValue, b: JsValue, host: Option<string>, raw4g: Option<string>, rawUps: Option<string>)
    ensures var sa := Normalize(a, host, raw4g, rawUps);
            var sb := Normalize(b, host, raw4g, rawUps);
            (Prop(a, "isGlobalMaintenance") == Prop(b, "isGlobalMaintenance") ==> sa.isGlobalMaintenance == sb.isGlobalMaintenance) &&
            (Prop(a, "subdomainsMaintenance") == Prop(b, "subdomainsMaintenance") ==>
               sa.subdomainsMaintenance == sb.subdomainsMaintenance && sa.isSubdomainMaintenance == sb.isSubdomainMaintenance) &&
            (Prop(a, "bannerSubdomains") == Prop(b, "bannerSubdomains") ==> sa.bannerSubdomains == sb.bannerSubdomains) &&
            (Prop(a, "bannerMessage") == Prop(b, "bannerMessage") ==> sa.bannerMessage == sb.bannerMessage)
  {
  }

  /** Membership is exact: a wildcard entry does not put its subdomains into
      maintenance, only the literal string `*.example.com` would. */
  lemma SubdomainMaintenanceIsExact()
    ensures !Normalize(JObj(map["subdomainsMaintenance" := JArr([JStr("*.example.com")])]),
                       Some("a.example.com"), None, None).isSubdomainMaintenance
    ensures Normalize(JObj(map["subdomainsMaintenance" := JArr([JStr("a.example.com")])]),
                      Some("a.example.com"), None, None).isSubdomainMaintenance
  {
  }

  /** The state object as the admin API stores it. */
  function Encode(s: Snapshot): JsValue {
    JObj(map[
      "isGlobalMaintenance" := JBool(s.isGlobalMaintenance),
      "subdomainsMaintenance" := JArr(s.subdomainsMaintenance),
      "bannerSubdomains" := JArr(s.bannerSubdomains),
      "bannerMessage" := JStr(s.bannerMessage)])
  }

  /** Serialising the four stored fields and resolving the text gives them
      back, and recomputes the per-host flag from the list. */
  lemma ResolveOfEncoded(codec: Codec, s: Snapshot, host: Option<string>)
    requires RoundTrips(codec)
    ensures var r := Normalize(SafeJsonParse(codec, Some(codec.stringify(Encode(s))), Defaults), host, None, None);
            r.isGlobalMaintenance == s.isGlobalMaintenance &&
            r.subdomainsMaintenance == s.subdomainsMaintenance &&
            r.bannerSubdomains == s.bannerSubdomains &&
            r.bannerMessage == s.bannerMessage &&
            (r.isSubdomainMaintenance <==> HostValue(host) in s.subdomainsMaintenance)
  {
    SafeJsonParseSpec(codec, None, Defaults, Encode(s));
  }

  /** The flag text for a feature that is on, `None` for one that is off. */
  function FlagRead(enabled: bool, v: Option<string>): Option<string> {
    if enabled then v else None
  }

  /** The read of an optional flag: a lookup when its feature is on, and
      otherwise no read at all, with nothing changed. */
  function FlagLookup(kv: map<string, string>, shared: map<string, string>, entry: Entry, key: string, on: bool,
                      caching: bool, ttl: Option<int>, now: int, faults: SharedFaults): Read {
    if on then Lookup(kv, shared, entry, key, caching, ttl, now, faults) else Read(None, StoreTier, entry, shared)
  }

  /** What the worker would see with every tier bypassed. */
  function FromStore(kv: map<string, string>, env: Env, codec: Codec, host: Option<string>): Snapshot {
    Normalize(SafeJsonParse(codec, StoreGet(kv, KeyOf(MaintenanceSlot)), Defaults), host,
              FlagRead(EnvIsTrue(env.enable4gBanner), StoreGet(kv, KeyOf(Is4gSlot))),
              FlagRead(EnvIsTrue(env.enableUpsBanner), StoreGet(kv, KeyOf(UpsSlot))))
  }

  /** The shared tier's behaviour during each of the three reads. */
  datatype Faults = Faults(state: SharedFaults, is4g: SharedFaults, ups: SharedFaults)

  /** The snapshot and the cache after one call. */
  datatype Resolution = Resolution(snapshot: Snapshot, maintenance: Entry, is4g: Entry, ups: Entry, shared: map<string, string>)

  /** getMaintenanceState over explicit tiers: the blob is always read, each
      flag only when its banner is enabled. */
  function Resolve(kv: map<string, string>, shared: map<string, string>, m: Entry, g: Entry, u: Entry,
                   env: Env, codec: Codec, host: Option<string>, useCache: bool, now: int, faults: Faults): (r: Resolution)
    // a disabled feature reads nothing: its entry is untouched and its flag is false
    ensures !EnvIsTrue(env.enable4gBanner) ==> r.is4g == g && !r.snapshot.is4gMode
    ensures !EnvIsTrue(env.enableUpsBanner) ==> r.ups == u && !r.snapshot.upsOnBattery
    // with caching off, nothing is cached and the snapshot is the store's
    ensures !(useCache && CacheEnabled(env)) ==>
              r.maintenance == m && r.is4g == g && r.ups == u && r.shared == shared &&
              r.snapshot == FromStore(kv, env, codec, host)
  {
    var caching := useCache && CacheEnabled(env);
    var ttl := CacheTtl(env);
    var a := Lookup(kv, shared, m, KeyOf(MaintenanceSlot), caching, ttl, now, faults.state);
    var on4g := EnvIsTrue(env.enable4gBanner);
    var b := FlagLookup(kv, a.shared, g, KeyOf(Is4gSlot), on4g, caching, ttl, now, faults.is4g);
    var onUps := EnvIsTrue(env.enableUpsBanner);
    var c := FlagLookup(kv, b.shared, u, KeyOf(UpsSlot), onUps, caching, ttl, now, faults.ups);
    Resolution(Normalize(SafeJsonParse(codec, a.value, Defaults), host, b.value, c.value),
               a.entry, b.entry, c.entry, c.shared)
  }

  /** Two raw values that agree up to null/"" normalise alike. */
  lemma BodyDeterminesSnapshot(codec: Codec, x: Option<string>, y: Option<string>, host: Option<string>,
                               f: Option<string>, f2: Option<string>, v: Option<string>, v2: Option<string>)
    requires Body(x) == Body(y) && Body(f) == Body(f2) && Body(v) == Body(v2)
    ensures Normalize(SafeJsonParse(codec, x, Defaults), host, f, v) ==
            Normalize(SafeJsonParse(codec, y, Defaults), host, f2, v2)
  {
    assert SafeJsonParse(codec, x, Defaults) == SafeJsonParse(codec, y, Defaults);
    assert (f == Some("true")) == (f2 == Some("true"));
    assert (v == Some("true")) == (v2 == Some("true"));
  }

  /** A read of one key leaves another key's tiers as coherent as they were. */
  lemma LookupKeepsOtherCoherent(kv: map<string, string>, shared: map<string, string>, entry: Entry, key: string,
                                 caching: bool, ttl: Option<int>, now: int, faults: SharedFaults, other: Entry, otherKey: string)
    requires key != otherKey && Coherent(kv, shared, other, otherKey)
    ensures Coherent(kv, Lookup(kv, shared, entry, key, caching, ttl, now, faults).shared, other, otherKey)
  {
    SharedUrlInjective(key, otherKey);
  }

  /** One optional flag read over coherent tiers: its text agrees with the
      store's up to null/"", and the other key stays coherent. */
  lemma FlagReadCoherent(kv: map<string, string>, shared: map<string, string>, entry: Entry, key: string, on: bool,
                         caching: bool, ttl: Option<int>, now: int, faults: SharedFaults, other: Entry, otherKey: string)
    requires key != otherKey && Coherent(kv, shared, entry, key) && Coherent(kv, shared, other, otherKey)
    ensures var b := FlagLookup(kv, shared, entry, key, on, caching, ttl, now, faults);
            Body(b.value) == Body(FlagRead(on, StoreGet(kv, key))) && Coherent(kv, b.shared, other, otherKey)
  {
    if on {
      LookupCoherent(kv, shared, entry, key, caching, ttl, now, faults);
      LookupKeepsOtherCoherent(kv, shared, entry, key, caching, ttl, now, faults, other, otherKey);
    }
  }

  /** The blob read over coherent tiers agrees with the store, and leaves
      the two flag keys coherent. */
  lemma StateReadCoherent(kv: map<string, string>, shared: map<string, string>, m: Entry, g: Entry, u: Entry,
                          caching: bool, ttl: Option<int>, now: int, faults: SharedFaults)
    requires Coherent(kv, shared, m, KeyOf(MaintenanceSlot))
    requires Coherent(kv, shared, g, KeyOf(Is4gSlot)) && Coherent(kv, shared, u, KeyOf(UpsSlot))
    ensures var a := Lookup(kv, shared, m, KeyOf(MaintenanceSlot), caching, ttl, now, faults);
            Body(a.value) == Body(StoreGet(kv, KeyOf(MaintenanceSlot))) &&
            Coherent(kv, a.shared, g, KeyOf(Is4gSlot)) && Coherent(kv, a.shared, u, KeyOf(UpsSlot))
  {
    LookupCoherent(kv, shared, m, KeyOf(MaintenanceSlot), caching, ttl, now, faults);
    LookupKeepsOtherCoherent(kv, shared, m, KeyOf(MaintenanceSlot), caching, ttl, now, faults, g, KeyOf(Is4gSlot));
    LookupKeepsOtherCoherent(kv, shared, m, KeyOf(MaintenanceSlot), caching, ttl, now, faults, u, KeyOf(UpsSlot));
  }

  /** The last flag read over coherent tiers agrees with the store. */
  lemma LastFlagReadCoherent(kv: map<string, string>, shared: map<string, string>, entry: Entry, key: string, on: bool,
                             caching: bool, ttl: Option<int>, now: int, faults: SharedFaults)
    requires Coherent(kv, shared, entry, key)
    ensures Body(FlagLookup(kv, shared, entry, key, on, caching, ttl, now, faults).value) == Body(FlagRead(on, StoreGet(kv, key)))
  {
    if on {
      LookupCoherent(kv, shared, entry, key, caching, ttl, now, faults);
    }
  }

  /** While every tier agrees with the store, the cached path yields exactly
      the snapshot the store holds, whatever the shared tier's faults. */
  lemma CoherentTiersServeStoreSnapshot(kv: map<string, string>, shared: map<string, string>, m: Entry, g: Entry, u: Entry,
                                        env: Env, codec: Codec, host: Option<string>, useCache: bool, now: int, faults: Faults)
    requires Coherent(kv, shared, m, KeyOf(MaintenanceSlot))
    requires Coherent(kv, shared, g, KeyOf(Is4gSlot))
    requires Coherent(kv, shared, u, KeyOf(UpsSlot))
    ensures Resolve(kv, shared, m, g, u, env, codec, host, useCache, now, faults).snapshot == FromStore(kv, env, codec, host)
  {
    var caching := useCache && CacheEnabled(env);
    var ttl := CacheTtl(env);
    var a := Lookup(kv, shared, m, KeyOf(MaintenanceSlot), caching, ttl, now, faults.state);
    StateReadCoherent(kv, shared, m, g, u, caching, ttl, now, faults.state);
    var on4g := EnvIsTrue(env.enable4gBanner);
    var b := FlagLookup(kv, a.shared, g, KeyOf(Is4gSlot), on4g, caching, ttl, now, faults.is4g);
    FlagReadCoherent(kv, a.shared, g, KeyOf(Is4gSlot), on4g, caching, ttl, now, faults.is4g, u, KeyOf(UpsSlot));
    var onUps := EnvIsTrue(env.enableUpsBanner);
    var c := FlagLookup(kv, b.shared, u, KeyOf(UpsSlot), onUps, caching, ttl, now, faults.ups);
    LastFlagReadCoherent(kv, b.shared, u, KeyOf(UpsSlot), onUps, caching, ttl, now, faults.ups);
    BodyDeterminesSnapshot(codec, a.value, StoreGet(kv, KeyOf(MaintenanceSlot)), host,
                           b.value, FlagRead(on4g, StoreGet(kv, KeyOf(Is4gSlot))),
                           c.value, FlagRead(onUps, StoreGet(kv, KeyOf(UpsSlot))));
  }

  /** A fresh maintenance entry hides a new blob in the store, whatever the
      configuration: with caching on and the entry younger than the TTL, the
      whole result (snapshot, entries, shared tier) is the one the old store
      gives, and with both banners off the snapshot is the cached blob's. */
  lemma FreshEntryHidesNewState(kv: map<string, string>, shared: map<string, string>, m: Entry, g: Entry, u: Entry,
                                env: Env, codec: Codec, host: Option<string>, now: int, faults: Faults, written: string)
    requires CacheEnabled(env) && Fresh(m, CacheTtl(env), now)
    ensures Resolve(kv[KeyOf(MaintenanceSlot) := written], shared, m, g, u, env, codec, host, true, now, faults) ==
            Resolve(kv, shared, m, g, u, env, codec, host, true, now, faults)
    ensures Resolve(kv, shared, m, g, u, env, codec, host, true, now, faults).maintenance == m
    ensures !EnvIsTrue(env.enable4gBanner) && !EnvIsTrue(env.enableUpsBanner) ==>
              Resolve(kv[KeyOf(MaintenanceSlot) := written], shared, m, g, u, env, codec, host, true, now, faults).snapshot ==
              Normalize(SafeJsonParse(codec, m.value, Defaults), host, None, None)
  {
    var kv2 := kv[KeyOf(MaintenanceSlot) := written];
    var ttl := CacheTtl(env);
    var a := Lookup(kv, shared, m, KeyOf(MaintenanceSlot), true, ttl, now, faults.state);
    var a2 := Lookup(kv2, shared, m, KeyOf(MaintenanceSlot), true, ttl, now, faults.state);
    assert a == Read(m.value, LocalTier, m, shared) == a2;
    var on4g, onUps := EnvIsTrue(env.enable4gBanner), EnvIsTrue(env.enableUpsBanner);
    assert StoreGet(kv2, KeyOf(Is4gSlot)) == StoreGet(kv, KeyOf(Is4gSlot));
    LookupReadsOnlyItsKey(kv2, kv, shared, g, KeyOf(Is4gSlot), true, ttl, now, faults.is4g);
    var b := FlagLookup(kv, shared, g, KeyOf(Is4gSlot), on4g, true, ttl, now, faults.is4g);
    assert StoreGet(kv2, KeyOf(UpsSlot)) == StoreGet(kv, KeyOf(UpsSlot));
    LookupReadsOnlyItsKey(kv2, kv, b.shared, u, KeyOf(UpsSlot), true, ttl, now, faults.ups);
  }

  /** A flag read leaves every other key's shared URL as it was. */
  lemma FlagLookupKeepsOtherUrls(kv: map<string, string>, shared: map<string, string>, entry: Entry, key: string, on: bool,
                                 caching: bool, ttl: Option<int>, now: int, faults: SharedFaults, other: string)
    requires other != key
    ensures SameAt(shared, FlagLookup(kv, shared, entry, key, on, caching, ttl, now, faults).shared, SharedUrl(other))
  {
    SharedUrlInjective(key, other);
  }

  /** Reading a key again, from the entry the first read left and a shared
      tier that still agrees at its URL with the one it left, returns the same
      text up to null/"". */
  lemma RereadAgrees(kv: map<string, string>, shared: map<string, string>, later: map<string, string>, entry: Entry,
                     key: string, on: bool, caching: bool, ttl: Option<int>, now: int)
    requires SameAt(FlagLookup(kv, shared, entry, key, on, caching, ttl, now, SharedFaults(false, false)).shared, later, SharedUrl(key))
    ensures var first := FlagLookup(kv, shared, entry, key, on, caching, ttl, now, SharedFaults(false, false));
            Body(FlagLookup(kv, later, first.entry, key, on, caching, ttl, now, SharedFaults(false, false)).value) == Body(first.value)
  {
    if on {
      var first := Lookup(kv, shared, entry, key, caching, ttl, now, SharedFaults(false, false));
      ReadTwiceAgrees(kv, shared, entry, key, caching, ttl, now);
      LookupReadsOnlyItsUrl(kv, first.shared, later, first.entry, key, caching, ttl, now, SharedFaults(false, false));
    }
  }

  /** Resolve as three reads in a row, the blob's read written as a flag read
      that is always on. */
  lemma ResolveAsReads(kv: map<string, string>, shared: map<string, string>, m: Entry, g: Entry, u: Entry,
                       env: Env, codec: Codec, host: Option<string>, useCache: bool, now: int, faults: Faults)
    ensures var caching, ttl := useCache && CacheEnabled(env), CacheTtl(env);
            var a := FlagLookup(kv, shared, m, KeyOf(MaintenanceSlot), true, caching, ttl, now, faults.state);
            var b := FlagLookup(kv, a.shared, g, KeyOf(Is4gSlot), EnvIsTrue(env.enable4gBanner), caching, ttl, now, faults.is4g);
            var c := FlagLookup(kv, b.shared, u, KeyOf(UpsSlot), EnvIsTrue(env.enableUpsBanner), caching, ttl, now, faults.ups);
            Resolve(kv, shared, m, g, u, env, codec, host, useCache, now, faults) ==
              Resolution(Normalize(SafeJsonParse(codec, a.value, Defaults), host, b.value, c.value), a.entry, b.entry, c.entry, c.shared)
  {
  }

  /** Resolving twice at the same instant, with no write between and no
      shared-tier fault, gives the same snapshot: the second call starts from
      the entries and the shared tier the first one left. */
  lemma ResolveTwiceAgrees(kv: map<string, string>, shared: map<string, string>, m: Entry, g: Entry, u: Entry,
                           env: Env, codec: Codec, host: Option<string>, useCache: bool, now: int)
    ensures var nf := Faults(SharedFaults(false, false), SharedFaults(false, false), SharedFaults(false, false));
            var r1 := Resolve(kv, shared, m, g, u, env, codec, host, useCache, now, nf);
            Resolve(kv, r1.shared, r1.maintenance, r1.is4g, r1.ups, env, codec, host, useCache, now, nf).snapshot == r1.snapshot
  {
    var nf := Faults(SharedFaults(false, false), SharedFaults(false, false), SharedFaults(false, false));
    var caching := useCache && CacheEnabled(env);
    var ttl := CacheTtl(env);
    var on4g, onUps := EnvIsTrue(env.enable4gBanner), EnvIsTrue(env.enableUpsBanner);
    var mk, gk, uk := KeyOf(MaintenanceSlot), KeyOf(Is4gSlot), KeyOf(UpsSlot);
    var a := FlagLookup(kv, shared, m, mk, true, caching, ttl, now, nf.state);
    var b := FlagLookup(kv, a.shared, g, gk, on4g, caching, ttl, now, nf.is4g);
    var c := FlagLookup(kv, b.shared, u, uk, onUps, caching, ttl, now, nf.ups);
    ResolveAsReads(kv, shared, m, g, u, env, codec, host, useCache, now, nf);
    // the first call's later reads keep the earlier keys' URLs
    FlagLookupKeepsOtherUrls(kv, a.shared, g, gk, on4g, caching, ttl, now, nf.is4g, mk);
    FlagLookupKeepsOtherUrls(kv, b.shared, u, uk, onUps, caching, ttl, now, nf.ups, mk);
    FlagLookupKeepsOtherUrls(kv, b.shared, u, uk, onUps, caching, ttl, now, nf.ups, gk);
    // the second call: each read agrees with the first call's read of its key
    RereadAgrees(kv, shared, c.shared, m, mk, true, caching, ttl, now);
    var a2 := FlagLookup(kv, c.shared, a.entry, mk, true, caching, ttl, now, nf.state);
    FlagLookupKeepsOtherUrls(kv, c.shared, a.entry, mk, true, caching, ttl, now, nf.state, gk);
    FlagLookupKeepsOtherUrls(kv, c.shared, a.entry, mk, true, caching, ttl, now, nf.state, uk);
    RereadAgrees(kv, a.shared, a2.shared, g, gk, on4g, caching, ttl, now);
    var b2 := FlagLookup(kv, a2.shared, b.entry, gk, on4g, caching, ttl, now, nf.is4g);
    FlagLookupKeepsOtherUrls(kv, a2.shared, b.entry, gk, on4g, caching, ttl, now, nf.is4g, uk);
    RereadAgrees(kv, b.shared, b2.shared, u, uk, onUps, caching, ttl, now);
    var c2 := FlagLookup(kv, b2.shared, c.entry, uk, onUps, caching, ttl, now, nf.ups);
    ResolveAsReads(kv, c.shared, a.entry, b.entry, c.entry, env, codec, host, useCache, now, nf);
    BodyDeterminesSnapshot(codec, a2.value, a.value, host, b2.value, b.value, c2.value, c.value);
  }

  /** getMaintenanceState(env, host, useCache) on an instance's cache. */
  method GetMaintenanceState(p: Platform, local: LocalCache, env: Env, codec: Codec, host: Option<string>,
                             useCache: bool, now: int, faults: Faults) returns (state: Snapshot)
    modifies p`shared, local
    ensures var r := Resolve(old(p.kv), old(p.shared), old(local.maintenance), old(local.is4g), old(local.upsOnBattery),
                             env, codec, host, useCache, now, faults);
            state == r.snapshot && local.maintenance == r.maintenance && local.is4g == r.is4g &&
            local.upsOnBattery == r.ups && p.shared == r.shared
    ensures p.kv == old(p.kv)
  {
    var cacheEnabled := env.enableCache == None || EnvIsTrue(env.enableCache);
    var ttl := CacheTtl(env);
    var stateRaw := GetCachedKvValue(p, local, MaintenanceSlot, useCache, cacheEnabled, ttl, now, faults.state);
    assert local.is4g == local.Get(Is4gSlot) == old(local.Get(Is4gSlot));
    assert local.upsOnBattery == local.Get(UpsSlot) == old(local.Get(UpsSlot));
    var stateObj := SafeJsonParse(codec, stateRaw, Defaults);
    var is4gRaw: Option<string> := None;
    var upsRaw: Option<string> := None;
    if EnvIsTrue(env.enable4gBanner) {
      is4gRaw := GetCachedKvValue(p, local, Is4gSlot, useCache, cacheEnabled, ttl, now, faults.is4g);
      assert local.Get(MaintenanceSlot) == local.maintenance;
      assert local.Get(UpsSlot) == local.upsOnBattery;
    }
    if EnvIsTrue(env.enableUpsBanner) {
      upsRaw := GetCachedKvValue(p, local, UpsSlot, useCache, cacheEnabled, ttl, now, faults.ups);
      assert local.Get(MaintenanceSlot) == local.maintenance;
      assert local.Get(Is4gSlot) == local.is4g;
    }
    state := Normalize(stateObj, host, is4gRaw, upsRaw);
  }
}
