/** The read-through cache in front of the KV store (worker.js:22-83,
    197-208): a per-instance entry `{value, ts}` per tracked key, the shared
    Cache API keyed by `https://kv-cache.internal/<key>`, and the KV store
    itself. */
module TieredCache {
  import opened Wrappers

  /** A per-instance cache entry; `value == None` is the JavaScript `null`. */
  datatype Entry = Entry(value: Option<string>, ts: int)

  /** The state every entry starts in and is reset to. */
  const EmptyEntry := Entry(None, 0)

  /** The three entries of the module-level cache object (worker.js:23-27). */
  datatype Slot = MaintenanceSlot | Is4gSlot | UpsSlot

  /** The KV key each entry caches (worker.js:91, 101, 106). */
  function KeyOf(slot: Slot): string {
    match slot
    case MaintenanceSlot => "MAINTENANCE_STATE"
    case Is4gSlot => "wan-is-4g"
    case UpsSlot => "ups-on-battery"
  }

  /** The synthetic URL a key is cached under in the shared tier. */
  function SharedUrl(key: string): string {
    "https://kv-cache.internal/" + key
  }

  /** Distinct keys are cached under distinct URLs. */
  lemma SharedUrlInjective(a: string, b: string)
    ensures SharedUrl(a) == SharedUrl(b) ==> a == b
  {
    var n := |"https://kv-cache.internal/"|;
    assert SharedUrl(a)[n..] == a;
    assert SharedUrl(b)[n..] == b;
  }

  /** The shared tier holds response bodies: `new Response(null)` reads back
      as "", so a missing KV value comes back from that tier as "". */
  function Body(v: Option<string>): string {
    v.GetOr("")
  }

  function StoreGet(kv: map<string, string>, key: string): Option<string> {
    if key in kv then Some(kv[key]) else None
  }

  /** What the hosting platform provides to every worker instance: the KV
      namespace `MAINTENANCE_KV` and the shared `caches.default`, each as a
      map (the shared one from URL to cached body text). */
  class Platform {
    var kv: map<string, string>
    var shared: map<string, string>

    constructor (kv: map<string, string>, shared: map<string, string>)
      ensures this.kv == kv && this.shared == shared
    {
      this.kv := kv;
      this.shared := shared;
    }
  }

  /** The module-level cache object of one worker instance. */
  class LocalCache {
    var maintenance: Entry
    var is4g: Entry
    var upsOnBattery: Entry

    constructor ()
      ensures maintenance == EmptyEntry && is4g == EmptyEntry && upsOnBattery == EmptyEntry
    {
      maintenance, is4g, upsOnBattery := EmptyEntry, EmptyEntry, EmptyEntry;
    }

    function Get(slot: Slot): Entry
      reads this
    {
      match slot
      case MaintenanceSlot => maintenance
      case Is4gSlot => is4g
      case UpsSlot => upsOnBattery
    }

    /** Overwrite one entry's `value` and `ts`. */
    method Put(slot: Slot, e: Entry)
      modifies this
      ensures Get(slot) == e
      ensures forall other :: other != slot ==> Get(other) == old(Get(other))
    {
      match slot
      case MaintenanceSlot => maintenance := e;
      case Is4gSlot => is4g := e;
      case UpsSlot => upsOnBattery := e;
    }

    /** Reset all three entries to `{value: null, ts: 0}`. */
    method Reset()
      modifies this
      ensures forall slot :: Get(slot) == EmptyEntry
    {
      maintenance, is4g, upsOnBattery := EmptyEntry, EmptyEntry, EmptyEntry;
    }
  }

  /** The tier a read was answered from. */
  datatype Tier = LocalTier | SharedTier | StoreTier

  /** Whether `cache.match` and `cache.put` on the shared tier throw during
      one read: the platform decides, so the model takes it as an input. */
  datatype SharedFaults = SharedFaults(matchThrows: bool, putThrows: bool)

  /** The outcome of one read: the value returned, where it came from, and
      the entry and shared tier afterwards. */
  datatype Read = Read(value: Option<string>, from: Tier, entry: Entry, shared: map<string, string>)

  /** The entry may be served: it holds a non-null value younger than the TTL.
      A TTL that is NaN (`None`) makes every comparison false. */
  predicate Fresh(e: Entry, ttl: Option<int>, now: int) {
    e.value.Some? && ttl.Some? && now - e.ts < ttl.value
  }

  /** `getCachedKvValue(env, entry, key, useCache, cacheEnabled, ttl, now)`
      with `caching == useCache && cacheEnabled` (worker.js:30-83). */
  function Lookup(kv: map<string, string>, shared: map<string, string>, entry: Entry, key: string,
                  caching: bool, ttl: Option<int>, now: int, faults: SharedFaults): (r: Read)
    // the local tier answers exactly when caching is on and the entry is fresh, and then nothing changes
    ensures r.from == LocalTier <==> caching && Fresh(entry, ttl, now)
    ensures r.from == LocalTier ==> r.value == entry.value && r.entry == entry && r.shared == shared
    // past a stale or empty entry, a shared hit answers whenever the lookup does not throw
    ensures caching && !Fresh(entry, ttl, now) && !faults.matchThrows && SharedUrl(key) in shared ==> r.from == SharedTier
    // a store read with caching on is put back into the shared tier unless the put throws
    ensures caching && r.from == StoreTier && !faults.putThrows ==> r.shared == shared[SharedUrl(key) := Body(r.value)]
    ensures caching && r.from == StoreTier && faults.putThrows ==> r.shared == shared
    // the shared tier answers only when the lookup did not throw, and is not written then
    ensures r.from == SharedTier ==>
              caching && !faults.matchThrows && SharedUrl(key) in shared &&
              r.value == Some(shared[SharedUrl(key)]) && r.shared == shared
    // a store read returns the store's value; null is never served from a cache tier
    ensures r.from == StoreTier ==> r.value == StoreGet(kv, key)
    ensures r.value == None ==> r.from == StoreTier
    // with caching on, a miss refreshes the entry to (value, now)
    ensures caching && r.from != LocalTier ==> r.entry == Entry(r.value, now)
    // with caching off, the store answers and neither tier is touched
    ensures !caching ==> r.from == StoreTier && r.entry == entry && r.shared == shared
    // the shared tier only ever changes at this key's URL, and then to the store's body
    ensures forall u :: u != SharedUrl(key) ==> (u in r.shared <==> u in shared)
    ensures forall u :: u in shared && u != SharedUrl(key) ==> r.shared[u] == shared[u]
    ensures r.shared != shared ==>
              r.from == StoreTier && SharedUrl(key) in r.shared && r.shared[SharedUrl(key)] == Body(r.value)
  {
    var url := SharedUrl(key);
    if caching && Fresh(entry, ttl, now) then
      Read(entry.value, LocalTier, entry, shared)
    else if caching && !faults.matchThrows && url in shared then
      Read(Some(shared[url]), SharedTier, Entry(Some(shared[url]), now), shared)
    else
      var v := StoreGet(kv, key);
      if !caching then Read(v, StoreTier, entry, shared)
      else if faults.putThrows then Read(v, StoreTier, Entry(v, now), shared)
      else Read(v, StoreTier, Entry(v, now), shared[url := Body(v)])
  }

  /** A failing shared `put` changes neither the value returned nor the entry. */
  lemma PutFailureIsHarmless(kv: map<string, string>, shared: map<string, string>, entry: Entry, key: string,
                             caching: bool, ttl: Option<int>, now: int, matchThrows: bool)
    ensures var ok := Lookup(kv, shared, entry, key, caching, ttl, now, SharedFaults(matchThrows, false));
            var failed := Lookup(kv, shared, entry, key, caching, ttl, now, SharedFaults(matchThrows, true));
            failed.value == ok.value && failed.entry == ok.entry && failed.from == ok.from
  {
  }

  /** The tiers agree with the store on `key`, counting a missing value and
      "" as the same (every reader of these keys treats them alike). */
  predicate Coherent(kv: map<string, string>, shared: map<string, string>, entry: Entry, key: string) {
    (entry.value.Some? ==> Body(entry.value) == Body(StoreGet(kv, key))) &&
    (SharedUrl(key) in shared ==> shared[SharedUrl(key)] == Body(StoreGet(kv, key)))
  }

  /** While the tiers are coherent with the store, every read returns the
      store's value, whatever the shared tier's faults, and leaves them
      coherent. */
  lemma LookupCoherent(kv: map<string, string>, shared: map<string, string>, entry: Entry, key: string,
                       caching: bool, ttl: Option<int>, now: int, faults: SharedFaults)
    requires Coherent(kv, shared, entry, key)
    ensures var r := Lookup(kv, shared, entry, key, caching, ttl, now, faults);
            Body(r.value) == Body(StoreGet(kv, key)) && Coherent(kv, r.shared, r.entry, key)
  {
  }

  /** Two reads of one key at the same instant, with no write between and no
      shared-tier fault, return the same value (up to null/""): the first read
      leaves behind the value it returned wherever the second one looks. */
  lemma ReadTwiceAgrees(kv: map<string, string>, shared: map<string, string>, entry: Entry, key: string,
                        caching: bool, ttl: Option<int>, now: int)
    ensures var first := Lookup(kv, shared, entry, key, caching, ttl, now, SharedFaults(false, false));
            var second := Lookup(kv, first.shared, first.entry, key, caching, ttl, now, SharedFaults(false, false));
            Body(second.value) == Body(first.value)
  {
  }

  /** Two shared tiers that agree at `url`: both lack it or both hold the
      same body there. */
  predicate SameAt(s1: map<string, string>, s2: map<string, string>, url: string) {
    (url in s1 <==> url in s2) && (url in s1 ==> s1[url] == s2[url])
  }

  /** A read consults the shared tier only at its own key's URL. */
  lemma LookupReadsOnlyItsUrl(kv: map<string, string>, s1: map<string, string>, s2: map<string, string>, entry: Entry,
                              key: string, caching: bool, ttl: Option<int>, now: int, faults: SharedFaults)
    requires SameAt(s1, s2, SharedUrl(key))
    ensures var r1 := Lookup(kv, s1, entry, key, caching, ttl, now, faults);
            var r2 := Lookup(kv, s2, entry, key, caching, ttl, now, faults);
            r1.value == r2.value && r1.from == r2.from && r1.entry == r2.entry
  {
  }

  /** A read consults the store only at its own key. */
  lemma LookupReadsOnlyItsKey(kv1: map<string, string>, kv2: map<string, string>, shared: map<string, string>, entry: Entry,
                              key: string, caching: bool, ttl: Option<int>, now: int, faults: SharedFaults)
    requires StoreGet(kv1, key) == StoreGet(kv2, key)
    ensures Lookup(kv1, shared, entry, key, caching, ttl, now, faults) == Lookup(kv2, shared, entry, key, caching, ttl, now, faults)
  {
  }

  /** Within the TTL a fresh entry hides any change to the store: nothing in
      the read path consults the store, so a write that does not reset the
      entry stays unseen until the entry expires. */
  lemma FreshEntryHidesStoreWrites(kv: map<string, string>, shared: map<string, string>, entry: Entry, key: string,
                                   ttl: Option<int>, now: int, faults: SharedFaults, written: string)
    requires Fresh(entry, ttl, now)
    ensures Lookup(kv[key := written], shared, entry, key, true, ttl, now, faults).value == entry.value
  {
  }

  /** After the entry is reset and the shared URL deleted (what a write would
      need to do to be seen at once), the next read returns the store's value. */
  lemma InvalidatedReadSeesStore(kv: map<string, string>, shared: map<string, string>, key: string,
                                 caching: bool, ttl: Option<int>, now: int, faults: SharedFaults)
    requires SharedUrl(key) !in shared
    ensures Lookup(kv, shared, EmptyEntry, key, caching, ttl, now, faults).value == StoreGet(kv, key)
  {
  }

  /** getCachedKvValue on the entry `slot` of an instance's cache; `now` is
      `Date.now()` and `faults` the shared tier's behaviour during this call. */
  method GetCachedKvValue(p: Platform, local: LocalCache, slot: Slot, useCache: bool, cacheEnabled: bool,
                          ttl: Option<int>, now: int, faults: SharedFaults) returns (value: Option<string>)
    modifies p`shared, local
    ensures var r := Lookup(old(p.kv), old(p.shared), old(local.Get(slot)), KeyOf(slot),
                            useCache && cacheEnabled, ttl, now, faults);
            value == r.value && p.shared == r.shared && local.Get(slot) == r.entry
    ensures p.kv == old(p.kv)
    ensures forall other :: other != slot ==> local.Get(other) == old(local.Get(other))
  {
    var key := KeyOf(slot);
    var entry := local.Get(slot);
    if useCache && cacheEnabled && entry.value != None && ttl.Some? && now - entry.ts < ttl.value {
      return entry.value;
    }
    var url := SharedUrl(key);
    if useCache && cacheEnabled && !faults.matchThrows && url in p.shared {
      var text := p.shared[url];
      local.Put(slot, Entry(Some(text), now));
      return Some(text);
    }
    value := StoreGet(p.kv, key);
    if useCache && cacheEnabled {
      local.Put(slot, Entry(value, now));
      if !faults.putThrows {
        p.shared := p.shared[url := Body(value)];
      }
    }
  }

  /** `invalidateCacheApi(keys)` (worker.js:198-208): delete each key's shared
      URL in turn. Nothing in the worker or the admin API calls it. */
  method InvalidateCacheApi(p: Platform, keys: seq<string>)
    modifies p`shared
    ensures p.shared == old(p.shared) - (set k | k in keys :: SharedUrl(k))
    ensures p.kv == old(p.kv)
  {
    var i := 0;
    while i < |keys|
      invariant 0 <= i <= |keys|
      invariant p.shared == old(p.shared) - (set k | k in keys[..i] :: SharedUrl(k))
    {
      assert keys[..i + 1] == keys[..i] + [keys[i]];
      assert (set k | k in keys[..i + 1] :: SharedUrl(k)) ==
             (set k | k in keys[..i] :: SharedUrl(k)) + {SharedUrl(keys[i])};
      p.shared := p.shared - {SharedUrl(keys[i])};
      i := i + 1;
    }
    assert keys[..i] == keys;
  }
}
