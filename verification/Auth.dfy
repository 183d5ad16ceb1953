/** The gateway's key store: API keys resolved against two tables, behind a cache. */
module Auth {
  import opened Base
  import opened TtlCache

  datatype KeyRow = KeyRow(keyId: string, tenantId: string, enabled: bool)
  datatype TenantRow = TenantRow(routingMode: string, rateLimitRps: int, burstLimit: int, enabled: bool)
  datatype Principal = Principal(
    keyId: string, tenantId: string, routingMode: string, rateLimitRps: int, burstLimit: int)
  datatype CacheEntry = CacheEntry(principal: Principal, expiresAt: int)

  const CACHE_TTL := 60 * SECOND

  function Nothing(keyHash: string): Option<Principal> { None }

  const KEYS: Rule<string, Principal> := Rule(CACHE_TTL, false, Nothing)

  /** The row the lookup joins: an enabled key of an enabled tenant. */
  function Resolve(keys: map<string, KeyRow>, tenants: map<string, TenantRow>, keyHash: string): Option<Principal> {
    if keyHash !in keys || !keys[keyHash].enabled then None
    else
      var k := keys[keyHash];
      if k.tenantId !in tenants || !tenants[k.tenantId].enabled then None
      else
        var t := tenants[k.tenantId];
        Some(Principal(k.keyId, k.tenantId, t.routingMode, t.rateLimitRps, t.burstLimit))
  }

  /** The answer to a key: the principal of an enabled key of an enabled tenant, and none for any other. */
  predicate Joined(keys: map<string, KeyRow>, tenants: map<string, TenantRow>, keyHash: string,
                   r: Option<Principal>)
  {
    && (r.Some? <==>
          keyHash in keys && keys[keyHash].enabled
          && keys[keyHash].tenantId in tenants && tenants[keys[keyHash].tenantId].enabled)
    && (r.Some? ==>
          var p, k, t := r.value, keys[keyHash], tenants[keys[keyHash].tenantId];
          && p.keyId == k.keyId && p.tenantId == k.tenantId && p.routingMode == t.routingMode
          && p.rateLimitRps == t.rateLimitRps && p.burstLimit == t.burstLimit)
  }

  lemma JoinedIff(keys: map<string, KeyRow>, tenants: map<string, TenantRow>, keyHash: string, r: Option<Principal>)
    ensures Joined(keys, tenants, keyHash, r) <==> r == Resolve(keys, tenants, keyHash)
  {
  }

  function Rows(keys: map<string, KeyRow>, tenants: map<string, TenantRow>): map<string, Principal> {
    map h | h in keys && Resolve(keys, tenants, h).Some? :: Resolve(keys, tenants, h).value
  }

  function Timed(cache: map<string, Entry<Principal>>): map<string, CacheEntry> {
    map h | h in cache :: CacheEntry(cache[h].value, cache[h].at + CACHE_TTL)
  }

  lemma TimedPut(cache: map<string, Entry<Principal>>, h: string, e: Entry<Principal>)
    ensures Timed(cache[h := e]) == Timed(cache)[h := CacheEntry(e.value, e.at + CACHE_TTL)]
  {
  }

  function Unexpired(cache: map<string, CacheEntry>, now: int): map<string, CacheEntry> {
    map h | h in cache && now <= cache[h].expiresAt :: cache[h]
  }

  lemma TimedSweep(cache: map<string, Entry<Principal>>, now: int)
    ensures Timed(Swept(KEYS, cache, now)) == Unexpired(Timed(cache), now)
  {
  }

  class Store {
    var keys: map<string, KeyRow>
    var tenants: map<string, TenantRow>
    var cache: map<string, CacheEntry>
    /** The same store in the protocol of TtlCache. */
    ghost var model: State<string, Principal>

    ghost predicate Valid()
      reads this
    {
      && model.versions != [] && model.versions[|model.versions| - 1].rows == Rows(keys, tenants)
      && model.missed == map[] && model.flights == map[] && cache == Timed(model.cache)
    }

    constructor (keys: map<string, KeyRow>, tenants: map<string, TenantRow>, now: int)
      ensures Valid() && this.keys == keys && this.tenants == tenants && model == Start(now, Rows(keys, tenants))
    {
      this.keys, this.tenants, cache := keys, tenants, map[];
      model := Start(now, Rows(keys, tenants));
    }

    /** The tables change under the store. */
    method Rewrite(keys: map<string, KeyRow>, tenants: map<string, TenantRow>, now: int)
      requires Valid()
      modifies this`keys, this`tenants, this`model
      ensures Valid() && this.keys == keys && this.tenants == tenants
      ensures model == Next(KEYS, old(model), Event(now, Write(Rows(keys, tenants))))
    {
      this.keys, this.tenants := keys, tenants;
      model := Next(KEYS, model, Event(now, Write(Rows(keys, tenants))));
    }

    /** None is the unauthorized error.  `now` is the clock at the lookup and `done` at the store. */
    method Validate(keyHash: string, now: int, done: int) returns (r: Option<Principal>)
      requires Valid() && model.now <= now <= done
      modifies this`cache, this`model
      ensures Valid()
      ensures model == After(KEYS, old(model), Fetch(KEYS, old(model), keyHash, now, done))
      ensures r == Fetched(KEYS, old(model), keyHash, now)
      ensures !Hit(KEYS, old(model), keyHash, now) ==> r == Resolve(keys, tenants, keyHash)
      // before it expires the entry answers; otherwise the tables do, and what they hold is good for 60 seconds
      ensures if keyHash in old(cache) && now < old(cache)[keyHash].expiresAt then
                r == Some(old(cache)[keyHash].principal) && cache == old(cache)
              else
                && Joined(keys, tenants, keyHash, r)
                && cache == if r.None? then old(cache)
                            else old(cache)[keyHash := CacheEntry(r.value, done + 60_000_000_000)]
    {
      JoinedIff(keys, tenants, keyHash, Resolve(keys, tenants, keyHash));
      hide Joined, After, Fetch, Answers, Runs;
      FetchMeans(KEYS, model, keyHash, now, done);
      ghost var start := model;
      model := After(KEYS, model, Fetch(KEYS, model, keyHash, now, done));
      if keyHash in cache && now < cache[keyHash].expiresAt {
        return Some(cache[keyHash].principal);
      }
      r := Resolve(keys, tenants, keyHash);
      if r.Some? {
        TimedPut(start.cache, keyHash, Entry(r.value, done, now));
      }
      assert Current(KEYS, start, keyHash) == r;
      if r.None? {
        return;
      }
      cache := cache[keyHash := CacheEntry(r.value, done + CACHE_TTL)];
    }

    method Invalidate(keyHash: string, now: int)
      requires Valid()
      modifies this`cache, this`model
      ensures Valid() && model == Next(KEYS, old(model), Event(now, Action.Invalidate(keyHash)))
      ensures cache == old(cache) - {keyHash}
    {
      cache := cache - {keyHash};
      model := Next(KEYS, model, Event(now, Action.Invalidate(keyHash)));
    }

    /** One round of the cleanup loop. */
    method Cleanup(now: int)
      requires Valid()
      modifies this`cache, this`model
      ensures Valid() && model == Next(KEYS, old(model), Event(now, Sweep))
      ensures cache == Unexpired(old(cache), now)
    {
      hide Swept, Timed;
      var todo := cache.Keys;
      while todo != {}
        invariant todo <= old(cache).Keys
        invariant cache == map h | h in old(cache) && (h in todo || now <= old(cache)[h].expiresAt) :: old(cache)[h]
        invariant model == old(model)
        decreases |todo|
      {
        var k :| k in todo;
        todo := todo - {k};
        if now > cache[k].expiresAt {
          cache := cache - {k};
        }
      }
      TimedSweep(model.cache, now);
      model := Next(KEYS, model, Event(now, Sweep));
    }
  }

  /** A key is looked up, the tables change, the key is invalidated: the next lookup answers by the new tables. */
  method RotatedKeyIsReadAgain(s: Store, keyHash: string, keys: map<string, KeyRow>, tenants: map<string, TenantRow>,
                               t0: int, t1: int, t2: int, t3: int)
    returns (r: Option<Principal>)
    requires s.Valid() && s.model.now <= t0 <= t1 <= t2 <= t3
    modifies s
    ensures r == Resolve(keys, tenants, keyHash) && Joined(keys, tenants, keyHash, r)
  {
    r := s.Validate(keyHash, t0, t1);
    s.Rewrite(keys, tenants, t2);
    s.Invalidate(keyHash, t2);
    assert !Hit(KEYS, s.model, keyHash, t2);
    r := s.Validate(keyHash, t2, t3);
  }
}
