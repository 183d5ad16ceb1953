/** The router's tenant policies: loaded per tenant, with a permissive default, behind a cache. */
module Policies {
  import opened Base
  import opened TtlCache

  datatype TenantPolicy = TenantPolicy(
    tenantId: string, routingMode: string, allowedModels: Option<set<string>>,
    rateLimit: int, burstLimit: int, enabled: bool)

  datatype PolicyEntry = PolicyEntry(policy: TenantPolicy, fetchedAt: int)

  const POLICY_TTL := 30 * SECOND

  function Default(tenantId: string): TenantPolicy {
    TenantPolicy(tenantId, "balanced", None, 50, 100, true)
  }

  function Fallback(tenantId: string): Option<TenantPolicy> { Some(Default(tenantId)) }

  const POLICIES: Rule<string, TenantPolicy> := Rule(POLICY_TTL, true, Fallback)

  function Timed(cache: map<string, Entry<TenantPolicy>>): map<string, PolicyEntry> {
    map t | t in cache :: PolicyEntry(cache[t].value, cache[t].at)
  }

  lemma TimedPut(cache: map<string, Entry<TenantPolicy>>, t: string, e: Entry<TenantPolicy>)
    ensures Timed(cache[t := e]) == Timed(cache)[t := PolicyEntry(e.value, e.at)]
  {
  }

  class PolicyStore {
    var entries: map<string, PolicyEntry>

    constructor ()
      ensures entries == map[]
    {
      entries := map[];
    }

    method Get(tenantId: string, now: int) returns (p: Option<TenantPolicy>)
      ensures p.Some? <==> tenantId in entries && now - entries[tenantId].fetchedAt <= 30_000_000_000
      ensures p.Some? ==> p.value == entries[tenantId].policy
    {
      if tenantId !in entries || now - entries[tenantId].fetchedAt > POLICY_TTL {
        return None;
      }
      return Some(entries[tenantId].policy);
    }

    method Set(p: TenantPolicy, now: int)
      modifies this
      ensures entries == old(entries)[p.tenantId := PolicyEntry(p, now)]
    {
      entries := entries[p.tenantId := PolicyEntry(p, now)];
    }
  }

  /** The first part of Route together with the tenants table it reads. */
  class Loader {
    const store: PolicyStore
    var tenants: map<string, TenantPolicy>
    ghost var model: State<string, TenantPolicy>

    ghost predicate Valid()
      reads this, store
    {
      && (forall t :: t in tenants ==> tenants[t].tenantId == t)
      && model.versions != [] && model.versions[|model.versions| - 1].rows == tenants
      && model.missed == map[] && model.flights == map[] && store.entries == Timed(model.cache)
    }

    constructor (tenants: map<string, TenantPolicy>, now: int)
      requires forall t :: t in tenants ==> tenants[t].tenantId == t
      ensures Valid() && fresh(store) && this.tenants == tenants && model == Start(now, tenants)
    {
      store := new PolicyStore();
      this.tenants := tenants;
      model := Start(now, tenants);
    }

    /** The policy a request runs under. */
    method Load(tenantId: string, now: int, done: int) returns (p: TenantPolicy)
      requires Valid() && model.now <= now <= done
      modifies this`model, store
      ensures Valid()
      ensures model == After(POLICIES, old(model), Fetch(POLICIES, old(model), tenantId, now, done))
      ensures Some(p) == Fetched(POLICIES, old(model), tenantId, now)
      // an entry answers for 30 seconds; otherwise the row does, or the permissive default, and is kept
      ensures var entries := old(store.entries);
              if tenantId in entries && now - entries[tenantId].fetchedAt <= 30_000_000_000 then
                p == entries[tenantId].policy && store.entries == entries
              else
                && p == (if tenantId in tenants then tenants[tenantId]
                         else TenantPolicy(tenantId, "balanced", None, 50, 100, true))
                && store.entries == entries[tenantId := PolicyEntry(p, done)]
    {
      hide After, Fetch, Answers, Runs;
      FetchMeans(POLICIES, model, tenantId, now, done);
      ghost var start := model;
      model := After(POLICIES, model, Fetch(POLICIES, model, tenantId, now, done));
      var cached := store.Get(tenantId, now);
      if cached.Some? {
        return cached.value;
      }
      p := if tenantId in tenants then tenants[tenantId] else Default(tenantId);
      TimedPut(start.cache, tenantId, Entry(p, done, now));
      store.Set(p, done);
    }
  }
}
