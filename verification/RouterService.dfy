/** The router's Route from end to end: the tenant's policy, its rate limit, the choice of a model, the call and
    the response. */
module RouterService {
  import opened Base
  import opened Sorting
  import opened Health
  import opened Policies
  import opened Scoring
  import opened Routing
  import TC = TtlCache
  import TB = TokenBucket

  /** The part of an inference request that Route looks at. */
  datatype Request = Request(tenantId: string, task: string, costBudget: string, latencyTargetMs: int,
                             prompt: string, contents: seq<string>)

  /** The clock where Route reads it, in the units of its readers; breakers are asked model by model. */
  datatype Clock = Clock(load: int, stored: int, limit: real, ask: string -> real, done: real)

  /** What comes of the dial and the call. */
  datatype Call = DialError | ExecError | Answer(modelId: string, tokensOutput: int, latencyMs: real)

  datatype Response =
    | RateLimited
    | NoAvailableModels
    | DialFailed(id: string)
    | ExecFailed(id: string)
    | Response(modelId: string, executorId: string, latencyMs: real, fallbackUsed: bool, isCanary: bool, costUsd: real)

  const DEFAULT_TENANT := "tenant-default"

  function Tenant(req: Request): string {
    if req.tenantId == "" then DEFAULT_TENANT else req.tenantId
  }

  function TotalLength(texts: seq<string>): nat {
    if texts == [] then 0 else TotalLength(texts[..|texts| - 1]) + |texts[|texts| - 1]|
  }

  /** A policy that names no models allows all of them. */
  function AllowedMap(p: TenantPolicy): map<string, bool> {
    if p.allowedModels.Some? then map m | m in p.allowedModels.value :: true else map[]
  }

  function ScoringOf(req: Request, p: TenantPolicy, rollouts: seq<RolloutConfig>): ScoringRequest {
    ScoringRequest(req.task, req.costBudget, req.latencyTargetMs, |req.prompt| + TotalLength(req.contents),
                   p.routingMode, AllowedMap(p), WeightsFrom(rollouts))
  }

  /** A model counts as a canary when the rollouts give it a weight strictly between 0 and 1. */
  predicate Canary(weights: map<string, real>, id: string) {
    id in weights && 0.0 < weights[id] < 1.0
  }

  /** The price of the first model with that id. */
  function Price(models: seq<ModelRecord>, id: string): real {
    if models == [] then 0.0
    else if models[0].modelId == id then models[0].costPer1k
    else Price(models[1..], id)
  }

  method PromptLength(req: Request) returns (n: nat)
    ensures n == |req.prompt| + TotalLength(req.contents)
  {
    n := |req.prompt|;
    for i := 0 to |req.contents|
      invariant n == |req.prompt| + TotalLength(req.contents[..i])
    {
      assert req.contents[..i + 1][..i] == req.contents[..i];
      n := n + |req.contents[i]|;
    }
    assert req.contents[..|req.contents|] == req.contents;
  }

  method Cost(models: seq<ModelRecord>, id: string, tokensOutput: int) returns (usd: real)
    ensures usd == tokensOutput as real / 1000.0 * Price(models, id)
  {
    usd := 0.0;
    for i := 0 to |models|
      invariant usd == 0.0 && Price(models, id) == Price(models[i..], id)
    {
      if models[i].modelId == id {
        return tokensOutput as real / 1000.0 * models[i].costPer1k;
      }
    }
  }

  class RouterServer {
    const policies: Loader
    const limiter: TB.RateLimiter
    const router: Router
    var models: seq<ModelRecord>
    var rollouts: seq<RolloutConfig>

    ghost predicate Valid()
      reads this, policies, policies.store, limiter, router
    {
      policies.Valid() && limiter.Valid() && router.Valid()
    }

    constructor (tenants: map<string, TenantPolicy>, models: seq<ModelRecord>, rollouts: seq<RolloutConfig>, now: int)
      requires forall t :: t in tenants ==> tenants[t].tenantId == t
      ensures Valid() && this.models == models && this.rollouts == rollouts
      ensures fresh(policies) && fresh(policies.store) && fresh(limiter) && fresh(router)
    {
      policies := new Loader(tenants, now);
      limiter := new TB.RateLimiter();
      router := new Router();
      this.models, this.rollouts := models, rollouts;
    }

    /** The policy in force, and one more call on the tenant's bucket. */
    method Limit(req: Request, clock: Clock) returns (p: TenantPolicy, granted: bool)
      requires policies.Valid() && limiter.Valid() && policies.model.now <= clock.load <= clock.stored
      modifies policies`model, policies.store, limiter
      ensures policies.Valid() && limiter.Valid()
      ensures policies.model
           == TC.After(POLICIES, old(policies.model),
                       TC.Fetch(POLICIES, old(policies.model), Tenant(req), clock.load, clock.stored))
      ensures Some(p) == TC.Fetched(POLICIES, old(policies.model), Tenant(req), clock.load)
      ensures limiter.log == old(limiter.log) + [TB.Call(if req.tenantId == "" then "tenant-default" else req.tenantId,
                                                          p.rateLimit, p.burstLimit, clock.limit)]
      ensures granted == TB.Granted(limiter.log, |limiter.log| - 1)
    {
      hide TC.After, TC.Fetch, TC.Fetched, TB.Granted, Loader.Valid, TB.RateLimiter.Valid;
      p := policies.Load(Tenant(req), clock.load, clock.stored);
      granted := limiter.Allow(Tenant(req), p.rateLimit, p.burstLimit, clock.limit);
    }

    /** The best model that its breaker lets through is called, and what comes of it is recorded and answered. */
    method Dispatch(req: Request, p: TenantPolicy, depth: string -> int, clock: Clock, call: Call)
      returns (r: Response)
      requires router.Valid()
      modifies router
      ensures router.Valid()
      ensures Served(req, p, rollouts, models, depth, clock, call, old(router.breakers), old(router.histories),
                     router.breakers, router.histories, r)
      ensures !r.RateLimited? && (r.Response? ==> !r.fallbackUsed)
    {
      hide Ranked, Admits, SignalsOf, Filter, Router.Valid, TotalLength, WeightsFrom, Price, AfterRoute;
      hide DecidedBy, Names, Admitted, HistoryOf;
      var promptLen := PromptLength(req);
      var weights := RolloutWeights(rollouts);
      var sreq := ScoringRequest(req.task, req.costBudget, req.latencyTargetMs, promptLen, p.routingMode,
                                 AllowedMap(p), weights);
      var latencyMs := if call.Answer? then call.latencyMs else 0.0;
      var result, ranked :=
        router.Route(sreq, models, depth, clock.ask, !call.DialError?, call.Answer?, latencyMs, clock.done);
      match result
      case NoModels => r := NoAvailableModels;
      case DialFailed(id) => r := Response.DialFailed(id);
      case ExecFailed(id) => r := Response.ExecFailed(id);
      case Routed(id) =>
        var primary := ranked[0];
        var isFallback := |ranked| > 0 && primary != ranked[0];
        var costUsd := Cost(models, id, call.tokensOutput);
        r := Response(call.modelId, primary.executorAddr, latencyMs, isFallback, Canary(weights, id), costUsd);
    }

    /** A limited request touches no breaker and no history; any other is served under the policy in force. */
    method Route(req: Request, depth: string -> int, clock: Clock, call: Call) returns (r: Response)
      requires Valid() && policies.model.now <= clock.load <= clock.stored
      modifies policies`model, policies.store, limiter, router
      ensures Valid()
      ensures policies.model
           == TC.After(POLICIES, old(policies.model),
                       TC.Fetch(POLICIES, old(policies.model), Tenant(req), clock.load, clock.stored))
      ensures var p := TC.Fetched(POLICIES, old(policies.model), Tenant(req), clock.load);
              && p.Some?
              && limiter.log == old(limiter.log)
                                + [TB.Call(if req.tenantId == "" then "tenant-default" else req.tenantId,
                                           p.value.rateLimit, p.value.burstLimit, clock.limit)]
      ensures r.RateLimited? <==> !TB.Granted(limiter.log, |limiter.log| - 1)
      ensures r.RateLimited? ==> router.breakers == old(router.breakers) && router.histories == old(router.histories)
      ensures !r.RateLimited? ==>
                var p := TC.Fetched(POLICIES, old(policies.model), Tenant(req), clock.load).value;
                Served(req, p, rollouts, models, depth, clock, call, old(router.breakers), old(router.histories),
                       router.breakers, router.histories, r)
      ensures r.Response? ==> !r.fallbackUsed
    {
      hide TC.After, TC.Fetch, TC.Fetched, TB.Granted, Loader.Valid, TB.RateLimiter.Valid, Router.Valid, Served;
      var p, granted := Limit(req, clock);
      if granted {
        r := Dispatch(req, p, depth, clock, call);
      } else {
        r := RateLimited;
      }
    }
  }

  /** The best model that its breaker lets through is the one that answers, exactly its history grows, and every
      breaker has been asked and exactly its own told. */
  ghost predicate Served(req: Request, p: TenantPolicy, rollouts: seq<RolloutConfig>, models: seq<ModelRecord>,
                         depth: string -> int, clock: Clock, call: Call,
                         bs0: Breakers, hs0: Histories, bs: Breakers, hs: Histories, r: Response)
  {
    var ranked := Ranked(ScoringOf(req, p, rollouts), SignalsOf(hs0, depth), Filter(models, Admits(bs0, clock.ask)));
    && r == Reply(ranked, call, WeightsFrom(rollouts), models)
    && hs == Told(hs0, ranked, call)
    && forall id: string ::
         BreakerOf(bs, id) == AfterRoute(bs0, models, clock.ask, id, ResultOf(ranked, call), clock.done)
  }

  /** How the request went with the best model. */
  function ResultOf(ranked: seq<CandidateScore>, call: Call): RouteResult {
    if ranked == [] then NoModels
    else
      var id := ranked[0].modelId;
      match call
      case DialError => RouteResult.DialFailed(id)
      case ExecError => RouteResult.ExecFailed(id)
      case Answer(_, _, _) => Routed(id)
  }

  /** The answer to a request, given the ranking. */
  function Reply(ranked: seq<CandidateScore>, call: Call, weights: map<string, real>, models: seq<ModelRecord>)
    : Response
  {
    if ranked == [] then NoAvailableModels
    else
      var best := ranked[0];
      match call
      case DialError => Response.DialFailed(best.modelId)
      case ExecError => Response.ExecFailed(best.modelId)
      case Answer(modelId, tokens, latency) =>
        Response(modelId, best.executorAddr, latency, false, Canary(weights, best.modelId),
                 tokens as real / 1000.0 * Price(models, best.modelId))
  }

  /** Exactly the chosen model's history grows, by one outcome. */
  function Told(hs: Histories, ranked: seq<CandidateScore>, call: Call): Histories {
    if ranked == [] then hs
    else
      var id := ranked[0].modelId;
      hs[id := HistoryOf(hs, id) + [if call.Answer? then Succeeded(call.latencyMs) else Failed]]
  }
}
