/** What a routed request gets, said by the models' records and not by the ranking. */
module RouteLaws {
  import opened Base
  import opened Sorting
  import opened Health
  import opened Policies
  import opened Scoring
  import opened Routing
  import opened RouterService
  import CB = CircuitBreaker

  /** The request may go to m: enabled, fit for the task, allowed to the tenant, and its breaker not holding. */
  ghost predicate Candidate(req: Request, p: TenantPolicy, models: seq<ModelRecord>, clock: Clock, bs: Breakers,
                            m: ModelRecord)
  {
    && m in models && m.enabled
    && (exists i :: 0 <= i < |m.tasks| && m.tasks[i] == req.task)
    && (p.allowedModels.None? || p.allowedModels.value == {} || m.modelId in p.allowedModels.value)
    && var b := BreakerOf(bs, m.modelId);
       b.state != CB.Open || clock.ask(m.modelId) - b.lastFail > 20.0
  }

  /** The last enabled rollout that names the model gives it a share strictly between none and all. */
  ghost predicate Rolling(rollouts: seq<RolloutConfig>, id: string) {
    exists i: nat :: DecidedBy(rollouts, id, i) && 0.0 < rollouts[i].canaryPct < 1.0
  }

  /** k is where the model's id first stands in the table. */
  ghost predicate FirstAt(models: seq<ModelRecord>, id: string, k: nat) {
    k < |models| && models[k].modelId == id && forall j :: 0 <= j < k ==> models[j].modelId != id
  }

  /** m answers the request, or fails it. */
  ghost predicate GoesTo(rollouts: seq<RolloutConfig>, models: seq<ModelRecord>, call: Call, m: ModelRecord,
                         r: Response)
  {
    match call
    case DialError => r == Response.DialFailed(m.modelId)
    case ExecError => r == Response.ExecFailed(m.modelId)
    case Answer(modelId, tokens, latency) =>
      && r.Response? && r.modelId == modelId && r.executorId == m.executorAddr && r.latencyMs == latency
      && !r.fallbackUsed && (r.isCanary <==> Rolling(rollouts, m.modelId))
      && exists k: nat :: FirstAt(models, m.modelId, k) && r.costUsd == tokens as real / 1000.0 * models[k].costPer1k
  }

  ghost predicate NoneBetter(req: ScoringRequest, sig: Signals, m: ModelRecord, x: ModelRecord) {
    forall c, d :: Scored(req, sig, m, c) && Scored(req, sig, x, d) ==> c.total >= d.total
  }

  /** What a request is scored by. */
  ghost predicate ScoredBy(req: Request, p: TenantPolicy, rollouts: seq<RolloutConfig>, s: ScoringRequest) {
    && s.task == req.task && s.costBudget == req.costBudget && s.latencyTargetMs == req.latencyTargetMs
    && s.tenantMode == p.routingMode && s.rolloutWeights == WeightsFrom(rollouts)
    && s.promptLen == |req.prompt| + TotalLength(req.contents)
  }

  /** The history of the model that was called takes one outcome; every breaker is asked, and its own told. */
  ghost predicate Reported(models: seq<ModelRecord>, clock: Clock, call: Call, m: ModelRecord,
                           bs0: Breakers, hs0: Histories, bs: Breakers, hs: Histories)
  {
    && hs == hs0[m.modelId := HistoryOf(hs0, m.modelId)
                                + [if call.Answer? then Succeeded(call.latencyMs) else Failed]]
    && forall id: string ::
         var asked := if exists x :: x in models && x.modelId == id
                      then CB.Step(CB.DEFAULT, BreakerOf(bs0, id), CB.Allow(clock.ask(id))) else BreakerOf(bs0, id);
         BreakerOf(bs, id)
         == if id != m.modelId then asked
            else CB.Step(CB.DEFAULT, asked, if call.Answer? then CB.Success(clock.done) else CB.Failure(clock.done))
  }

  lemma {:induction false} PriceOfFirst(models: seq<ModelRecord>, id: string) returns (k: nat)
    requires exists m :: m in models && m.modelId == id
    ensures FirstAt(models, id, k) && Price(models, id) == models[k].costPer1k
  {
    if models[0].modelId == id {
      k := 0;
    } else {
      var m :| m in models && m.modelId == id;
      assert m in models[1..];
      k := PriceOfFirst(models[1..], id);
      k := k + 1;
      assert forall j :: 0 < j < k ==> models[j] == models[1..][j - 1];
    }
  }

  lemma CanaryIsRolling(rollouts: seq<RolloutConfig>, id: string)
    ensures Canary(WeightsFrom(rollouts), id) <==> Rolling(rollouts, id)
  {
    hide WeightsFrom;
    var i := LastNaming(rollouts, id);
    if i == |rollouts| {
      UnnamedHasNoWeight(rollouts, id);
    } else {
      LastRolloutDecides(rollouts, id, i);
      forall j: nat | DecidedBy(rollouts, id, j) ensures j == i {
        DecidedOnce(rollouts, id, i, j);
      }
    }
  }

  lemma DecidedOnce(cfgs: seq<RolloutConfig>, id: string, i: nat, j: nat)
    requires DecidedBy(cfgs, id, i) && DecidedBy(cfgs, id, j)
    ensures i == j
  {
  }

  lemma LastNaming(cfgs: seq<RolloutConfig>, id: string) returns (i: nat)
    ensures i < |cfgs| ==> DecidedBy(cfgs, id, i)
    ensures i >= |cfgs| ==> i == |cfgs| && forall j :: 0 <= j < |cfgs| ==> !Names(cfgs[j], id)
  {
    i := |cfgs|;
    while i > 0 && !Names(cfgs[i - 1], id)
      invariant i <= |cfgs| && forall j :: i <= j < |cfgs| ==> !Names(cfgs[j], id)
    {
      i := i - 1;
    }
    i := if i == 0 then |cfgs| else i - 1;
  }

  /** The candidates are what the breakers and the filters let through. */
  lemma CandidateIff(req: Request, p: TenantPolicy, rollouts: seq<RolloutConfig>, models: seq<ModelRecord>,
                     clock: Clock, bs: Breakers, m: ModelRecord)
    ensures Candidate(req, p, models, clock, bs, m)
       <==> m in Filter(Filter(models, Admits(bs, clock.ask)), IsEligible(ScoringOf(req, p, rollouts)))
  {
    hide CB.Allows, BreakerOf, WeightsFrom, TotalLength;
    AdmittedMeans(bs, clock.ask, models);
    AllowedMeans(p, m.modelId);
  }

  lemma AllowedMeans(p: TenantPolicy, id: string)
    ensures (AllowedMap(p) == map[] || (id in AllowedMap(p) && AllowedMap(p)[id]))
       <==> (p.allowedModels.None? || p.allowedModels.value == {} || id in p.allowedModels.value)
  {
    var a := AllowedMap(p);
    if p.allowedModels.Some? {
      assert a.Keys == p.allowedModels.value;
    }
  }

  /** Of the candidates, one that none scores better than gets the call. */
  lemma BestOfRanking(req: ScoringRequest, sig: Signals, ms: seq<ModelRecord>) returns (m: ModelRecord)
    requires Ranked(req, sig, ms) != []
    ensures m in Filter(ms, IsEligible(req)) && Ranked(req, sig, ms)[0] == ScoreOne(req, sig, m)
    ensures forall x :: x in Filter(ms, IsEligible(req)) ==> NoneBetter(req, sig, m, x)
  {
    hide StableSort, Filter, ScoreOne, SameByKey, Scored;
    var r, u, e := Ranked(req, sig, ms), Unranked(req, sig, ms), Filter(ms, IsEligible(req));
    RankedIsStableDescending(req, sig, ms, r);
    assert r[0] in multiset(u);
    var i :| 0 <= i < |u| && u[i] == r[0];
    m := e[i];
    forall x | x in e ensures NoneBetter(req, sig, m, x) {
      var j :| 0 <= j < |e| && e[j] == x;
      assert u[j] in multiset(r);
      forall c, d | Scored(req, sig, m, c) && Scored(req, sig, x, d) ensures c.total >= d.total {
        ScoredIff(req, sig, m, c);
        ScoredIff(req, sig, x, d);
        assert c == r[0] && d == u[j];
      }
    }
  }

  lemma EmptyRanking(req: ScoringRequest, sig: Signals, ms: seq<ModelRecord>)
    ensures Ranked(req, sig, ms) == [] <==> Filter(ms, IsEligible(req)) == []
  {
    hide StableSort, Filter, ScoreOne, SameByKey;
    RankedIsStableDescending(req, sig, ms, Ranked(req, sig, ms));
    assert |multiset(Ranked(req, sig, ms))| == |multiset(Unranked(req, sig, ms))|;
  }

  /** No model is found if and only if there is no candidate. */
  lemma NoModelIff(req: Request, p: TenantPolicy, rollouts: seq<RolloutConfig>, models: seq<ModelRecord>,
                   depth: string -> int, clock: Clock, call: Call,
                   bs0: Breakers, hs0: Histories, bs: Breakers, hs: Histories, r: Response)
    requires Served(req, p, rollouts, models, depth, clock, call, bs0, hs0, bs, hs, r)
    ensures r.NoAvailableModels? <==> forall m :: m in models ==> !Candidate(req, p, models, clock, bs0, m)
  {
    hide Ranked, Filter, ScoringOf, Candidate, AfterRoute, Told, SignalsOf;
    var e := Filter(Filter(models, Admits(bs0, clock.ask)), IsEligible(ScoringOf(req, p, rollouts)));
    EmptyRanking(ScoringOf(req, p, rollouts), SignalsOf(hs0, depth), Filter(models, Admits(bs0, clock.ask)));
    forall m ensures Candidate(req, p, models, clock, bs0, m) <==> m in e {
      CandidateIff(req, p, rollouts, models, clock, bs0, m);
    }
    if e != [] {
      assert e[0] in e;
      CandidateIsModel(req, p, models, clock, bs0, e[0]);
    }
  }

  lemma CandidateIsModel(req: Request, p: TenantPolicy, models: seq<ModelRecord>, clock: Clock, bs: Breakers,
                         m: ModelRecord)
    requires Candidate(req, p, models, clock, bs, m)
    ensures m in models
  {
  }

  /** Any other request goes to a candidate that none scores better than, and exactly that one hears of it. */
  lemma ServedMeans(req: Request, p: TenantPolicy, rollouts: seq<RolloutConfig>, models: seq<ModelRecord>,
                    depth: string -> int, clock: Clock, call: Call,
                    bs0: Breakers, hs0: Histories, bs: Breakers, hs: Histories, r: Response)
    returns (m: ModelRecord, s: ScoringRequest)
    requires Served(req, p, rollouts, models, depth, clock, call, bs0, hs0, bs, hs, r) && !r.NoAvailableModels?
    ensures Candidate(req, p, models, clock, bs0, m) && ScoredBy(req, p, rollouts, s)
    ensures forall x :: Candidate(req, p, models, clock, bs0, x) ==> NoneBetter(s, SignalsOf(hs0, depth), m, x)
    ensures GoesTo(rollouts, models, call, m, r)
    ensures Reported(models, clock, call, m, bs0, hs0, bs, hs)
  {
    hide Ranked, Filter, Candidate, NoneBetter, SignalsOf, AfterRoute, Told, Reply, WeightsFrom, TotalLength;
    hide GoesTo, Reported, BreakerOf;
    s := ScoringOf(req, p, rollouts);
    var sig, ms := SignalsOf(hs0, depth), Filter(models, Admits(bs0, clock.ask));
    EmptyReply(rollouts, models, call, Ranked(s, sig, ms), r);
    m := BestOfRanking(s, sig, ms);
    ScoreKeepsRecord(s, sig, m);
    forall x ensures Candidate(req, p, models, clock, bs0, x) <==> x in Filter(ms, IsEligible(s)) {
      CandidateIff(req, p, rollouts, models, clock, bs0, x);
    }
    CandidateIsModel(req, p, models, clock, bs0, m);
    GoesToBest(rollouts, models, call, Ranked(s, sig, ms), m, r);
    BestIsTold(models, clock, call, Ranked(s, sig, ms), m, bs0, hs0, bs, hs);
  }

  lemma EmptyReply(rollouts: seq<RolloutConfig>, models: seq<ModelRecord>, call: Call, ranked: seq<CandidateScore>,
                   r: Response)
    requires r == Reply(ranked, call, WeightsFrom(rollouts), models)
    ensures r.NoAvailableModels? <==> ranked == []
    ensures !r.RateLimited?
  {
    hide WeightsFrom, Price, Canary;
  }

  lemma ScoreKeepsRecord(req: ScoringRequest, sig: Signals, m: ModelRecord)
    ensures var c := ScoreOne(req, sig, m); c.modelId == m.modelId && c.executorAddr == m.executorAddr
  {
    hide Blend;
  }

  lemma GoesToBest(rollouts: seq<RolloutConfig>, models: seq<ModelRecord>, call: Call, ranked: seq<CandidateScore>,
                   m: ModelRecord, r: Response)
    requires r == Reply(ranked, call, WeightsFrom(rollouts), models) && m in models
    requires ranked != [] && ranked[0].modelId == m.modelId && ranked[0].executorAddr == m.executorAddr
    ensures GoesTo(rollouts, models, call, m, r)
  {
    hide WeightsFrom, Canary, Rolling, Price, FirstAt;
    CanaryIsRolling(rollouts, m.modelId);
    var k := PriceOfFirst(models, m.modelId);
  }

  lemma BestIsTold(models: seq<ModelRecord>, clock: Clock, call: Call, ranked: seq<CandidateScore>, m: ModelRecord,
                   bs0: Breakers, hs0: Histories, bs: Breakers, hs: Histories)
    requires ranked != [] && ranked[0].modelId == m.modelId && hs == Told(hs0, ranked, call)
    requires forall id: string ::
               BreakerOf(bs, id) == AfterRoute(bs0, models, clock.ask, id, ResultOf(ranked, call), clock.done)
    ensures Reported(models, clock, call, m, bs0, hs0, bs, hs)
  {
    hide CB.Step, BreakerOf;
  }
}
