/** Scoring and ranking of candidate models. */
module Scoring {
  import opened Base
  import opened Sorting

  datatype ModelRecord = ModelRecord(modelId: string, version: string, tier: string, tasks: seq<string>,
    costPer1k: real, avgLatencyMs: int, maxTokens: int, executorAddr: string, enabled: bool)

  datatype ScoringRequest = ScoringRequest(task: string, costBudget: string, latencyTargetMs: int, promptLen: int,
    tenantMode: string, allowedModels: map<string, bool>, rolloutWeights: map<string, real>)

  datatype CandidateScore = CandidateScore(modelId: string, version: string, executorAddr: string, total: real,
    latency: real, cost: real, health: real, queue: real, policy: real, rollout: real, reason: string)

  /** What the health tracker and the queues report while one request is scored. */
  datatype Signals = Signals(errorRate: string -> real, depth: string -> int)

  datatype Weights = Weights(latency: real, cost: real, health: real, queue: real, policy: real)

  function ModeWeights(mode: string): (w: Weights)
    ensures w.latency >= 0.0 && w.cost >= 0.0 && w.health >= 0.0 && w.queue >= 0.0 && w.policy > 0.0
  {
    if mode == "latency_optimized" then Weights(0.50, 0.10, 0.25, 0.10, 0.05)
    else if mode == "cost_optimized" then Weights(0.10, 0.50, 0.20, 0.10, 0.10)
    else Weights(0.25, 0.25, 0.25, 0.15, 0.10)
  }

  predicate Eligible(req: ScoringRequest, m: ModelRecord) {
    && m.enabled
    && req.task in m.tasks
    && (req.allowedModels == map[] || (m.modelId in req.allowedModels && req.allowedModels[m.modelId]))
  }

  function Max(a: real, b: real): real {
    if a < b then b else a
  }

  /** int32(x) keeps the low 32 bits. */
  function Int32(x: int): int { Wrap(x, 0x8000_0000) }

  function LatencyScore(req: ScoringRequest, m: ModelRecord): (r: real)
    ensures r >= 0.0
  {
    if req.latencyTargetMs > 0 && Int32(m.avgLatencyMs) > req.latencyTargetMs then 0.0
    else if m.tier == "small" then 1.0
    else if m.tier == "medium" then 0.6
    else 0.3
  }

  function CostScore(req: ScoringRequest, m: ModelRecord): (r: real)
    ensures r >= 0.0
  {
    if req.costBudget == "low" then
      (if m.tier == "small" then 1.0 else if m.tier == "medium" then 0.3 else 0.0)
    else if req.costBudget == "high" then
      (if m.tier == "large" then 1.0 else if m.tier == "medium" then 0.7 else 0.3)
    else Max(0.0, 1.0 - m.costPer1k / 0.02)
  }

  function HealthScore(sig: Signals, m: ModelRecord): (r: real)
    ensures r >= 0.0
  {
    Max(0.0, 1.0 - sig.errorRate(m.modelId) * 5.0)
  }

  function QueueScore(sig: Signals, m: ModelRecord): (r: real)
    ensures r >= 0.0
  {
    var depth := sig.depth(m.modelId);
    if depth <= 0 then 1.0 else Max(0.0, 1.0 - depth as real / 50.0)
  }

  function PolicyScore(req: ScoringRequest, m: ModelRecord): (r: real)
    ensures r > 0.0
  {
    if req.promptLen > m.maxTokens * 3 * 4 then 0.2 else 1.0
  }

  /** A weight that is missing or zero counts as 1. */
  function RolloutOf(weights: map<string, real>, modelId: string): real {
    if modelId in weights && weights[modelId] != 0.0 then weights[modelId] else 1.0
  }

  function Reason(req: ScoringRequest, m: ModelRecord): string {
    if req.costBudget == "low" && m.tier == "small" then "cost-budget=low→small"
    else if req.costBudget == "high" && m.tier == "large" then "cost-budget=high→large"
    else if req.latencyTargetMs > 0 && Int32(m.avgLatencyMs) <= req.latencyTargetMs then "latency-target-met"
    else "balanced-score"
  }

  function Blend(req: ScoringRequest, sig: Signals, m: ModelRecord): real {
    var w := ModeWeights(req.tenantMode);
    w.latency * LatencyScore(req, m) + w.cost * CostScore(req, m) + w.health * HealthScore(sig, m)
      + w.queue * QueueScore(sig, m) + w.policy * PolicyScore(req, m)
  }

  function ScoreOne(req: ScoringRequest, sig: Signals, m: ModelRecord): CandidateScore {
    var rollout := RolloutOf(req.rolloutWeights, m.modelId);
    CandidateScore(m.modelId, m.version, m.executorAddr, Blend(req, sig, m) * rollout,
                   LatencyScore(req, m), CostScore(req, m), HealthScore(sig, m), QueueScore(sig, m),
                   PolicyScore(req, m), rollout, Reason(req, m))
  }

  /** Best first: ascending in the negated total. */
  function Rank(c: CandidateScore): real { -c.total }

  function IsEligible(req: ScoringRequest): ModelRecord -> bool {
    m => Eligible(req, m)
  }

  function ScoreAll(req: ScoringRequest, sig: Signals, ms: seq<ModelRecord>): (r: seq<CandidateScore>)
    ensures |r| == |ms|
  {
    seq(|ms|, i requires 0 <= i < |ms| => ScoreOne(req, sig, ms[i]))
  }

  function Unranked(req: ScoringRequest, sig: Signals, ms: seq<ModelRecord>): seq<CandidateScore> {
    ScoreAll(req, sig, Filter(ms, IsEligible(req)))
  }

  function Ranked(req: ScoringRequest, sig: Signals, ms: seq<ModelRecord>): seq<CandidateScore> {
    StableSort(Unranked(req, sig, ms), Rank)
  }

  // ---------- The scores in numbers ----------

  /** The hard filters. */
  ghost predicate Admissible(req: ScoringRequest, m: ModelRecord) {
    && m.enabled
    && (exists i :: 0 <= i < |m.tasks| && m.tasks[i] == req.task)
    && (req.allowedModels == map[] || (m.modelId in req.allowedModels && req.allowedModels[m.modelId]))
  }

  /** w is v's low 32 bits, as a signed number. */
  predicate IsInt32(w: int, v: int) {
    -0x8000_0000 <= w < 0x8000_0000 && (w - v) % 0x1_0000_0000 == 0
  }

  /** c is the score of m: five dimensions between 0 and 1, their weighted sum, and the rollout. */
  ghost predicate Scored(req: ScoringRequest, sig: Signals, m: ModelRecord, c: CandidateScore) {
    && c.modelId == m.modelId && c.version == m.version && c.executorAddr == m.executorAddr
    && (forall w :: IsInt32(w, m.avgLatencyMs) ==>
          c.latency == if req.latencyTargetMs > 0 && w > req.latencyTargetMs then 0.0
                       else if m.tier == "small" then 1.0 else if m.tier == "medium" then 0.6 else 0.3)
    && c.cost == (if req.costBudget == "low" then
                    (if m.tier == "small" then 1.0 else if m.tier == "medium" then 0.3 else 0.0)
                  else if req.costBudget == "high" then
                    (if m.tier == "large" then 1.0 else if m.tier == "medium" then 0.7 else 0.3)
                  else if m.costPer1k >= 0.02 then 0.0 else 1.0 - m.costPer1k * 50.0)
    && var e, d := sig.errorRate(m.modelId), sig.depth(m.modelId);
    && c.health == (if e >= 0.2 then 0.0 else 1.0 - 5.0 * e)
    && c.queue == (if d <= 0 then 1.0 else if d >= 50 then 0.0 else 1.0 - d as real * 0.02)
    && c.policy == (if req.promptLen > 12 * m.maxTokens then 0.2 else 1.0)
    && c.rollout == (if m.modelId in req.rolloutWeights && req.rolloutWeights[m.modelId] != 0.0
                     then req.rolloutWeights[m.modelId] else 1.0)
    && c.total == c.rollout * Weighted(req.tenantMode, c)
    && (forall w :: IsInt32(w, m.avgLatencyMs) ==>
          c.reason == if req.costBudget == "low" && m.tier == "small" then "cost-budget=low→small"
                      else if req.costBudget == "high" && m.tier == "large" then "cost-budget=high→large"
                      else if 0 < req.latencyTargetMs && w <= req.latencyTargetMs then "latency-target-met"
                      else "balanced-score")
  }

  function Weighted(mode: string, c: CandidateScore): real {
    if mode == "latency_optimized" then
      0.50 * c.latency + 0.10 * c.cost + 0.25 * c.health + 0.10 * c.queue + 0.05 * c.policy
    else if mode == "cost_optimized" then
      0.10 * c.latency + 0.50 * c.cost + 0.20 * c.health + 0.10 * c.queue + 0.10 * c.policy
    else
      0.25 * c.latency + 0.25 * c.cost + 0.25 * c.health + 0.15 * c.queue + 0.10 * c.policy
  }

  lemma Int32ByNumber(v: int)
    ensures forall w :: IsInt32(w, v) <==> w == Int32(v)
  {
    forall w ensures IsInt32(w, v) <==> w == Int32(v) {
      OneInt32(w, v);
    }
  }

  lemma OneInt32(w: int, v: int)
    ensures IsInt32(w, v) <==> w == Int32(v)
  {
    var u := Int32(v);
    assert (u - v) % 0x1_0000_0000 == 0;
    if IsInt32(w, v) {
      assert (w - u) % 0x1_0000_0000 == 0;
    }
  }

  lemma ScoredIff(req: ScoringRequest, sig: Signals, m: ModelRecord, c: CandidateScore)
    ensures c == ScoreOne(req, sig, m) <==> Scored(req, sig, m, c)
  {
    hide IsInt32, Int32, Blend, Weighted, LatencyScore, CostScore, HealthScore, QueueScore, PolicyScore, Reason;
    LatencyInNumbers(req, m);
    DimensionsInNumbers(req, sig, m);
    if Scored(req, sig, m, c) {
      assert IsInt32(Int32(m.avgLatencyMs), m.avgLatencyMs) by { Int32ByNumber(m.avgLatencyMs); }
      SameDimensions(req.tenantMode, c, ScoreOne(req, sig, m));
    }
    BlendIsWeighted(req, sig, m);
    CommuteRollout(Blend(req, sig, m), RolloutOf(req.rolloutWeights, m.modelId));
  }

  /** What the latency decides holds of the one 32-bit number that it is stored as. */
  lemma LatencyInNumbers(req: ScoringRequest, m: ModelRecord)
    ensures forall w :: IsInt32(w, m.avgLatencyMs) ==>
              && LatencyScore(req, m) == (if req.latencyTargetMs > 0 && w > req.latencyTargetMs then 0.0
                                          else if m.tier == "small" then 1.0
                                          else if m.tier == "medium" then 0.6 else 0.3)
              && Reason(req, m) == (if req.costBudget == "low" && m.tier == "small" then "cost-budget=low→small"
                                    else if req.costBudget == "high" && m.tier == "large" then "cost-budget=high→large"
                                    else if 0 < req.latencyTargetMs && w <= req.latencyTargetMs
                                    then "latency-target-met" else "balanced-score")
  {
    hide IsInt32, Int32;
    Int32ByNumber(m.avgLatencyMs);
  }

  lemma DimensionsInNumbers(req: ScoringRequest, sig: Signals, m: ModelRecord)
    ensures CostScore(req, m) ==
            if req.costBudget == "low" then
              (if m.tier == "small" then 1.0 else if m.tier == "medium" then 0.3 else 0.0)
            else if req.costBudget == "high" then
              (if m.tier == "large" then 1.0 else if m.tier == "medium" then 0.7 else 0.3)
            else if m.costPer1k >= 0.02 then 0.0 else 1.0 - m.costPer1k * 50.0
    ensures var e := sig.errorRate(m.modelId); HealthScore(sig, m) == if e >= 0.2 then 0.0 else 1.0 - 5.0 * e
    ensures var d := sig.depth(m.modelId);
            QueueScore(sig, m) == if d <= 0 then 1.0 else if d >= 50 then 0.0 else 1.0 - d as real * 0.02
    ensures PolicyScore(req, m) == if req.promptLen > 12 * m.maxTokens then 0.2 else 1.0
  {
  }

  lemma SameDimensions(mode: string, c: CandidateScore, d: CandidateScore)
    requires c.latency == d.latency && c.cost == d.cost && c.health == d.health && c.queue == d.queue
    requires c.policy == d.policy
    ensures Weighted(mode, c) == Weighted(mode, d)
  {
  }

  lemma CommuteRollout(a: real, b: real)
    ensures a * b == b * a
  {
  }

  lemma BlendIsWeighted(req: ScoringRequest, sig: Signals, m: ModelRecord)
    ensures Blend(req, sig, m) == Weighted(req.tenantMode, ScoreOne(req, sig, m))
  {
    hide LatencyScore, CostScore, HealthScore, QueueScore, PolicyScore, RolloutOf, Reason;
  }

  /** The candidates that pass the hard filters, in their order. */
  ghost function Picked(req: ScoringRequest, ms: seq<ModelRecord>): seq<ModelRecord> {
    if ms == [] then []
    else Picked(req, ms[..|ms| - 1]) + if Admissible(req, ms[|ms| - 1]) then [ms[|ms| - 1]] else []
  }

  lemma {:induction false} PickedIsFilter(req: ScoringRequest, ms: seq<ModelRecord>)
    ensures Picked(req, ms) == Filter(ms, IsEligible(req))
  {
    if ms != [] {
      PickedIsFilter(req, ms[..|ms| - 1]);
    }
  }

  /** r holds the scores of exactly the candidates that pass, best first, and those with equal totals as they came. */
  ghost predicate IsRanking(req: ScoringRequest, sig: Signals, ms: seq<ModelRecord>, r: seq<CandidateScore>) {
    exists u: seq<CandidateScore> ::
      && |u| == |Picked(req, ms)|
      && (forall i :: 0 <= i < |u| ==> Scored(req, sig, Picked(req, ms)[i], u[i]))
      && (forall i, j :: 0 <= i < j < |r| ==> r[i].total >= r[j].total)
      && SameByKey(r, u, Rank)
  }

  lemma RankedIsRanking(req: ScoringRequest, sig: Signals, ms: seq<ModelRecord>, r: seq<CandidateScore>)
    ensures r == Ranked(req, sig, ms) <==> IsRanking(req, sig, ms, r)
  {
    hide Scored, ScoreOne, SameByKey, Picked, Filter, StableSort;
    PickedIsFilter(req, ms);
    var e, u := Picked(req, ms), Unranked(req, sig, ms);
    forall i | 0 <= i < |u| ensures Scored(req, sig, e[i], u[i]) {
      ScoredIff(req, sig, e[i], u[i]);
    }
    RankedIsStableDescending(req, sig, ms, r);
    if IsRanking(req, sig, ms, r) {
      var v: seq<CandidateScore> :| |v| == |e| && (forall i :: 0 <= i < |v| ==> Scored(req, sig, e[i], v[i]))
        && (forall i, j :: 0 <= i < j < |r| ==> r[i].total >= r[j].total) && SameByKey(r, v, Rank);
      forall i | 0 <= i < |v| ensures v[i] == u[i] {
        ScoredIff(req, sig, e[i], v[i]);
      }
      assert v == u;
    }
  }

  method Score(req: ScoringRequest, sig: Signals, candidates: seq<ModelRecord>) returns (results: seq<CandidateScore>)
    ensures results == Ranked(req, sig, candidates)
    ensures IsRanking(req, sig, candidates, results)
  {
    RankedIsRanking(req, sig, candidates, Ranked(req, sig, candidates));
    hide IsRanking, ScoreOne, Unranked, StableSort;
    results := [];
    NothingRanked(req, sig);
    assert candidates[..0] == [];
    for i := 0 to |candidates|
      invariant results == Unranked(req, sig, candidates[..i])
    {
      UnrankedLast(req, sig, candidates[..i], candidates[i]);
      assert candidates[..i + 1] == candidates[..i] + [candidates[i]];
      if Eligible(req, candidates[i]) {
        results := results + [ScoreOne(req, sig, candidates[i])];
      }
    }
    assert candidates[..|candidates|] == candidates;
    var a := new CandidateScore[|results|](i requires 0 <= i < |results| => results[i]);
    assert a[..] == results;
    InsertionSort(a, Rank);
    results := a[..];
  }

  lemma NothingRanked(req: ScoringRequest, sig: Signals)
    ensures Unranked(req, sig, []) == []
  {
  }

  lemma UnrankedLast(req: ScoringRequest, sig: Signals, ms: seq<ModelRecord>, m: ModelRecord)
    ensures Unranked(req, sig, ms + [m])
         == Unranked(req, sig, ms) + if Eligible(req, m) then [ScoreOne(req, sig, m)] else []
  {
    hide ScoreOne, ScoreAll, Filter;
    var e := Filter(ms, IsEligible(req));
    FilterLast(ms, m, IsEligible(req));
    ScoreAllLast(req, sig, e, m);
    assert e + [] == e;
  }

  // ---------- The ranking ----------

  /** The result holds exactly the eligible candidates' scores, best first, ties in the order they came. */
  lemma RankedIsStableDescending(req: ScoringRequest, sig: Signals, ms: seq<ModelRecord>, r: seq<CandidateScore>)
    ensures r == Ranked(req, sig, ms) <==>
      && (forall i, j :: 0 <= i < j < |r| ==> r[i].total >= r[j].total)
      && SameByKey(r, Unranked(req, sig, ms), Rank)
    ensures multiset(Ranked(req, sig, ms)) == multiset(Unranked(req, sig, ms))
  {
    StableSortIsTheOne(Unranked(req, sig, ms), r, Rank);
    SortSorts(Unranked(req, sig, ms), Rank);
    assert Sorted(r, Rank) <==> forall i, j :: 0 <= i < j < |r| ==> Rank(r[i]) <= Rank(r[j]);
  }

  function Keeps(ids: set<string>): ModelRecord -> bool {
    (m: ModelRecord) => m.modelId in ids
  }

  function KeepsScore(ids: set<string>): CandidateScore -> bool {
    (c: CandidateScore) => c.modelId in ids
  }

  lemma {:induction false} FilterTwice<T>(s: seq<T>, p: T -> bool, q: T -> bool)
    ensures Filter(Filter(s, p), q) == Filter(Filter(s, q), p)
  {
    if s != [] {
      var init, x := s[..|s| - 1], s[|s| - 1];
      FilterTwice(init, p, q);
      assert (Filter(init, p) + [x])[..|Filter(init, p)|] == Filter(init, p);
      assert (Filter(init, q) + [x])[..|Filter(init, q)|] == Filter(init, q);
    }
  }

  lemma ScoreKeepsId(req: ScoringRequest, sig: Signals, m: ModelRecord)
    ensures ScoreOne(req, sig, m).modelId == m.modelId
  {
  }

  lemma FilterLast<T>(s: seq<T>, x: T, p: T -> bool)
    ensures Filter(s + [x], p) == Filter(s, p) + if p(x) then [x] else []
  {
    assert (s + [x])[..|s|] == s;
  }

  lemma ScoreAllLast(req: ScoringRequest, sig: Signals, ms: seq<ModelRecord>, m: ModelRecord)
    ensures ScoreAll(req, sig, ms + [m]) == ScoreAll(req, sig, ms) + [ScoreOne(req, sig, m)]
  {
    hide ScoreOne;
  }

  lemma {:induction false} FilterScores(req: ScoringRequest, sig: Signals, ms: seq<ModelRecord>, ids: set<string>)
    ensures Filter(ScoreAll(req, sig, ms), KeepsScore(ids)) == ScoreAll(req, sig, Filter(ms, Keeps(ids)))
  {
    if ms != [] {
      hide ScoreOne, Filter, ScoreAll;
      var init, m := ms[..|ms| - 1], ms[|ms| - 1];
      assert ms == init + [m];
      FilterScores(req, sig, init, ids);
      ScoreKeepsId(req, sig, m);
      ScoreAllLast(req, sig, init, m);
      FilterLast(ScoreAll(req, sig, init), ScoreOne(req, sig, m), KeepsScore(ids));
      FilterLast(init, m, Keeps(ids));
      ScoreAllLast(req, sig, Filter(init, Keeps(ids)), m);
    }
  }

  /** Leaving models out before scoring is the same as ranking everything and striking them off: the order of
      the others never changes. */
  lemma LeavingOutCommutes(req: ScoringRequest, sig: Signals, ms: seq<ModelRecord>, ids: set<string>)
    ensures Ranked(req, sig, Filter(ms, Keeps(ids))) == Filter(Ranked(req, sig, ms), KeepsScore(ids))
  {
    FilterTwice(ms, IsEligible(req), Keeps(ids));
    FilterScores(req, sig, Filter(ms, IsEligible(req)), ids);
    FilterCommutesWithSort(Unranked(req, sig, ms), Rank, KeepsScore(ids));
  }

  // ---------- Rollout weights ----------

  datatype RolloutConfig = RolloutConfig(baseModelId: string, canaryModelId: string, canaryPct: real, enabled: bool)

  function WeightsFrom(cfgs: seq<RolloutConfig>): map<string, real> {
    if cfgs == [] then map[]
    else
      var before, c := WeightsFrom(cfgs[..|cfgs| - 1]), cfgs[|cfgs| - 1];
      if c.enabled then before[c.baseModelId := 1.0 - c.canaryPct][c.canaryModelId := c.canaryPct] else before
  }

  method RolloutWeights(cfgs: seq<RolloutConfig>) returns (weights: map<string, real>)
    ensures weights == WeightsFrom(cfgs)
    ensures forall id: string, i: nat :: DecidedBy(cfgs, id, i) ==>
              id in weights
              && weights[id] == if cfgs[i].canaryModelId == id then cfgs[i].canaryPct else 1.0 - cfgs[i].canaryPct
    ensures forall id: string :: id in weights ==> exists i :: 0 <= i < |cfgs| && Names(cfgs[i], id)
  {
    weights := map[];
    for i := 0 to |cfgs|
      invariant weights == WeightsFrom(cfgs[..i])
    {
      assert cfgs[..i + 1][..i] == cfgs[..i];
      if cfgs[i].enabled {
        weights := weights[cfgs[i].baseModelId := 1.0 - cfgs[i].canaryPct];
        weights := weights[cfgs[i].canaryModelId := cfgs[i].canaryPct];
      }
    }
    assert cfgs[..|cfgs|] == cfgs;
    forall id: string, i: nat | DecidedBy(cfgs, id, i)
      ensures id in weights
      ensures weights[id] == if cfgs[i].canaryModelId == id then cfgs[i].canaryPct else 1.0 - cfgs[i].canaryPct
    {
      LastRolloutDecides(cfgs, id, i);
    }
    forall id: string | id in weights
      ensures exists i :: 0 <= i < |cfgs| && Names(cfgs[i], id)
    {
      if forall j :: 0 <= j < |cfgs| ==> !Names(cfgs[j], id) {
        UnnamedHasNoWeight(cfgs, id);
      }
    }
  }

  predicate Names(c: RolloutConfig, id: string) {
    c.enabled && (c.baseModelId == id || c.canaryModelId == id)
  }

  /** Rollout i is the last enabled one that names the model. */
  ghost predicate DecidedBy(cfgs: seq<RolloutConfig>, id: string, i: nat) {
    i < |cfgs| && Names(cfgs[i], id) && forall j :: i < j < |cfgs| ==> !Names(cfgs[j], id)
  }

  /** A model named by several rollouts has its weight from the last enabled one, as the canary if that names it
      twice. */
  lemma {:induction false} LastRolloutDecides(cfgs: seq<RolloutConfig>, id: string, i: nat)
    requires DecidedBy(cfgs, id, i)
    ensures var w := WeightsFrom(cfgs);
            id in w && w[id] == if cfgs[i].canaryModelId == id then cfgs[i].canaryPct else 1.0 - cfgs[i].canaryPct
  {
    var n := |cfgs| - 1;
    if i < n {
      assert !Names(cfgs[n], id);
      LastRolloutDecides(cfgs[..n], id, i);
    }
  }

  lemma {:induction false} UnnamedHasNoWeight(cfgs: seq<RolloutConfig>, id: string)
    requires forall j :: 0 <= j < |cfgs| ==> !Names(cfgs[j], id)
    ensures id !in WeightsFrom(cfgs)
  {
    if cfgs != [] {
      assert !Names(cfgs[|cfgs| - 1], id);
      UnnamedHasNoWeight(cfgs[..|cfgs| - 1], id);
    }
  }

  lemma BlendPositive(req: ScoringRequest, sig: Signals, m: ModelRecord)
    ensures Blend(req, sig, m) > 0.0
  {
    hide LatencyScore, CostScore, HealthScore, QueueScore, PolicyScore, ModeWeights;
    var w := ModeWeights(req.tenantMode);
    NonNegative(w.latency, LatencyScore(req, m));
    NonNegative(w.cost, CostScore(req, m));
    NonNegative(w.health, HealthScore(sig, m));
    NonNegative(w.queue, QueueScore(sig, m));
    var p := PolicyScore(req, m);
    assert w.policy * p > 0.0;
  }

  lemma NonNegative(a: real, b: real)
    requires a >= 0.0 && b >= 0.0
    ensures a * b >= 0.0
  {
  }

  lemma ProductNotZero(a: real, b: real)
    requires a > 0.0 && b != 0.0
    ensures a * b != 0.0
  {
    assert b > 0.0 ==> a * b > 0.0;
    assert b < 0.0 ==> a * (-b) > 0.0;
  }

  /** The total is zero for no weight at all. */
  lemma TotalIsNeverZero(req: ScoringRequest, sig: Signals, m: ModelRecord)
    ensures ScoreOne(req, sig, m).total != 0.0
  {
    hide Blend;
    BlendPositive(req, sig, m);
    ProductNotZero(Blend(req, sig, m), RolloutOf(req.rolloutWeights, m.modelId));
  }

  /** A rollout weight of zero was meant to exclude a model.  It never does: the model scores like one outside
      every rollout. */
  lemma ZeroWeightIsNoWeight(req: ScoringRequest, sig: Signals, m: ModelRecord)
    requires m.modelId in req.rolloutWeights && req.rolloutWeights[m.modelId] == 0.0
    ensures var without := req.(rolloutWeights := req.rolloutWeights - {m.modelId});
            ScoreOne(req, sig, m) == ScoreOne(without, sig, m)
    ensures ScoreOne(req, sig, m).total > 0.0
  {
    BlendPositive(req, sig, m);
    BlendIgnoresRollouts(req, sig, m, req.rolloutWeights - {m.modelId});
  }

  lemma BlendIgnoresRollouts(req: ScoringRequest, sig: Signals, m: ModelRecord, weights: map<string, real>)
    ensures Blend(req.(rolloutWeights := weights), sig, m) == Blend(req, sig, m)
  {
    hide LatencyScore, CostScore, HealthScore, QueueScore, PolicyScore, ModeWeights;
    DimensionsIgnoreRollouts(req, m, weights);
  }

  lemma DimensionsIgnoreRollouts(req: ScoringRequest, m: ModelRecord, weights: map<string, real>)
    ensures LatencyScore(req.(rolloutWeights := weights), m) == LatencyScore(req, m)
    ensures CostScore(req.(rolloutWeights := weights), m) == CostScore(req, m)
    ensures PolicyScore(req.(rolloutWeights := weights), m) == PolicyScore(req, m)
  {
  }

  /** So a canary at 0% competes with full weight, and so does the base model of a canary at 100%. */
  lemma FinishedRolloutsCompete(cfgs: seq<RolloutConfig>, c: RolloutConfig)
    requires c.enabled && c.baseModelId != c.canaryModelId
    ensures var w := WeightsFrom(cfgs + [c]);
            && RolloutOf(w, c.canaryModelId) == (if c.canaryPct == 0.0 then 1.0 else c.canaryPct)
            && RolloutOf(w, c.baseModelId) == (if c.canaryPct == 1.0 then 1.0 else 1.0 - c.canaryPct)
  {
    assert (cfgs + [c])[..|cfgs|] == cfgs;
  }
}
