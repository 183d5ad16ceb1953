/** What a caller may rely on in the ranking: which changes to a model can never make it worse off. */
module ScoreLaws {
  import opened Base
  import opened Sorting
  import opened Scoring

  function TotalOf(req: ScoringRequest, sig: Signals, m: ModelRecord): real {
    ScoreOne(req, sig, m).total
  }

  // ---------- Positions in the ranking ----------

  /** Filtering keeps what it keeps in order. */
  lemma KeptInOrder<T>(s: seq<T>, p: T -> bool, i: nat, j: nat) returns (a: nat, b: nat)
    requires i < j < |s| && p(s[i]) && p(s[j])
    ensures a < b < |Filter(s, p)| && Filter(s, p)[a] == s[i] && Filter(s, p)[b] == s[j]
  {
    hide Filter;
    var u, v := Filter(s[..j], p), Filter(s[j..], p);
    assert s == s[..j] + s[j..];
    FilterConcat(s[..j], s[j..], p);
    assert s[..j][i] in u && s[j..][0] in v;
    var c: nat :| c < |v| && v[c] == s[j];
    a :| 0 <= a < |u| && u[a] == s[i];
    b := |u| + c;
  }

  lemma {:induction false} KeptFrom<T>(s: seq<T>, p: T -> bool, a: nat, b: nat) returns (i: nat, j: nat)
    requires a < b < |Filter(s, p)|
    ensures i < j < |s| && s[i] == Filter(s, p)[a] && s[j] == Filter(s, p)[b]
    decreases |s|
  {
    var n := |s| - 1;
    var init := s[..n];
    if b < |Filter(init, p)| {
      i, j := KeptFrom(init, p, a, b);
    } else {
      assert Filter(init, p)[a] in init;
      i :| 0 <= i < n && init[i] == Filter(init, p)[a];
      j := n;
    }
  }

  /** The better of two candidates comes first, and of two equally good ones the one that came first. */
  lemma BetterComesFirst(req: ScoringRequest, sig: Signals, ms: seq<ModelRecord>, i: nat, j: nat)
    returns (p: nat, q: nat)
    requires i < |ms| && j < |ms| && Admissible(req, ms[i]) && Admissible(req, ms[j])
    requires TotalOf(req, sig, ms[i]) > TotalOf(req, sig, ms[j])
          || (TotalOf(req, sig, ms[i]) == TotalOf(req, sig, ms[j]) && i < j)
    ensures var r := Ranked(req, sig, ms);
            p < q < |r| && r[p] == ScoreOne(req, sig, ms[i]) && r[q] == ScoreOne(req, sig, ms[j])
  {
    hide ScoreOne, StableSort, Filter;
    var r, u := Ranked(req, sig, ms), Unranked(req, sig, ms);
    var c, d := ScoreOne(req, sig, ms[i]), ScoreOne(req, sig, ms[j]);
    SortSorts(u, Rank);
    var e := Filter(ms, IsEligible(req));
    if c.total == d.total {
      var a, b := KeptInOrder(ms, IsEligible(req), i, j);
      var key := SameKey(Rank, Rank(c));
      assert u[a] == c && u[b] == d;
      var x, y := KeptInOrder(u, key, a, b);
      SortIsStable(u, Rank, Rank(c));
      p, q := KeptFrom(r, key, x, y);
    } else {
      assert ms[i] in e && ms[j] in e;
      var a: nat :| a < |e| && e[a] == ms[i];
      var b: nat :| b < |e| && e[b] == ms[j];
      assert u[a] == c && u[b] == d && c in multiset(u) && d in multiset(u);
      assert c in r && d in r by {
        assert c in multiset(r) && d in multiset(r);
      }
      p :| p < |r| && r[p] == c;
      q :| q < |r| && r[q] == d;
      InOrderOfRank(r, Rank, q, p);
    }
  }

  lemma InOrderOfRank<T>(r: seq<T>, key: T -> real, i: nat, j: nat)
    requires Sorted(r, key) && i < |r| && j < |r|
    ensures key(r[i]) > key(r[j]) ==> j < i
  {
  }

  // ---------- Improvements ----------

  /** The same rollout, and not a negative one. */
  predicate SameRollout(req: ScoringRequest, a: ModelRecord, b: ModelRecord) {
    RolloutOf(req.rolloutWeights, a.modelId) == RolloutOf(req.rolloutWeights, b.modelId) >= 0.0
  }

  /** As good in every dimension. */
  predicate NoWorse(c: CandidateScore, d: CandidateScore) {
    && c.latency >= d.latency && c.cost >= d.cost && c.health >= d.health && c.queue >= d.queue
    && c.policy >= d.policy
  }

  lemma NoWorseInAll(req: ScoringRequest, sig: Signals, a: ModelRecord, b: ModelRecord)
    requires SameRollout(req, a, b) && NoWorse(ScoreOne(req, sig, a), ScoreOne(req, sig, b))
    ensures TotalOf(req, sig, a) >= TotalOf(req, sig, b)
  {
    var c, d := ScoreOne(req, sig, a), ScoreOne(req, sig, b);
    hide LatencyScore, CostScore, HealthScore, QueueScore, PolicyScore, RolloutOf, Reason, Blend, Weighted;
    BlendIsWeighted(req, sig, a);
    BlendIsWeighted(req, sig, b);
    WeightedGrows(req.tenantMode, c, d);
    Scales(Blend(req, sig, a), Blend(req, sig, b), RolloutOf(req.rolloutWeights, a.modelId));
  }

  lemma WeightedGrows(mode: string, c: CandidateScore, d: CandidateScore)
    requires NoWorse(c, d)
    ensures Weighted(mode, c) >= Weighted(mode, d)
  {
  }

  lemma Scales(a: real, b: real, k: real)
    requires a >= b && k >= 0.0
    ensures a * k >= b * k
  {
  }

  function Size(tier: string): nat {
    if tier == "small" then 0 else if tier == "medium" then 1 else 2
  }

  /** Models alike in latency and context. */
  predicate Alike(a: ModelRecord, b: ModelRecord) {
    a.avgLatencyMs == b.avgLatencyMs && a.maxTokens == b.maxTokens
  }

  predicate SameSignals(sig: Signals, a: ModelRecord, b: ModelRecord) {
    sig.errorRate(a.modelId) == sig.errorRate(b.modelId) && sig.depth(a.modelId) == sig.depth(b.modelId)
  }

  /** With a low budget the smaller of two models alike in everything else is never worse off. */
  lemma SmallerIsNoWorse(req: ScoringRequest, sig: Signals, a: ModelRecord, b: ModelRecord)
    requires req.costBudget == "low" && Alike(a, b) && SameSignals(sig, a, b) && SameRollout(req, a, b)
    requires Size(a.tier) <= Size(b.tier)
    ensures TotalOf(req, sig, a) >= TotalOf(req, sig, b)
  {
    NoWorseInAll(req, sig, a, b);
  }

  /** And strictly better off when it is strictly smaller and its rollout is not zero. */
  lemma SmallerIsBetter(req: ScoringRequest, sig: Signals, a: ModelRecord, b: ModelRecord)
    requires req.costBudget == "low" && Alike(a, b) && SameSignals(sig, a, b) && SameRollout(req, a, b)
    requires Size(a.tier) < Size(b.tier)
    ensures TotalOf(req, sig, a) > TotalOf(req, sig, b)
  {
    hide ScoreOne, NoWorse, TotalOf, RolloutOf, Size;
    SmallerIsCheaper(req, sig, a, b);
    RolloutNotZero(req, a);
    BetterInAll(req, sig, a, b);
  }

  /** So, wherever the two stand among the candidates, the smaller one is tried first. */
  lemma SmallerComesFirst(req: ScoringRequest, sig: Signals, ms: seq<ModelRecord>, i: nat, j: nat)
    returns (p: nat, q: nat)
    requires i < |ms| && j < |ms| && Admissible(req, ms[i]) && Admissible(req, ms[j])
    requires req.costBudget == "low" && Alike(ms[i], ms[j]) && SameSignals(sig, ms[i], ms[j])
    requires SameRollout(req, ms[i], ms[j]) && Size(ms[i].tier) < Size(ms[j].tier)
    ensures var r := Ranked(req, sig, ms);
            p < q < |r| && r[p] == ScoreOne(req, sig, ms[i]) && r[q] == ScoreOne(req, sig, ms[j])
  {
    hide *;
    SmallerIsBetter(req, sig, ms[i], ms[j]);
    p, q := BetterComesFirst(req, sig, ms, i, j);
  }

  lemma BetterInAll(req: ScoringRequest, sig: Signals, a: ModelRecord, b: ModelRecord)
    requires SameRollout(req, a, b) && RolloutOf(req.rolloutWeights, a.modelId) != 0.0
    requires NoWorse(ScoreOne(req, sig, a), ScoreOne(req, sig, b))
    requires ScoreOne(req, sig, a).cost > ScoreOne(req, sig, b).cost
    ensures TotalOf(req, sig, a) > TotalOf(req, sig, b)
  {
    var c, d := ScoreOne(req, sig, a), ScoreOne(req, sig, b);
    hide LatencyScore, CostScore, HealthScore, QueueScore, PolicyScore, RolloutOf, Reason, Blend, Weighted;
    BlendIsWeighted(req, sig, a);
    BlendIsWeighted(req, sig, b);
    WeightedGrowsStrictly(req.tenantMode, c, d);
    ScalesStrictly(Blend(req, sig, a), Blend(req, sig, b), RolloutOf(req.rolloutWeights, a.modelId));
  }

  lemma SmallerIsCheaper(req: ScoringRequest, sig: Signals, a: ModelRecord, b: ModelRecord)
    requires req.costBudget == "low" && Alike(a, b) && SameSignals(sig, a, b) && Size(a.tier) < Size(b.tier)
    ensures ScoreOne(req, sig, a).cost > ScoreOne(req, sig, b).cost
    ensures NoWorse(ScoreOne(req, sig, a), ScoreOne(req, sig, b))
  {
    hide Blend, RolloutOf, Reason;
  }

  lemma WeightedGrowsStrictly(mode: string, c: CandidateScore, d: CandidateScore)
    requires NoWorse(c, d) && c.cost > d.cost
    ensures Weighted(mode, c) > Weighted(mode, d)
  {
  }

  lemma RolloutNotZero(req: ScoringRequest, m: ModelRecord)
    ensures RolloutOf(req.rolloutWeights, m.modelId) != 0.0
  {
  }

  lemma ScalesStrictly(a: real, b: real, k: real)
    requires a > b && k > 0.0
    ensures a * k > b * k
  {
  }

  /** A lower error rate never makes a model worse off than its double. */
  lemma HealthierIsNoWorse(req: ScoringRequest, sig: Signals, a: ModelRecord, b: ModelRecord)
    requires Alike(a, b) && a.tier == b.tier && a.costPer1k == b.costPer1k && SameRollout(req, a, b)
    requires sig.depth(a.modelId) == sig.depth(b.modelId) && sig.errorRate(a.modelId) <= sig.errorRate(b.modelId)
    ensures TotalOf(req, sig, a) >= TotalOf(req, sig, b)
  {
    NoWorseInAll(req, sig, a, b);
  }

  /** Nor does a shorter queue. */
  lemma ShorterQueueIsNoWorse(req: ScoringRequest, sig: Signals, a: ModelRecord, b: ModelRecord)
    requires Alike(a, b) && a.tier == b.tier && a.costPer1k == b.costPer1k && SameRollout(req, a, b)
    requires sig.errorRate(a.modelId) == sig.errorRate(b.modelId) && sig.depth(a.modelId) <= sig.depth(b.modelId)
    ensures TotalOf(req, sig, a) >= TotalOf(req, sig, b)
  {
    NoWorseInAll(req, sig, a, b);
  }

  /** Nor does a lower price. */
  lemma CheaperIsNoWorse(req: ScoringRequest, sig: Signals, a: ModelRecord, b: ModelRecord)
    requires Alike(a, b) && a.tier == b.tier && SameSignals(sig, a, b) && SameRollout(req, a, b)
    requires a.costPer1k <= b.costPer1k
    ensures TotalOf(req, sig, a) >= TotalOf(req, sig, b)
  {
    NoWorseInAll(req, sig, a, b);
  }

  /** Outside all rollouts a total lies above 0 and never above 1. */
  lemma TotalWithinOne(req: ScoringRequest, sig: Signals, m: ModelRecord)
    requires m.modelId !in req.rolloutWeights && m.costPer1k >= 0.0 && sig.errorRate(m.modelId) >= 0.0
    ensures 0.0 < TotalOf(req, sig, m) <= 1.0
  {
    var c := ScoreOne(req, sig, m);
    BlendIsWeighted(req, sig, m);
    BlendPositive(req, sig, m);
    assert c.latency <= 1.0 && c.cost <= 1.0 && c.health <= 1.0 && c.queue <= 1.0 && c.policy <= 1.0;
    hide LatencyScore, CostScore, HealthScore, QueueScore, PolicyScore, Reason, Blend;
    assert Weighted(req.tenantMode, c) <= 1.0;
  }
}
