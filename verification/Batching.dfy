/** The batcher's latency histogram and the wait window it adapts. */
module Batching {
  import opened Percentile

  /** p exceeds x when more than 1% of the latest `cap` samples do. */
  ghost predicate IsPercentile(p: real, history: seq<real>, cap: nat) {
    var recent := if |history| < cap then history else history[|history| - cap..];
    forall x: real :: x >= 0.0 ==> (p > x <==> 100 * CountAbove(recent, x) > |recent|)
  }

  lemma PercentileInNumbers(history: seq<real>, cap: nat)
    ensures IsPercentile(P99(Window(history, cap)), history, cap)
  {
    hide P99, CountAbove;
    assert history[0..] == history;
    forall x: real | x >= 0.0
      ensures P99(Window(history, cap)) > x <==> 100 * CountAbove(Window(history, cap), x) > |Window(history, cap)|
    {
      P99Exceeds(Window(history, cap), x);
    }
  }

  class LatencyHist {
    var samples: array<real>
    var head: nat
    const cap: nat
    ghost var history: seq<real>

    ghost predicate Valid()
      reads this, samples
    {
      && cap > 0
      && samples.Length == cap
      && head == |history|
      && samples[..] == Ring(history, cap, 0.0)
    }

    constructor (cap: nat)
      requires cap > 0
      ensures Valid() && fresh(samples) && this.cap == cap && history == []
    {
      this.cap := cap;
      samples := new real[cap](_ => 0.0);
      head := 0;
      history := [];
    }

    method Record(ms: real)
      requires Valid()
      modifies this, samples
      ensures Valid() && samples == old(samples)
      ensures history == old(history) + [ms]
    {
      samples[head % cap] := ms;
      head := head + 1;
      history := history + [ms];
      assert history[..|history| - 1] == old(history);
    }

    /** However the ring has wrapped, the percentile is that of the latest `cap` samples. */
    method CurrentP99() returns (p: real)
      requires Valid()
      ensures p == P99(Window(history, cap))
      ensures IsPercentile(p, history, cap)
    {
      PercentileInNumbers(history, cap);
      hide IsPercentile;
      var n := head;
      if n > cap {
        n := cap;
      }
      p := SortedCopyP99(samples[..n]);
      assert samples[..cap] == samples[..];
      if head > cap {
        RingFull(history, cap, 0.0);
        var w, k := Window(history, cap), cap - head % cap;
        P99OfRotation(w[k..], w[..k]);
        assert w == w[..k] + w[k..];
      } else {
        RingFilling(history, cap, 0.0);
        assert samples[..n] == Ring(history, cap, 0.0)[..n];
      }
    }
  }

  datatype Config = Config(maxBatchSize: int, maxWaitMs: int, minWaitMs: int, p99SloMs: real)

  const DEFAULT_CONFIG := Config(16, 30, 5, 500.0)

  /** Go's integer division by two rounds toward zero. */
  function Half(x: int): int {
    if x >= 0 then x / 2 else -((-x) / 2)
  }

  function Wait(cfg: Config, depth: int, p99: real): int {
    if depth > 20 || p99 > cfg.p99SloMs * 1.5 then cfg.minWaitMs
    else if depth > 5 then Half(cfg.maxWaitMs)
    else cfg.maxWaitMs
  }

  method AdaptiveWait(cfg: Config, depth: int, latency: LatencyHist) returns (ms: int)
    requires latency.Valid()
    ensures ms == Wait(cfg, depth, P99(Window(latency.history, latency.cap)))
  {
    var p99 := latency.CurrentP99();
    if depth > 20 || p99 > cfg.p99SloMs * 1.5 {
      return cfg.minWaitMs;
    }
    if depth > 5 {
      return Half(cfg.maxWaitMs);
    }
    return cfg.maxWaitMs;
  }

  /** The window tightens exactly when the queue is deep or more than 1% of the recent batches ran over one
      and a half times the objective. */
  lemma TightensIff(cfg: Config, depth: int, recent: seq<real>)
    requires cfg.minWaitMs < Half(cfg.maxWaitMs) && cfg.minWaitMs < cfg.maxWaitMs
    requires cfg.p99SloMs >= 0.0
    ensures Wait(cfg, depth, P99(recent)) == cfg.minWaitMs
       <==> depth > 20 || 100 * CountAbove(recent, cfg.p99SloMs * 1.5) > |recent|
  {
    P99Exceeds(recent, cfg.p99SloMs * 1.5);
  }

  /** With the default settings the wait is 5, 15 or 30 milliseconds. */
  lemma DefaultWait(depth: int, recent: seq<real>)
    ensures Wait(DEFAULT_CONFIG, depth, P99(recent))
         == if depth > 20 || 100 * CountAbove(recent, 750.0) > |recent| then 5 else if depth > 5 then 15 else 30
  {
    P99Exceeds(recent, 750.0);
  }
}
