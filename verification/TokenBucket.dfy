/** The per-tenant token bucket limiter, and exactly which calls it lets through. */
module TokenBucket {

  datatype Call = Call(tenant: string, rate: int, burst: int, at: real)

  datatype Bucket = Bucket(tokens: real, maxBurst: real, rate: int, lastFill: real)

  function Min(a: real, b: real): real {
    if a < b then a else b
  }

  /** What flows in during some time at some rate. */
  function Gain(elapsed: real, rate: int): real {
    elapsed * rate as real
  }

  lemma GainInNoTime(rate: int)
    ensures Gain(0.0, rate) == 0.0
  {
  }

  /** The level a call finds, after the refill that the call itself performs. */
  function Refilled(b: Bucket, c: Call): real {
    Min(c.burst as real, b.tokens + Gain(c.at - b.lastFill, c.rate))
  }

  function Created(c: Call): Bucket {
    Bucket(c.burst as real, c.burst as real, c.rate, c.at)
  }

  function Taken(b: Bucket, c: Call): Bucket {
    var level := Refilled(b, c);
    Bucket(if level >= 1.0 then level - 1.0 else level, c.burst as real, c.rate, c.at)
  }

  type Buckets = map<string, Bucket>

  function Found(bs: Buckets, c: Call): Bucket {
    if c.tenant in bs then bs[c.tenant] else Created(c)
  }

  function Served(calls: seq<Call>): Buckets {
    if calls == [] then map[]
    else
      var bs, c := Served(calls[..|calls| - 1]), calls[|calls| - 1];
      bs[c.tenant := Taken(Found(bs, c), c)]
  }

  class RateLimiter {
    var buckets: Buckets
    ghost var log: seq<Call>

    ghost predicate Valid()
      reads this
    {
      buckets == Served(log)
    }

    constructor ()
      ensures Valid() && log == []
    {
      buckets, log := map[], [];
    }

    method Allow(tenantID: string, rateRps: int, burst: int, now: real) returns (ok: bool)
      requires Valid()
      modifies this
      ensures Valid() && log == old(log) + [Call(tenantID, rateRps, burst, now)]
      ensures ok == Granted(log, |log| - 1)
    {
      hide Served, Granted, Gain;
      ghost var c := Call(tenantID, rateRps, burst, now);
      ServedGrows(log, c);
      log := log + [c];
      if tenantID !in buckets {
        buckets := buckets[tenantID := Bucket(burst as real, burst as real, rateRps, now)];
      }
      var b := buckets[tenantID];
      assert b == Found(old(buckets), c);
      b := b.(rate := rateRps, maxBurst := burst as real);
      var elapsed := now - b.lastFill;
      b := b.(tokens := Min(b.maxBurst, b.tokens + Gain(elapsed, b.rate)), lastFill := now);
      ok := b.tokens >= 1.0;
      if ok {
        b := b.(tokens := b.tokens - 1.0);
      }
      buckets := buckets[tenantID := b];
      assert buckets == old(buckets)[tenantID := b];
    }
  }

  lemma ServedGrows(log: seq<Call>, c: Call)
    ensures Served(log + [c]) == Served(log)[c.tenant := Taken(Found(Served(log), c), c)]
    ensures Granted(log + [c], |log|) <==> Refilled(Found(Served(log), c), c) >= 1.0
  {
    hide Gain;
    assert (log + [c])[..|log|] == log;
  }

  /** Whether call k is let through, after the calls before it. */
  function Granted(calls: seq<Call>, k: nat): bool
    requires k < |calls|
  {
    Refilled(Found(Served(calls[..k]), calls[k]), calls[k]) >= 1.0
  }

  // ---------- One tenant's calls ----------

  function Level(cs: seq<Call>, k: nat): real
    requires k < |cs|
  {
    if k == 0 then cs[0].burst as real
    else
      var before := Level(cs, k - 1);
      Min(cs[k].burst as real,
          (if before >= 1.0 then before - 1.0 else before) + Gain(cs[k].at - cs[k - 1].at, cs[k].rate))
  }

  predicate Ok(cs: seq<Call>, k: nat)
    requires k < |cs|
  {
    Level(cs, k) >= 1.0
  }

  /** How many of the calls j, ..., k - 1 were let through. */
  function Count(cs: seq<Call>, j: nat, k: nat): nat
    requires j <= k <= |cs|
  {
    if j == k then 0 else Count(cs, j, k - 1) + if Ok(cs, k - 1) then 1 else 0
  }

  /** The tokens that flow in between call j and call k, each stretch at the rate of the call that ends it. */
  function Inflow(cs: seq<Call>, j: nat, k: nat): real
    requires j <= k < |cs|
    decreases k
  {
    if j == k then 0.0 else Inflow(cs, j, k - 1) + Gain(cs[k].at - cs[k - 1].at, cs[k].rate)
  }

  function Budget(cs: seq<Call>, j: nat, k: nat): real
    requires j <= k < |cs|
  {
    cs[j].burst as real + Inflow(cs, j, k) - Count(cs, j, k) as real
  }

  lemma {:induction false} LevelWithinBudget(cs: seq<Call>, j: nat, k: nat)
    requires j <= k < |cs|
    ensures Level(cs, k) <= Budget(cs, j, k)
    decreases k
  {
    hide Gain;
    if j < k {
      LevelWithinBudget(cs, j, k - 1);
    }
  }

  lemma {:induction false} LevelIsSomeBudget(cs: seq<Call>, k: nat) returns (j: nat)
    requires k < |cs|
    ensures j <= k && Level(cs, k) == Budget(cs, j, k)
  {
    hide Gain;
    if k == 0 || Level(cs, k) == cs[k].burst as real {
      j := k;
    } else {
      j := LevelIsSomeBudget(cs, k - 1);
    }
  }

  /** A call is let through exactly when it exceeds no budget that starts at it or at an earlier call: nothing
      over the limit is granted, and nothing within every limit is refused.  Rates and bursts may change from
      call to call, and the clock need not be monotone. */
  lemma Exact(cs: seq<Call>, k: nat)
    requires k < |cs|
    ensures Ok(cs, k) <==> forall j: nat :: j <= k ==> Budget(cs, j, k) >= 1.0
  {
    hide Budget, Level;
    forall j: nat | j <= k
      ensures Level(cs, k) <= Budget(cs, j, k)
    {
      LevelWithinBudget(cs, j, k);
    }
    var j := LevelIsSomeBudget(cs, k);
  }

  // ---------- A fixed policy ----------

  ghost predicate Fixed(cs: seq<Call>, rate: int, burst: int) {
    forall i :: 0 <= i < |cs| ==> cs[i].rate == rate && cs[i].burst == burst
  }

  ghost predicate Monotone(cs: seq<Call>) {
    forall i, j :: 0 <= i < j < |cs| ==> cs[i].at <= cs[j].at
  }

  lemma {:induction false} FixedInflow(cs: seq<Call>, rate: int, burst: int, j: nat, k: nat)
    requires Fixed(cs, rate, burst) && j <= k < |cs|
    ensures Inflow(cs, j, k) == (cs[k].at - cs[j].at) * rate as real
    decreases k
  {
    if j < k {
      FixedInflow(cs, rate, burst, j, k - 1);
    }
  }

  /** Burst plus rate times the time since call j. */
  function Limit(cs: seq<Call>, rate: int, burst: int, j: nat, k: nat): real
    requires j <= k < |cs|
  {
    burst as real + (cs[k].at - cs[j].at) * rate as real
  }

  lemma ExactForFixedPolicy(cs: seq<Call>, rate: int, burst: int, k: nat)
    requires Fixed(cs, rate, burst) && k < |cs|
    ensures Ok(cs, k) <==> forall j: nat :: j <= k ==> Count(cs, j, k) as real + 1.0 <= Limit(cs, rate, burst, j, k)
  {
    hide Budget, Limit, Ok, Count;
    Exact(cs, k);
    forall j: nat | j <= k
      ensures Budget(cs, j, k) == Limit(cs, rate, burst, j, k) - Count(cs, j, k) as real
    {
      BudgetIsLimit(cs, rate, burst, j, k);
    }
  }

  lemma BudgetIsLimit(cs: seq<Call>, rate: int, burst: int, j: nat, k: nat)
    requires Fixed(cs, rate, burst) && j <= k < |cs|
    ensures Budget(cs, j, k) == Limit(cs, rate, burst, j, k) - Count(cs, j, k) as real
  {
    FixedInflow(cs, rate, burst, j, k);
  }

  lemma LimitGrows(cs: seq<Call>, rate: int, burst: int, i: nat, k: nat)
    requires Monotone(cs) && rate >= 0 && i <= k < |cs| - 1
    ensures Limit(cs, rate, burst, i, k) <= Limit(cs, rate, burst, i, k + 1)
  {
    var d := cs[k + 1].at - cs[k].at;
    assert d * rate as real >= 0.0;
  }

  /** No window of time sees more grants than its burst plus what the rate gives in that time. */
  lemma {:induction false} WindowBound(cs: seq<Call>, rate: int, burst: int, i: nat, k: nat)
    requires Fixed(cs, rate, burst) && Monotone(cs) && rate >= 0 && i <= k < |cs|
    requires Count(cs, i, k + 1) > 0
    ensures Count(cs, i, k + 1) as real <= Limit(cs, rate, burst, i, k)
    decreases k
  {
    hide Limit, Ok, Level;
    if Ok(cs, k) {
      ExactForFixedPolicy(cs, rate, burst, k);
      assert Count(cs, i, k) as real + 1.0 <= Limit(cs, rate, burst, i, k);
    } else {
      WindowBound(cs, rate, burst, i, k - 1);
      LimitGrows(cs, rate, burst, i, k - 1);
    }
  }

  // ---------- Tenants do not disturb each other ----------

  function Of(calls: seq<Call>, tenant: string): (cs: seq<Call>)
    ensures |cs| <= |calls|
  {
    if calls == [] then []
    else
      var init, c := Of(calls[..|calls| - 1], tenant), calls[|calls| - 1];
      if c.tenant == tenant then init + [c] else init
  }

  lemma {:induction false} LevelOfPrefix(cs: seq<Call>, c: Call, k: nat)
    requires k < |cs|
    ensures Level(cs + [c], k) == Level(cs, k)
  {
    hide Gain;
    if k > 0 {
      LevelOfPrefix(cs, c, k - 1);
    }
  }

  lemma {:induction false} ServedOf(calls: seq<Call>, tenant: string)
    ensures var bs, cs := Served(calls), Of(calls, tenant);
            && (tenant in bs <==> cs != [])
            && (cs != [] ==>
                  var level := Level(cs, |cs| - 1);
                  && bs[tenant].lastFill == cs[|cs| - 1].at
                  && bs[tenant].tokens == if level >= 1.0 then level - 1.0 else level)
  {
    hide Gain, Level;
    if calls != [] {
      var init, c := calls[..|calls| - 1], calls[|calls| - 1];
      ServedOf(init, tenant);
      if c.tenant == tenant {
        NextLevel(init, c);
      }
    }
  }

  lemma NextLevel(calls: seq<Call>, c: Call)
    requires var bs, cs := Served(calls), Of(calls, c.tenant);
             && (c.tenant in bs <==> cs != [])
             && (cs != [] ==>
                  var level := Level(cs, |cs| - 1);
                  && bs[c.tenant].lastFill == cs[|cs| - 1].at
                  && bs[c.tenant].tokens == if level >= 1.0 then level - 1.0 else level)
    ensures var cs := Of(calls, c.tenant) + [c];
            Refilled(Found(Served(calls), c), c) == Level(cs, |cs| - 1)
  {
    hide Gain, Of, Served;
    var cs := Of(calls, c.tenant);
    GainInNoTime(c.rate);
    if cs != [] {
      LevelOfPrefix(cs, c, |cs| - 1);
    }
  }

  /** What a call gets depends on the earlier calls of its own tenant only. */
  lemma Isolated(calls: seq<Call>, k: nat)
    requires k < |calls|
    ensures var cs := Of(calls[..k], calls[k].tenant) + [calls[k]];
            Granted(calls, k) == Ok(cs, |cs| - 1)
  {
    ServedOf(calls[..k], calls[k].tenant);
    NextLevel(calls[..k], calls[k]);
  }
}
