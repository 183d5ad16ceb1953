/** The control plane's quota enforcer: a tenant's configuration behind a cache, a per-minute limit in memory and
    per-day limits in the usage table. */
module Quota {
  import opened Base
  import opened TtlCache
  import MW = MinuteWindow

  datatype Config = Config(
    tenantId: string, tokensPerMinute: int, tokensPerDay: int, budgetUSDPerDay: real, maxContextTokens: int)

  function DefaultConfig(tenantId: string): Config {
    Config(tenantId, 100_000, 5_000_000, 50.0, 8192)
  }

  datatype CheckResult = Allowed | DeniedContext | DeniedTokenMinute | DeniedTokenDay | DeniedBudgetDay

  /** The estimate at the cheapest model's rate. */
  function FloorCost(tokens: int): real {
    tokens as real / 1000.0 * 0.0001
  }

  function Decision(cfg: Config, usedMinute: int, usedToday: int, spentToday: real,
                    estimate: int, context: int): CheckResult
  {
    if context > cfg.maxContextTokens then DeniedContext
    else if usedMinute + estimate > cfg.tokensPerMinute then DeniedTokenMinute
    else if usedToday + estimate > cfg.tokensPerDay then DeniedTokenDay
    else if spentToday + FloorCost(estimate) > cfg.budgetUSDPerDay then DeniedBudgetDay
    else Allowed
  }

  const CONFIG_TTL := 60 * SECOND

  function NoConfig(tenantId: string): Option<Config> { None }

  const QUOTAS: Rule<string, Config> := Rule(CONFIG_TTL, false, NoConfig)

  datatype ConfigEntry = ConfigEntry(cfg: Config, fetchedAt: int)

  function Timed(cache: map<string, Entry<Config>>): map<string, ConfigEntry> {
    map t | t in cache :: ConfigEntry(cache[t].value, cache[t].at)
  }

  lemma TimedPut(cache: map<string, Entry<Config>>, t: string, e: Entry<Config>)
    ensures Timed(cache[t := e]) == Timed(cache)[t := ConfigEntry(e.value, e.at)]
  {
  }

  function Effective(tenantId: string, loaded: Option<Config>): Config {
    if loaded.Some? then loaded.value else DefaultConfig(tenantId)
  }

  function Day(now: int): int { now / (86_400 * SECOND) }

  function Minute(now: int): int { now / (60 * SECOND) }

  /** A row of the usage table, by tenant and window. */
  datatype Usage = Usage(tokens: int, cost: real)

  type Rows = map<(string, int), Usage>

  function UsageOf(rows: Rows, tenant: string, window: int): Usage {
    if (tenant, window) in rows then rows[(tenant, window)] else Usage(0, 0.0)
  }

  /** Insert, or add on conflict. */
  function Added(rows: Rows, tenant: string, window: int, tokens: int, cost: real): Rows {
    var u := UsageOf(rows, tenant, window);
    rows[(tenant, window) := Usage(u.tokens + tokens, u.cost + cost)]
  }

  /** The table's minute rows are what the log says was recorded. */
  ghost predicate RowsMatch(minutes: Rows, log: seq<MW.Step>) {
    forall t, w :: UsageOf(minutes, t, w).tokens == MW.Row(log, t, w)
  }

  // ---------- The ledger ----------

  /** One call of Record. */
  datatype Spent = Spent(tenant: string, tokens: int, cost: real, at: int)

  const DAY_NS := 86_400_000_000_000
  const MINUTE_NS := 60_000_000_000

  /** The call belongs to the tenant and falls into the same span of the clock as `now`. */
  predicate Falls(x: Spent, tenant: string, span: int, now: int)
    requires span > 0
  {
    x.tenant == tenant && x.at / span == now / span
  }

  function TokensIn(ledger: seq<Spent>, tenant: string, span: int, now: int): int
    requires span > 0
  {
    if ledger == [] then 0
    else
      var x := ledger[|ledger| - 1];
      TokensIn(ledger[..|ledger| - 1], tenant, span, now) + if Falls(x, tenant, span, now) then x.tokens else 0
  }

  function CostIn(ledger: seq<Spent>, tenant: string, span: int, now: int): real
    requires span > 0
  {
    if ledger == [] then 0.0
    else
      var x := ledger[|ledger| - 1];
      CostIn(ledger[..|ledger| - 1], tenant, span, now) + if Falls(x, tenant, span, now) then x.cost else 0.0
  }

  /** The day rows and the minute rows are the sums over the ledger. */
  ghost predicate Booked(days: Rows, minutes: Rows, ledger: seq<Spent>) {
    && (forall t, now :: UsageOf(days, t, Day(now)).tokens == TokensIn(ledger, t, DAY_NS, now))
    && (forall t, now :: UsageOf(days, t, Day(now)).cost == CostIn(ledger, t, DAY_NS, now))
    && (forall t, now :: UsageOf(minutes, t, Minute(now)).tokens == TokensIn(ledger, t, MINUTE_NS, now))
  }

  lemma BookedOneMore(days: Rows, minutes: Rows, ledger: seq<Spent>, x: Spent)
    requires Booked(days, minutes, ledger)
    ensures Booked(Added(days, x.tenant, Day(x.at), x.tokens, x.cost),
                   Added(minutes, x.tenant, Minute(x.at), x.tokens, 0.0), ledger + [x])
  {
    var l := ledger + [x];
    var ds := Added(days, x.tenant, Day(x.at), x.tokens, x.cost);
    var ms := Added(minutes, x.tenant, Minute(x.at), x.tokens, 0.0);
    assert l[..|ledger|] == ledger;
    hide Added, UsageOf, Day, Minute;
    forall t, now
      ensures UsageOf(ds, t, Day(now)).tokens == TokensIn(l, t, DAY_NS, now)
      ensures UsageOf(ds, t, Day(now)).cost == CostIn(l, t, DAY_NS, now)
      ensures UsageOf(ms, t, Minute(now)).tokens == TokensIn(l, t, MINUTE_NS, now)
    {
      assert UsageOf(days, t, Day(now)).tokens == TokensIn(ledger, t, DAY_NS, now);
      assert UsageOf(days, t, Day(now)).cost == CostIn(ledger, t, DAY_NS, now);
      assert UsageOf(minutes, t, Minute(now)).tokens == TokensIn(ledger, t, MINUTE_NS, now);
      AddedTo(days, x.tenant, Day(x.at), x.tokens, x.cost, t, Day(now));
      AddedTo(minutes, x.tenant, Minute(x.at), x.tokens, 0.0, t, Minute(now));
      WindowsAreSpans(x.at);
      WindowsAreSpans(now);
    }
  }

  lemma WindowsAreSpans(now: int)
    ensures Day(now) == now / DAY_NS && Minute(now) == now / MINUTE_NS
  {
  }

  lemma AddedTo(rows: Rows, tenant: string, window: int, tokens: int, cost: real, t: string, w: int)
    ensures var u, v := UsageOf(rows, t, w), UsageOf(Added(rows, tenant, window, tokens, cost), t, w);
            v == if t == tenant && w == window then Usage(u.tokens + tokens, u.cost + cost) else u
  {
  }

  // ---------- The verdict ----------

  /** A request is allowed when all four limits hold, and otherwise denied for the first that does not. */
  predicate Judged(r: CheckResult, cfg: Config, usedMinute: int, usedToday: int, spentToday: real,
                   estimate: int, context: int)
  {
    var fits, minute := context <= cfg.maxContextTokens, usedMinute + estimate <= cfg.tokensPerMinute;
    var day := usedToday + estimate <= cfg.tokensPerDay;
    var budget := spentToday + estimate as real / 1000.0 * 0.0001 <= cfg.budgetUSDPerDay;
    && (r == Allowed <==> fits && minute && day && budget)
    && (r == DeniedContext <==> !fits)
    && (r == DeniedTokenMinute <==> fits && !minute)
    && (r == DeniedTokenDay <==> fits && minute && !day)
    && (r == DeniedBudgetDay <==> fits && minute && day && !budget)
  }

  lemma JudgedIff(r: CheckResult, cfg: Config, usedMinute: int, usedToday: int, spentToday: real,
                  estimate: int, context: int)
    ensures Judged(r, cfg, usedMinute, usedToday, spentToday, estimate, context)
            <==> r == Decision(cfg, usedMinute, usedToday, spentToday, estimate, context)
  {
  }

  /** A tenant without a configuration runs under the defaults. */
  lemma LimitsInForce(tenant: string, loaded: Option<Config>)
    ensures Effective(tenant, loaded)
         == if loaded.Some? then loaded.value else Config(tenant, 100_000, 5_000_000, 50.0, 8_192)
  {
  }

  /** The clock at the four places a check reads it. */
  datatype Clock = Clock(load: int, stored: int, minute: int, day: int)

  class Enforcer {
    var quotas: map<string, Config>
    var cache: map<string, ConfigEntry>
    var days: Rows
    var minutes: Rows
    var minuteCounts: MW.Counters
    /** The configuration cache in the protocol of TtlCache, and the history of the minute counters. */
    ghost var model: State<string, Config>
    ghost var log: seq<MW.Step>
    /** All calls of Record so far. */
    ghost var ledger: seq<Spent>

    ghost predicate CacheValid()
      reads this`quotas, this`cache, this`model
    {
      && model.versions != [] && model.versions[|model.versions| - 1].rows == quotas
      && model.missed == map[] && model.flights == map[] && cache == Timed(model.cache)
    }

    ghost predicate MinutesValid()
      reads this`days, this`minutes, this`minuteCounts, this`log, this`ledger
    {
      && minuteCounts == MW.After(log) && RowsMatch(minutes, log) && MW.Backed(log) && MW.Dues(log) == []
      && Booked(days, minutes, ledger)
    }

    ghost predicate Valid()
      reads this
    {
      CacheValid() && MinutesValid()
    }

    constructor (quotas: map<string, Config>, now: int)
      ensures Valid() && this.quotas == quotas && model == Start(now, quotas)
      ensures days == map[] && log == [] && ledger == []
    {
      this.quotas, cache, days, minutes, minuteCounts := quotas, map[], map[], map[], map[];
      model, log, ledger := Start(now, quotas), [], [];
    }

    method LoadConfig(tenant: string, now: int, done: int) returns (r: Option<Config>)
      requires CacheValid() && model.now <= now <= done
      modifies this`cache, this`model
      ensures CacheValid()
      ensures model == After(QUOTAS, old(model), Fetch(QUOTAS, old(model), tenant, now, done))
      ensures r == Fetched(QUOTAS, old(model), tenant, now)
      // an entry under 60 seconds old answers; otherwise the row does, if there is one, and is kept
      ensures if tenant in old(cache) && now - old(cache)[tenant].fetchedAt < 60_000_000_000 then
                r == Some(old(cache)[tenant].cfg) && cache == old(cache)
              else if tenant in quotas then
                r == Some(quotas[tenant]) && cache == old(cache)[tenant := ConfigEntry(quotas[tenant], done)]
              else
                r == None && cache == old(cache)
    {
      hide After, Fetch, Answers, Runs;
      FetchMeans(QUOTAS, model, tenant, now, done);
      ghost var start := model;
      model := After(QUOTAS, model, Fetch(QUOTAS, model, tenant, now, done));
      if tenant in cache && now - cache[tenant].fetchedAt < CONFIG_TTL {
        return Some(cache[tenant].cfg);
      }
      if tenant !in quotas {
        return None;
      }
      r := Some(quotas[tenant]);
      TimedPut(start.cache, tenant, Entry(r.value, done, now));
      cache := cache[tenant := ConfigEntry(r.value, done)];
    }

    method UpsertConfig(cfg: Config, now: int, done: int)
      requires CacheValid() && model.now <= now <= done
      modifies this`quotas, this`cache, this`model
      ensures CacheValid() && quotas == old(quotas)[cfg.tenantId := cfg]
      ensures cache == old(cache)[cfg.tenantId := ConfigEntry(cfg, done)]
      ensures model == Next(QUOTAS, Next(QUOTAS, old(model), Event(now, WriteThrough(0, cfg.tenantId, cfg))),
                            Event(done, Store(0)))
    {
      quotas := quotas[cfg.tenantId := cfg];
      ghost var written := Next(QUOTAS, model, Event(now, WriteThrough(0, cfg.tenantId, cfg)));
      assert written.flights - {0} == map[];
      TimedPut(model.cache, cfg.tenantId, Entry(cfg, done, now));
      cache := cache[cfg.tenantId := ConfigEntry(cfg, done)];
      model := Next(QUOTAS, written, Event(done, Store(0)));
    }

    method CheckMinute(tenant: string, estimate: int, cfg: Config, now: int) returns (ok: bool)
      requires MinutesValid()
      modifies this`minuteCounts, this`log
      ensures MinutesValid()
      ensures log == old(log) + [MW.Check(tenant, Minute(now), estimate, cfg.tokensPerMinute)]
      ensures ok <==> MW.Watched(old(minuteCounts), tenant, Minute(now)).used + estimate <= cfg.tokensPerMinute
    {
      hide MW.Row, MW.Dues, MW.Backed;
      var key := Minute(now);
      LogChecked(minutes, log, MW.Check(tenant, key, estimate, cfg.tokensPerMinute));
      if tenant !in minuteCounts || minuteCounts[tenant].window != key {
        minuteCounts := minuteCounts[tenant := MW.Counter(0, key)];
      }
      log := log + [MW.Check(tenant, key, estimate, cfg.tokensPerMinute)];
      ok := !(minuteCounts[tenant].used + estimate > cfg.tokensPerMinute);
    }

    /** May the request run?  The minute is only looked at when the context fits. */
    method Check(tenant: string, estimate: int, context: int, c: Clock) returns (r: CheckResult)
      requires Valid() && model.now <= c.load <= c.stored <= c.minute <= c.day
      modifies this`cache, this`model, this`minuteCounts, this`log
      ensures Valid()
      ensures model == After(QUOTAS, old(model), Fetch(QUOTAS, old(model), tenant, c.load, c.stored))
      ensures var cfg := Effective(tenant, Fetched(QUOTAS, old(model), tenant, c.load));
              var today := UsageOf(days, tenant, Day(c.day));
              && r == Decision(cfg, MW.Watched(old(minuteCounts), tenant, Minute(c.minute)).used,
                               today.tokens, today.cost, estimate, context)
              && log == old(log) + (if context > cfg.maxContextTokens then []
                                    else [MW.Check(tenant, Minute(c.minute), estimate, cfg.tokensPerMinute)])
      // in order, the minute is judged by what has been recorded in it since its first check
      ensures MW.Ordered(old(log)) && MW.NoneLater(old(log), Minute(c.minute)) ==>
                var cfg := Effective(tenant, Fetched(QUOTAS, old(model), tenant, c.load));
                var today := UsageOf(days, tenant, Day(c.day));
                r == Decision(cfg, MW.Tally(old(log), tenant, Minute(c.minute)), today.tokens, today.cost,
                              estimate, context)
      // and the day by everything recorded in the same 86400 seconds
      ensures MW.Ordered(old(log)) && MW.NoneLater(old(log), Minute(c.minute)) ==>
                Judged(r, Effective(tenant, Fetched(QUOTAS, old(model), tenant, c.load)),
                       MW.Tally(old(log), tenant, Minute(c.minute)),
                       TokensIn(ledger, tenant, DAY_NS, c.day), CostIn(ledger, tenant, DAY_NS, c.day),
                       estimate, context)
    {
      hide After, Fetch, RowsMatch, MW.After, MW.Dues, MW.Backed, MW.Watched, MW.Tally, MW.Ordered, MW.NoneLater;
      hide Judged, TokensIn, CostIn, UsageOf, Day;
      assert UsageOf(days, tenant, Day(c.day)).tokens == TokensIn(ledger, tenant, DAY_NS, c.day);
      assert UsageOf(days, tenant, Day(c.day)).cost == CostIn(ledger, tenant, DAY_NS, c.day);
      Judge(tenant, c, estimate, context);
      if MW.Ordered(log) && MW.NoneLater(log, Minute(c.minute)) {
        MW.CheckDecides(log, tenant, Minute(c.minute), estimate, 0);
      }
      var loaded := LoadConfig(tenant, c.load, c.stored);
      var cfg := Effective(tenant, loaded);
      if context > cfg.maxContextTokens {
        return DeniedContext;
      }
      var fits := CheckMinute(tenant, estimate, cfg, c.minute);
      if !fits {
        return DeniedTokenMinute;
      }
      var today := UsageOf(days, tenant, Day(c.day));
      if today.tokens + estimate > cfg.tokensPerDay {
        return DeniedTokenDay;
      }
      if today.cost + FloorCost(estimate) > cfg.budgetUSDPerDay {
        return DeniedBudgetDay;
      }
      r := Allowed;
    }

    /** What the verdict is going to be, in terms of the ledger. */
    lemma Judge(tenant: string, c: Clock, estimate: int, context: int)
      requires Valid()
      ensures forall cfg, used, r ::
                var today := UsageOf(days, tenant, Day(c.day));
                r == Decision(cfg, used, today.tokens, today.cost, estimate, context) ==>
                Judged(r, cfg, used, TokensIn(ledger, tenant, DAY_NS, c.day), CostIn(ledger, tenant, DAY_NS, c.day),
                       estimate, context)
    {
      assert UsageOf(days, tenant, Day(c.day)).tokens == TokensIn(ledger, tenant, DAY_NS, c.day);
      assert UsageOf(days, tenant, Day(c.day)).cost == CostIn(ledger, tenant, DAY_NS, c.day);
    }

    method Record(tenant: string, tokens: int, cost: real, now: int)
      requires MinutesValid()
      modifies this`days, this`minutes, this`minuteCounts, this`log, this`ledger
      ensures MinutesValid()
      ensures ledger == old(ledger) + [Spent(tenant, tokens, cost, now)]
      ensures days == Added(old(days), tenant, Day(now), tokens, cost)
      ensures minutes == Added(old(minutes), tenant, Minute(now), tokens, 0.0)
      ensures var d := MW.Due(tenant, Minute(now), tokens);
              log == old(log) + [MW.Post(d)] + [MW.Count(0, d)]
    {
      hide MW.Row, MW.Dues, MW.Backed, MW.After, Added, RowsMatch, Booked, Day, Minute;
      var key := Minute(now);
      BookedOneMore(days, minutes, ledger, Spent(tenant, tokens, cost, now));
      ledger := ledger + [Spent(tenant, tokens, cost, now)];
      ghost var d := MW.Due(tenant, key, tokens);
      days := Added(days, tenant, Day(now), tokens, cost);
      LogRecorded(minutes, log, d);
      minutes := Added(minutes, tenant, key, tokens, 0.0);
      if tenant in minuteCounts && minuteCounts[tenant].window == key {
        minuteCounts := minuteCounts[tenant := MW.Counter(minuteCounts[tenant].used + tokens, key)];
      }
      log := log + [MW.Post(d)] + [MW.Count(0, d)];
    }

    /** One round of the flush loop. */
    method FlushMinutes(now: int)
      requires MinutesValid()
      modifies this`minuteCounts, this`log
      ensures MinutesValid() && log == old(log) + [MW.Flush(Minute(now))]
    {
      hide MW.Row, MW.Dues, MW.Backed, RowsMatch, MW.After, MW.Flushed, HalfFlushed;
      var key := Minute(now);
      LogChecked(minutes, log, MW.Flush(key));
      HalfFlushedEnds(minuteCounts, key);
      var todo := minuteCounts.Keys;
      while todo != {}
        invariant todo <= old(minuteCounts).Keys && log == old(log)
        invariant minuteCounts == HalfFlushed(old(minuteCounts), todo, key)
        decreases |todo|
      {
        var t :| t in todo;
        HalfFlushedNext(old(minuteCounts), todo, key, t);
        todo := todo - {t};
        if minuteCounts[t].window != key {
          minuteCounts := minuteCounts - {t};
        }
      }
      log := log + [MW.Flush(key)];
    }
  }

  /** The counters when `todo` is still to be looked at. */
  function HalfFlushed(cs: MW.Counters, todo: set<string>, key: int): MW.Counters {
    map t | t in cs && (t in todo || cs[t].window == key) :: cs[t]
  }

  lemma HalfFlushedEnds(cs: MW.Counters, key: int)
    ensures HalfFlushed(cs, cs.Keys, key) == cs && HalfFlushed(cs, {}, key) == MW.Flushed(cs, key)
  {
  }

  lemma HalfFlushedNext(cs: MW.Counters, todo: set<string>, key: int, t: string)
    requires t in todo && todo <= cs.Keys
    ensures var now := HalfFlushed(cs, todo, key);
            && t in now && now[t] == cs[t]
            && HalfFlushed(cs, todo - {t}, key) == if now[t].window != key then now - {t} else now
  {
  }

  lemma LogChecked(minutes: Rows, log: seq<MW.Step>, a: MW.Step)
    requires RowsMatch(minutes, log) && MW.Backed(log) && MW.Dues(log) == [] && (a.Check? || a.Flush?)
    ensures RowsMatch(minutes, log + [a]) && MW.Backed(log + [a]) && MW.Dues(log + [a]) == []
    ensures MW.After(log + [a]) == MW.Stepped(MW.After(log), a)
  {
    assert (log + [a])[..|log|] == log;
  }

  lemma LogPosted(log: seq<MW.Step>, d: MW.Due)
    requires MW.Backed(log) && MW.Dues(log) == []
    ensures var l := log + [MW.Post(d)] + [MW.Count(0, d)];
            MW.Backed(l) && MW.Dues(l) == [] && MW.After(l) == MW.Counted(MW.After(log), d)
  {
    var p := log + [MW.Post(d)];
    var l := p + [MW.Count(0, d)];
    assert p[..|log|] == log && l[..|p|] == p;
    assert MW.Dues(p) == [d];
  }

  lemma RowPosted(log: seq<MW.Step>, d: MW.Due, t: string, w: int)
    ensures MW.Row(log + [MW.Post(d)] + [MW.Count(0, d)], t, w) == MW.Row(log, t, w) + MW.Part(d, t, w)
  {
    var p := log + [MW.Post(d)];
    var l := p + [MW.Count(0, d)];
    assert p[..|log|] == log && l[..|p|] == p;
  }

  lemma UsageAdded(minutes: Rows, d: MW.Due, t: string, w: int)
    ensures UsageOf(Added(minutes, d.tenant, d.window, d.tokens, 0.0), t, w).tokens
            == UsageOf(minutes, t, w).tokens + MW.Part(d, t, w)
  {
  }

  lemma LogRecorded(minutes: Rows, log: seq<MW.Step>, d: MW.Due)
    requires RowsMatch(minutes, log) && MW.Backed(log) && MW.Dues(log) == []
    ensures var l := log + [MW.Post(d)] + [MW.Count(0, d)];
            && RowsMatch(Added(minutes, d.tenant, d.window, d.tokens, 0.0), l) && MW.Backed(l) && MW.Dues(l) == []
            && MW.After(l) == MW.Counted(MW.After(log), d)
  {
    hide MW.Row, MW.Dues, MW.Backed, MW.After, Added, UsageOf;
    LogPosted(log, d);
    forall t, w
      ensures UsageOf(Added(minutes, d.tenant, d.window, d.tokens, 0.0), t, w).tokens
              == MW.Row(log + [MW.Post(d)] + [MW.Count(0, d)], t, w)
    {
      RowPosted(log, d, t, w);
      UsageAdded(minutes, d, t, w);
    }
  }

  /** Right after an upsert, and for a minute from then on, the new limits are the ones in force. */
  method UpsertIsInForce(e: Enforcer, cfg: Config, t0: int, t1: int, t2: int, t3: int) returns (r: Option<Config>)
    requires e.Valid() && e.model.now <= t0 <= t1 <= t2 <= t3
    modifies e
    ensures r == Some(cfg)
  {
    e.UpsertConfig(cfg, t0, t1);
    r := e.LoadConfig(cfg.tenantId, t2, t3);
  }
}
