/** What a cache answers, read off the log of its steps: no theorem here looks into the cache. */
module CacheLaws {
  import opened Base
  import opened TtlCache
  import Auth
  import Policies
  import Quota

  /** The steps of a run from the start, with what each of them answered. */
  ghost predicate Logged<K, V>(rule: Rule<K, V>, delay: nat, now: int, rows: map<K, V>, es: seq<Event<K, V>>,
                               os: seq<Outcome<K, V>>)
  {
    Runs(rule, delay, Start(now, rows), es) && os == Answers(rule, Start(now, rows), es)
  }

  /** The state before step i. */
  function Before<K, V>(rule: Rule<K, V>, now: int, rows: map<K, V>, es: seq<Event<K, V>>, i: nat): State<K, V>
    requires i <= |es|
  {
    After(rule, Start(now, rows), es[..i])
  }

  lemma {:induction false} RunAt<K, V>(rule: Rule<K, V>, delay: nat, s: State<K, V>, es: seq<Event<K, V>>, i: nat)
    requires Runs(rule, delay, s, es) && i < |es|
    ensures var t := After(rule, s, es[..i]);
            && Enabled(rule, delay, t, es[i]) && Answers(rule, s, es)[i] == Answer(rule, t, es[i])
            && After(rule, s, es[..i + 1]) == Next(rule, t, es[i])
    decreases i
  {
    hide Enabled, Next, Answer;
    if i == 0 {
      assert es[..1] == [es[0]] && [es[0]][1..] == [] && es[..0] == [];
    } else {
      RunAt(rule, delay, Next(rule, s, es[0]), es[1..], i - 1);
      assert es[..i + 1][1..] == es[1..][..i] && es[..i][1..] == es[1..][..i - 1];
    }
  }

  lemma StepAt<K, V>(rule: Rule<K, V>, delay: nat, now: int, rows: map<K, V>, es: seq<Event<K, V>>,
                     os: seq<Outcome<K, V>>, i: nat)
    requires Logged(rule, delay, now, rows, es, os) && i < |es|
    ensures var t := Before(rule, now, rows, es, i);
            && Enabled(rule, delay, t, es[i]) && os[i] == Answer(rule, t, es[i])
            && Before(rule, now, rows, es, i + 1) == Next(rule, t, es[i])
  {
    hide Enabled, Next, Answer;
    RunAt(rule, delay, Start(now, rows), es, i);
  }

  // ---------- Hits ----------

  /** The latest store of the key before step i, unless the key has been invalidated since. */
  function LastStore<K, V>(es: seq<Event<K, V>>, os: seq<Outcome<K, V>>, i: nat, key: K): (r: Option<nat>)
    requires i <= |es| == |os|
    ensures r.Some? ==> r.value < i
  {
    if i == 0 then None
    else if es[i - 1].act == Invalidate(key) then None
    else if es[i - 1].act.Store? && os[i - 1].Served? && os[i - 1].key == key then Some(i - 1)
    else LastStore(es, os, i - 1, key)
  }

  ghost predicate EntryByLog<K, V>(rule: Rule<K, V>, es: seq<Event<K, V>>, os: seq<Outcome<K, V>>, key: K,
                                   last: Option<nat>, s: State<K, V>)
    requires |es| == |os| && (last.Some? ==> last.value < |es|)
  {
    && (last.None? ==> key !in s.cache)
    && (last.Some? && key in s.cache ==>
          var j, e := last.value, s.cache[key];
          es[j].at == e.at && os[j] == Served(key, Some(e.value)))
    && (last.Some? && key !in s.cache ==> s.now > es[last.value].at + rule.ttl)
  }

  lemma EntryStep<K, V>(rule: Rule<K, V>, delay: nat, es: seq<Event<K, V>>, os: seq<Outcome<K, V>>, i: nat,
                        key: K, s: State<K, V>)
    requires i < |es| == |os|
    requires EntryByLog(rule, es, os, key, LastStore(es, os, i, key), s)
    requires Enabled(rule, delay, s, es[i]) && os[i] == Answer(rule, s, es[i])
    ensures EntryByLog(rule, es, os, key, LastStore(es, os, i + 1, key), Next(rule, s, es[i]))
  {
    hide Fresh, Loaded, Current;
  }

  lemma {:induction false} CacheByLog<K, V>(rule: Rule<K, V>, delay: nat, now: int, rows: map<K, V>,
                                            es: seq<Event<K, V>>, os: seq<Outcome<K, V>>, i: nat, key: K)
    requires Logged(rule, delay, now, rows, es, os) && i <= |es|
    ensures EntryByLog(rule, es, os, key, LastStore(es, os, i, key), Before(rule, now, rows, es, i))
  {
    hide Next, Enabled, Answer;
    if i == 0 {
      assert es[..0] == [];
    } else {
      CacheByLog(rule, delay, now, rows, es, os, i - 1, key);
      StepAt(rule, delay, now, rows, es, os, i - 1);
      EntryStep(rule, delay, es, os, i - 1, key, Before(rule, now, rows, es, i - 1));
    }
  }

  /** Still within the time to live at t; a closed one includes its last instant. */
  predicate Young<K, V>(rule: Rule<K, V>, stored: int, t: int) {
    t < stored + rule.ttl || (rule.closed && t == stored + rule.ttl)
  }

  /** A lookup is answered at once if and only if the latest store of the key is young enough and no invalidation
      came after it, and then it gets what that store answered. */
  lemma HitIff<K, V>(rule: Rule<K, V>, delay: nat, now: int, rows: map<K, V>, es: seq<Event<K, V>>,
                     os: seq<Outcome<K, V>>, i: nat, key: K)
    requires Logged(rule, delay, now, rows, es, os) && i < |es| && es[i].act.Lookup? && es[i].act.key == key
    ensures var last := LastStore(es, os, i, key);
            && (os[i].Served? <==> last.Some? && Young(rule, es[last.value].at, es[i].at))
            && (os[i].Served? ==> os[i] == os[last.value])
  {
    CacheByLog(rule, delay, now, rows, es, os, i, key);
    hide LastStore, Before, Logged, Loaded, Current;
    StepAt(rule, delay, now, rows, es, os, i);
  }

  // ---------- What is stored ----------

  /** The table as the writes before step i have left it. */
  function TableAt<K, V>(rows: map<K, V>, es: seq<Event<K, V>>, i: nat): map<K, V>
    requires i <= |es|
  {
    if i == 0 then rows
    else
      match es[i - 1].act
      case Write(new_rows) => new_rows
      case WriteThrough(_, k, v) => TableAt(rows, es, i - 1)[k := v]
      case _ => TableAt(rows, es, i - 1)
  }

  lemma {:induction false} TableByLog<K, V>(rule: Rule<K, V>, delay: nat, now: int, rows: map<K, V>,
                                            es: seq<Event<K, V>>, os: seq<Outcome<K, V>>, i: nat)
    requires Logged(rule, delay, now, rows, es, os) && i <= |es|
    ensures var vs := Before(rule, now, rows, es, i).versions;
            vs != [] && vs[|vs| - 1].rows == TableAt(rows, es, i)
  {
    if i == 0 {
      assert es[..0] == [];
    } else {
      TableByLog(rule, delay, now, rows, es, os, i - 1);
      StepAt(rule, delay, now, rows, es, os, i - 1);
      hide Before, Logged, Enabled, Answer, Hit, Current, Swept;
    }
  }

  /** The latest step before i that lookup or upsert `id` took; a lookup answered at once takes none. */
  function LastStep<K, V>(es: seq<Event<K, V>>, os: seq<Outcome<K, V>>, i: nat, id: nat): (r: Option<nat>)
    requires i <= |es| == |os|
    ensures r.Some? ==> r.value < i
  {
    if i == 0 then None
    else if Concerns(es[i - 1].act, os[i - 1], id) then Some(i - 1)
    else LastStep(es, os, i - 1, id)
  }

  predicate Concerns<K, V>(a: Action<K, V>, o: Outcome<K, V>, id: nat) {
    match a
    case Lookup(x, _) => x == id && o.Silent?
    case WriteThrough(x, _, _) => x == id
    case Read(x) => x == id
    case Store(x) => x == id
    case _ => false
  }

  /** The row in force at step i, or what stands in for a missing one. */
  function RowAt<K, V>(rule: Rule<K, V>, rows: map<K, V>, es: seq<Event<K, V>>, i: nat, key: K): Option<V>
    requires i <= |es|
  {
    var table := TableAt(rows, es, i);
    if key in table then Some(table[key]) else rule.fallback(key)
  }

  /** What `id` looks for and has in hand after its latest step j. */
  ghost predicate PendingByLog<K, V>(rule: Rule<K, V>, rows: map<K, V>, es: seq<Event<K, V>>,
                                     os: seq<Outcome<K, V>>, id: nat, last: Option<nat>, s: State<K, V>)
    requires |es| == |os| && (last.Some? ==> last.value < |es|)
  {
    if last.None? then id !in s.missed && id !in s.flights
    else
      var j := last.value;
      match es[j].act
      case Lookup(_, k) => id in s.missed && s.missed[id] == k && id !in s.flights
      case WriteThrough(_, k, v) =>
        id !in s.missed && id in s.flights && s.flights[id].key == k && s.flights[id].value == v
      case Read(_) =>
        var l := LastStep(es, os, j, id);
        && id !in s.missed && l.Some? && es[l.value].act.Lookup?
        && var key := es[l.value].act.key;
           var row := RowAt(rule, rows, es, j, key);
        && (os[j] == if row.None? then Served(key, None) else Silent)
        && (id in s.flights <==> row.Some?)
        && (row.Some? ==> s.flights[id].key == key && s.flights[id].value == row.value)
      case _ => id !in s.missed && id !in s.flights
  }

  /** A step that does not concern it leaves a lookup or upsert as it was. */
  lemma OthersStep<K, V>(rule: Rule<K, V>, delay: nat, s: State<K, V>, e: Event<K, V>, id: nat)
    requires Enabled(rule, delay, s, e) && !Concerns(e.act, Answer(rule, s, e), id)
    ensures var t := Next(rule, s, e);
            && (id in t.missed <==> id in s.missed) && (id in s.missed ==> t.missed[id] == s.missed[id])
            && (id in t.flights <==> id in s.flights) && (id in s.flights ==> t.flights[id] == s.flights[id])
  {
    hide Hit, Swept, Current;
  }

  lemma PendingStep<K, V>(rule: Rule<K, V>, delay: nat, rows: map<K, V>, es: seq<Event<K, V>>,
                          os: seq<Outcome<K, V>>, i: nat, id: nat, s: State<K, V>)
    requires i < |es| == |os|
    requires PendingByLog(rule, rows, es, os, id, LastStep(es, os, i, id), s)
    requires s.versions != [] && s.versions[|s.versions| - 1].rows == TableAt(rows, es, i)
    requires Enabled(rule, delay, s, es[i]) && os[i] == Answer(rule, s, es[i])
    ensures PendingByLog(rule, rows, es, os, id, LastStep(es, os, i + 1, id), Next(rule, s, es[i]))
  {
    if Concerns(es[i].act, os[i], id) {
      hide Hit, TableAt, Swept;
      assert LastStep(es, os, i + 1, id) == Some(i);
    } else {
      assert LastStep(es, os, i + 1, id) == LastStep(es, os, i, id);
      OthersStep(rule, delay, s, es[i], id);
      hide Next, Enabled, Answer, LastStep, RowAt;
    }
  }

  lemma {:induction false} FlightsByLog<K, V>(rule: Rule<K, V>, delay: nat, now: int, rows: map<K, V>,
                                              es: seq<Event<K, V>>, os: seq<Outcome<K, V>>, i: nat, id: nat)
    requires Logged(rule, delay, now, rows, es, os) && i <= |es|
    ensures PendingByLog(rule, rows, es, os, id, LastStep(es, os, i, id), Before(rule, now, rows, es, i))
  {
    hide Next, Enabled, Answer;
    if i == 0 {
      assert es[..0] == [];
    } else {
      FlightsByLog(rule, delay, now, rows, es, os, i - 1, id);
      StepAt(rule, delay, now, rows, es, os, i - 1);
      TableByLog(rule, delay, now, rows, es, os, i - 1);
      PendingStep(rule, delay, rows, es, os, i - 1, id, Before(rule, now, rows, es, i - 1));
    }
  }

  /** A read answers nothing if and only if the key has no row and nothing stands in for one. */
  lemma ReadAnswers<K, V>(rule: Rule<K, V>, delay: nat, now: int, rows: map<K, V>, es: seq<Event<K, V>>,
                          os: seq<Outcome<K, V>>, i: nat)
    requires Logged(rule, delay, now, rows, es, os) && i < |es| && es[i].act.Read?
    ensures var l := LastStep(es, os, i, es[i].act.id);
            && l.Some? && es[l.value].act.Lookup?
            && var key := es[l.value].act.key;
               os[i] == if RowAt(rule, rows, es, i, key).None? then Served(key, None) else Silent
  {
    FlightsByLog(rule, delay, now, rows, es, os, i + 1, es[i].act.id);
  }

  /** A store answers what the read of its lookup found, or what its upsert wrote. */
  lemma StoreAnswers<K, V>(rule: Rule<K, V>, delay: nat, now: int, rows: map<K, V>, es: seq<Event<K, V>>,
                           os: seq<Outcome<K, V>>, i: nat)
    requires Logged(rule, delay, now, rows, es, os) && i < |es| && es[i].act.Store?
    ensures var id := es[i].act.id;
            var j := LastStep(es, os, i, id);
            && j.Some?
            && if es[j.value].act.WriteThrough? then
                 os[i] == Served(es[j.value].act.key, Some(es[j.value].act.value))
               else
                 && es[j.value].act.Read?
                 && var l := LastStep(es, os, j.value, id);
                 && l.Some? && es[l.value].act.Lookup?
                 && var key := es[l.value].act.key;
                    var row := RowAt(rule, rows, es, j.value, key);
                    row.Some? && os[i] == Served(key, row)
  {
    hide RowAt;
    FlightsByLog(rule, delay, now, rows, es, os, i, es[i].act.id);
    StepAt(rule, delay, now, rows, es, os, i);
    hide Before, Logged, LastStep;
  }

  // ---------- The three caches ----------

  /** An API key is served from the cache for less than 60 seconds. */
  lemma KeysHitIff(delay: nat, now: int, rows: map<string, Auth.Principal>,
                   es: seq<Event<string, Auth.Principal>>, os: seq<Outcome<string, Auth.Principal>>, i: nat)
    requires Logged(Auth.KEYS, delay, now, rows, es, os) && i < |es| && es[i].act.Lookup?
    ensures var last := LastStore(es, os, i, es[i].act.key);
            os[i].Served? <==> last.Some? && es[i].at - es[last.value].at < 60_000_000_000
  {
    HitIff(Auth.KEYS, delay, now, rows, es, os, i, es[i].act.key);
  }

  /** So is a quota configuration. */
  lemma ConfigsHitIff(delay: nat, now: int, rows: map<string, Quota.Config>,
                      es: seq<Event<string, Quota.Config>>, os: seq<Outcome<string, Quota.Config>>, i: nat)
    requires Logged(Quota.QUOTAS, delay, now, rows, es, os) && i < |es| && es[i].act.Lookup?
    ensures var last := LastStore(es, os, i, es[i].act.key);
            os[i].Served? <==> last.Some? && es[i].at - es[last.value].at < 60_000_000_000
  {
    HitIff(Quota.QUOTAS, delay, now, rows, es, os, i, es[i].act.key);
  }

  /** A policy is served for up to 30 seconds, that bound included. */
  lemma PoliciesHitIff(delay: nat, now: int, rows: map<string, Policies.TenantPolicy>,
                       es: seq<Event<string, Policies.TenantPolicy>>,
                       os: seq<Outcome<string, Policies.TenantPolicy>>, i: nat)
    requires Logged(Policies.POLICIES, delay, now, rows, es, os) && i < |es| && es[i].act.Lookup?
    ensures var last := LastStore(es, os, i, es[i].act.key);
            os[i].Served? <==> last.Some? && es[i].at - es[last.value].at <= 30_000_000_000
  {
    HitIff(Policies.POLICIES, delay, now, rows, es, os, i, es[i].act.key);
  }
}
