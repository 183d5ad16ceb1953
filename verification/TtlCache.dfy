/** A cache with a time to live in front of a table, as a protocol of atomic steps: a lookup tests the cache in one
    step and, if it misses, reads the table in a second and stores what it read in a third, while the table is
    written, entries are invalidated and stale ones are swept.  The key store of the gateway, the quota
    configurations and the tenant policies are three instances.  Times are nanoseconds. */
module TtlCache {
  import opened Base

  const SECOND := 1_000_000_000

  /** How an instance tells a fresh entry, and what it loads for a key without a row. */
  datatype Rule<!K, V> = Rule(ttl: nat, closed: bool, fallback: K -> Option<V>)

  /** `at` is the clock at the store; `read`, which no step looks at, is the clock at the table read. */
  datatype Entry<V> = Entry(value: V, at: int, read: int)

  datatype Version<K, V> = Version(since: int, rows: map<K, V>)

  datatype Flight<K, V> = Flight(key: K, value: V, read: int)

  /** `versions` is everything the table has been; the last one is current. */
  datatype State<K, V> = State(
    now: int, versions: seq<Version<K, V>>, cache: map<K, Entry<V>>,
    missed: map<nat, K>,              // lookups that have missed and not read the table yet
    flights: map<nat, Flight<K, V>>)  // what has been read and not stored yet

  function Start<K, V>(now: int, rows: map<K, V>): State<K, V> {
    State(now, [Version(now, rows)], map[], map[], map[])
  }

  datatype Action<K, V> =
    | Write(rows: map<K, V>)
    | WriteThrough(id: nat, key: K, value: V) // the table write of an upsert, whose store is still to come
    | Lookup(id: nat, key: K)
    | Read(id: nat)
    | Store(id: nat)
    | Invalidate(key: K)
    | Sweep

  datatype Event<K, V> = Event(at: int, act: Action<K, V>)

  datatype Outcome<K, V> = Served(key: K, value: Option<V>) | Silent

  predicate Fresh<K, V>(rule: Rule<K, V>, at: int, now: int) {
    if rule.closed then now - at <= rule.ttl else now - at < rule.ttl
  }

  function Loaded<K, V>(rule: Rule<K, V>, rows: map<K, V>, key: K): Option<V> {
    if key in rows then Some(rows[key]) else rule.fallback(key)
  }

  predicate Hit<K, V>(rule: Rule<K, V>, s: State<K, V>, key: K, now: int) {
    key in s.cache && Fresh(rule, s.cache[key].at, now)
  }

  function Current<K, V>(rule: Rule<K, V>, s: State<K, V>, key: K): Option<V> {
    if s.versions == [] then None else Loaded(rule, s.versions[|s.versions| - 1].rows, key)
  }

  /** Stores happen at most `delay` after their reads. */
  predicate Enabled<K, V>(rule: Rule<K, V>, delay: nat, s: State<K, V>, e: Event<K, V>) {
    && s.now <= e.at
    && match e.act
       case WriteThrough(id, _, _) => id !in s.missed && id !in s.flights && s.versions != []
       case Lookup(id, key) => Hit(rule, s, key, e.at) || (id !in s.missed && id !in s.flights)
       case Read(id) => id in s.missed && id !in s.flights
       case Store(id) => id in s.flights && e.at - s.flights[id].read <= delay
       case _ => true
  }

  function Swept<K, V>(rule: Rule<K, V>, cache: map<K, Entry<V>>, now: int): map<K, Entry<V>> {
    map k | k in cache && now <= cache[k].at + rule.ttl :: cache[k]
  }

  function Next<K, V>(rule: Rule<K, V>, s: State<K, V>, e: Event<K, V>): State<K, V> {
    var t := s.(now := e.at);
    match e.act
    case Write(rows) => t.(versions := s.versions + [Version(e.at, rows)])
    case WriteThrough(id, k, v) =>
      if s.versions == [] then t
      else t.(versions := s.versions + [Version(e.at, s.versions[|s.versions| - 1].rows[k := v])],
              flights := s.flights[id := Flight(k, v, e.at)])
    case Lookup(id, k) => if Hit(rule, s, k, e.at) then t else t.(missed := s.missed[id := k])
    case Read(id) =>
      if id !in s.missed then t
      else
        var k, u := s.missed[id], t.(missed := s.missed - {id});
        if Current(rule, s, k).None? then u
        else u.(flights := s.flights[id := Flight(k, Current(rule, s, k).value, e.at)])
    case Store(id) =>
      if id !in s.flights then t
      else
        var f := s.flights[id];
        t.(cache := s.cache[f.key := Entry(f.value, e.at, f.read)], flights := s.flights - {id})
    case Invalidate(k) => t.(cache := s.cache - {k})
    case Sweep => t.(cache := Swept(rule, s.cache, e.at))
  }

  /** A lookup answers at once from the cache, or when it finds nothing to load, or when what it read has been
      stored. */
  function Answer<K, V>(rule: Rule<K, V>, s: State<K, V>, e: Event<K, V>): Outcome<K, V> {
    match e.act
    case Lookup(_, k) => if Hit(rule, s, k, e.at) then Served(k, Some(s.cache[k].value)) else Silent
    case Read(id) =>
      if id in s.missed && Current(rule, s, s.missed[id]).None? then Served(s.missed[id], None) else Silent
    case Store(id) => if id in s.flights then Served(s.flights[id].key, Some(s.flights[id].value)) else Silent
    case _ => Silent
  }

  predicate Runs<K, V>(rule: Rule<K, V>, delay: nat, s: State<K, V>, es: seq<Event<K, V>>)
    decreases |es|
  {
    es == [] || (Enabled(rule, delay, s, es[0]) && Runs(rule, delay, Next(rule, s, es[0]), es[1..]))
  }

  function After<K, V>(rule: Rule<K, V>, s: State<K, V>, es: seq<Event<K, V>>): State<K, V>
    decreases |es|
  {
    if es == [] then s else After(rule, Next(rule, s, es[0]), es[1..])
  }

  function Answers<K, V>(rule: Rule<K, V>, s: State<K, V>, es: seq<Event<K, V>>): (os: seq<Outcome<K, V>>)
    ensures |os| == |es|
    decreases |es|
  {
    if es == [] then [] else [Answer(rule, s, es[0])] + Answers(rule, Next(rule, s, es[0]), es[1..])
  }

  // ---------- What a table held, and when ----------

  /** Some version no earlier than the n-th loads v for the key. */
  ghost predicate HeldSince<K, V>(rule: Rule<K, V>, vs: seq<Version<K, V>>, n: int, key: K, v: Option<V>) {
    exists i :: 0 <= i < |vs| && n <= i && Loaded(rule, vs[i].rows, key) == v
  }

  /** At some instant from a to b the table loaded v for the key. */
  ghost predicate Held<K, V>(rule: Rule<K, V>, vs: seq<Version<K, V>>, key: K, v: Option<V>, a: int, b: int) {
    exists i :: 0 <= i < |vs| && Loaded(rule, vs[i].rows, key) == v && LiveWithin(vs, i, a, b)
  }

  predicate LiveWithin<K, V>(vs: seq<Version<K, V>>, i: nat, a: int, b: int)
    requires i < |vs|
  {
    vs[i].since <= b && (i + 1 < |vs| ==> a <= vs[i + 1].since)
  }

  lemma HeldKept<K, V>(rule: Rule<K, V>, vs: seq<Version<K, V>>, x: Version<K, V>, key: K, v: Option<V>, a: int, b: int)
    requires Held(rule, vs, key, v, a, b) && a <= x.since
    ensures Held(rule, vs + [x], key, v, a, b)
  {
    var i :| 0 <= i < |vs| && Loaded(rule, vs[i].rows, key) == v && LiveWithin(vs, i, a, b);
    assert LiveWithin(vs + [x], i, a, b);
  }

  lemma HeldWider<K, V>(rule: Rule<K, V>, vs: seq<Version<K, V>>, key: K, v: Option<V>, a: int, b: int, c: int, d: int)
    requires Held(rule, vs, key, v, a, b) && c <= a && b <= d
    ensures Held(rule, vs, key, v, c, d)
  {
    var i :| 0 <= i < |vs| && Loaded(rule, vs[i].rows, key) == v && LiveWithin(vs, i, a, b);
    assert LiveWithin(vs, i, c, d);
  }

  lemma HeldNow<K, V>(rule: Rule<K, V>, vs: seq<Version<K, V>>, key: K, now: int)
    requires vs != [] && vs[|vs| - 1].since <= now
    ensures Held(rule, vs, key, Loaded(rule, vs[|vs| - 1].rows, key), now, now)
  {
    assert LiveWithin(vs, |vs| - 1, now, now);
  }

  // ---------- Bounded staleness ----------

  ghost predicate EntryTrue<K, V>(rule: Rule<K, V>, delay: nat, s: State<K, V>, k: K, e: Entry<V>) {
    e.read <= e.at <= s.now && e.at - e.read <= delay && Held(rule, s.versions, k, Some(e.value), e.read, e.read)
  }

  ghost predicate FlightTrue<K, V>(rule: Rule<K, V>, s: State<K, V>, f: Flight<K, V>) {
    f.read <= s.now && Held(rule, s.versions, f.key, Some(f.value), f.read, f.read)
  }

  ghost predicate Inv<K, V>(rule: Rule<K, V>, delay: nat, s: State<K, V>) {
    && s.versions != [] && s.versions[|s.versions| - 1].since <= s.now
    && (forall k :: k in s.cache ==> EntryTrue(rule, delay, s, k, s.cache[k]))
    && (forall id :: id in s.flights ==> FlightTrue(rule, s, s.flights[id]))
  }

  /** What was true of the table at some instant stays so while the clock and the table move on. */
  lemma TruthsKept<K, V>(rule: Rule<K, V>, delay: nat, s: State<K, V>, t: State<K, V>)
    requires Inv(rule, delay, s) && s.now <= t.now && t.versions != []
    requires t.versions == s.versions || t.versions == s.versions + [t.versions[|t.versions| - 1]]
    requires t.versions != s.versions ==> t.versions[|t.versions| - 1].since == t.now
    ensures forall k :: k in s.cache ==> EntryTrue(rule, delay, t, k, s.cache[k])
    ensures forall id :: id in s.flights ==> FlightTrue(rule, t, s.flights[id])
  {
    hide Held, Loaded;
    if t.versions != s.versions {
      var x := t.versions[|t.versions| - 1];
      forall k | k in s.cache ensures EntryTrue(rule, delay, t, k, s.cache[k]) {
        var e := s.cache[k];
        assert EntryTrue(rule, delay, s, k, e);
        HeldKept(rule, s.versions, x, k, Some(e.value), e.read, e.read);
      }
      forall id | id in s.flights ensures FlightTrue(rule, t, s.flights[id]) {
        var f := s.flights[id];
        assert FlightTrue(rule, s, f);
        HeldKept(rule, s.versions, x, f.key, Some(f.value), f.read, f.read);
      }
    } else {
      forall k | k in s.cache ensures EntryTrue(rule, delay, t, k, s.cache[k]) {
        assert EntryTrue(rule, delay, s, k, s.cache[k]);
      }
      forall id | id in s.flights ensures FlightTrue(rule, t, s.flights[id]) {
        assert FlightTrue(rule, s, s.flights[id]);
      }
    }
  }

  lemma NewEntry<K, V>(rule: Rule<K, V>, delay: nat, s: State<K, V>, f: Flight<K, V>)
    requires FlightTrue(rule, s, f) && s.now - f.read <= delay
    ensures EntryTrue(rule, delay, s, f.key, Entry(f.value, s.now, f.read))
  {
  }

  lemma NewFlight<K, V>(rule: Rule<K, V>, s: State<K, V>, key: K, v: V)
    requires s.versions != [] && s.versions[|s.versions| - 1].since <= s.now && Current(rule, s, key) == Some(v)
    ensures FlightTrue(rule, s, Flight(key, v, s.now))
  {
    HeldNow(rule, s.versions, key, s.now);
  }

  lemma StepKeepsCache<K, V>(rule: Rule<K, V>, delay: nat, s: State<K, V>, e: Event<K, V>, k: K)
    requires Inv(rule, delay, s) && Enabled(rule, delay, s, e) && k in Next(rule, s, e).cache
    ensures EntryTrue(rule, delay, Next(rule, s, e), k, Next(rule, s, e).cache[k])
  {
    hide Held, EntryTrue, FlightTrue, Hit, Loaded;
    var t := Next(rule, s, e);
    TruthsKept(rule, delay, s, t);
    if e.act.Store? {
      NewEntry(rule, delay, t, s.flights[e.act.id]);
    }
  }

  lemma StepKeepsFlight<K, V>(rule: Rule<K, V>, delay: nat, s: State<K, V>, e: Event<K, V>, id: nat)
    requires Inv(rule, delay, s) && Enabled(rule, delay, s, e) && id in Next(rule, s, e).flights
    ensures FlightTrue(rule, Next(rule, s, e), Next(rule, s, e).flights[id])
  {
    hide Held, EntryTrue, FlightTrue, Hit, Loaded, Swept;
    var t := Next(rule, s, e);
    TruthsKept(rule, delay, s, t);
    if e.act.WriteThrough? {
      WrittenIsCurrent(rule, s, e.at, e.act.id, e.act.key, e.act.value);
      NewFlight(rule, t, e.act.key, e.act.value);
    } else if e.act.Read? && Current(rule, s, s.missed[e.act.id]).Some? {
      NewFlight(rule, t, s.missed[e.act.id], Current(rule, s, s.missed[e.act.id]).value);
    }
  }

  lemma StepKeeps<K, V>(rule: Rule<K, V>, delay: nat, s: State<K, V>, e: Event<K, V>)
    requires Inv(rule, delay, s) && Enabled(rule, delay, s, e)
    ensures Inv(rule, delay, Next(rule, s, e))
  {
    hide Held, EntryTrue, FlightTrue, Hit, Loaded, Swept;
    var t := Next(rule, s, e);
    VersionsGrow(rule, s, e);
    forall k | k in t.cache ensures EntryTrue(rule, delay, t, k, t.cache[k]) {
      StepKeepsCache(rule, delay, s, e, k);
    }
    forall id | id in t.flights ensures FlightTrue(rule, t, t.flights[id]) {
      StepKeepsFlight(rule, delay, s, e, id);
    }
  }

  lemma {:induction false} HeldStays<K, V>(rule: Rule<K, V>, delay: nat, s: State<K, V>, es: seq<Event<K, V>>,
                                           key: K, v: Option<V>, a: int, b: int)
    requires Runs(rule, delay, s, es) && Held(rule, s.versions, key, v, a, b) && a <= s.now
    ensures Held(rule, After(rule, s, es).versions, key, v, a, b)
    decreases |es|
  {
    hide Held, Hit, Loaded;
    if es != [] {
      var t := Next(rule, s, es[0]);
      if t.versions != s.versions {
        HeldKept(rule, s.versions, t.versions[|t.versions| - 1], key, v, a, b);
      }
      HeldStays(rule, delay, t, es[1..], key, v, a, b);
    }
  }

  /** What one step answers is at most the time to live and the delay old. */
  lemma AnswerIsRecent<K, V>(rule: Rule<K, V>, delay: nat, s: State<K, V>, e: Event<K, V>)
    requires Inv(rule, delay, s) && Enabled(rule, delay, s, e) && Answer(rule, s, e).Served?
    ensures var o := Answer(rule, s, e);
            Held(rule, Next(rule, s, e).versions, o.key, o.value, e.at - rule.ttl - delay, e.at)
  {
    hide Held, Loaded;
    var o := Answer(rule, s, e);
    if e.act.Lookup? {
      var c := s.cache[o.key];
      assert EntryTrue(rule, delay, s, o.key, c);
      HeldWider(rule, s.versions, o.key, o.value, c.read, c.read, e.at - rule.ttl - delay, e.at);
    } else if e.act.Read? {
      HeldNow(rule, s.versions, o.key, e.at);
      HeldWider(rule, s.versions, o.key, o.value, e.at, e.at, e.at - rule.ttl - delay, e.at);
    } else {
      var f := s.flights[e.act.id];
      assert FlightTrue(rule, s, f);
      HeldWider(rule, s.versions, o.key, o.value, f.read, f.read, e.at - rule.ttl - delay, e.at);
    }
  }

  /** Whatever interleaves, every answer given at t is what the table held at some instant of the last time to
      live, plus the longest time between a table read and its store.  With delay 0 a read and its store are
      one step. */
  lemma {:induction false} BoundedStaleness<K, V>(rule: Rule<K, V>, delay: nat, s: State<K, V>,
                                                  es: seq<Event<K, V>>, i: nat)
    requires Inv(rule, delay, s) && Runs(rule, delay, s, es)
    requires i < |es| && Answers(rule, s, es)[i].Served?
    ensures var o := Answers(rule, s, es)[i];
            Held(rule, After(rule, s, es).versions, o.key, o.value, es[i].at - rule.ttl - delay, es[i].at)
    decreases |es|
  {
    hide Held, Answer, Enabled, Next, Inv;
    var t := Next(rule, s, es[0]);
    StepKeeps(rule, delay, s, es[0]);
    if i == 0 {
      AnswerIsRecent(rule, delay, s, es[0]);
      var o := Answer(rule, s, es[0]);
      NowMoves(rule, s, es[0]);
      HeldStays(rule, delay, t, es[1..], o.key, o.value, es[0].at - rule.ttl - delay, es[0].at);
    } else {
      BoundedStaleness(rule, delay, t, es[1..], i - 1);
    }
  }

  lemma NowMoves<K, V>(rule: Rule<K, V>, s: State<K, V>, e: Event<K, V>)
    ensures Next(rule, s, e).now == e.at
  {
  }

  lemma StartInv<K, V>(rule: Rule<K, V>, delay: nat, now: int, rows: map<K, V>)
    ensures Inv(rule, delay, Start(now, rows))
  {
  }

  // ---------- The sweep is invisible ----------

  /** The runs agree except for entries that are stale already. */
  ghost predicate SameButStale<K, V>(rule: Rule<K, V>, s: State<K, V>, t: State<K, V>) {
    && t.now <= s.now && s.versions == t.versions && s.missed == t.missed && s.flights == t.flights
    && (forall k :: k in s.cache ==> k in t.cache && t.cache[k] == s.cache[k])
    && (forall k :: k in t.cache && k !in s.cache ==> !Fresh(rule, t.cache[k].at, s.now))
  }

  function Unswept<K, V>(es: seq<Event<K, V>>): seq<Event<K, V>> {
    if es == [] then [] else (if es[0].act.Sweep? then [] else [es[0]]) + Unswept(es[1..])
  }

  /** The answers of a run, leaving out the silent steps. */
  function Said<K, V>(os: seq<Outcome<K, V>>): seq<Outcome<K, V>> {
    if os == [] then [] else (if os[0].Silent? then [] else [os[0]]) + Said(os[1..])
  }

  lemma SweepUnseen<K, V>(rule: Rule<K, V>, s: State<K, V>, t: State<K, V>, at: int)
    requires SameButStale(rule, s, t) && s.now <= at
    ensures SameButStale(rule, Next(rule, s, Event(at, Sweep)), t)
  {
  }

  lemma SameAnswer<K, V>(rule: Rule<K, V>, delay: nat, s: State<K, V>, t: State<K, V>, e: Event<K, V>)
    requires SameButStale(rule, s, t) && Enabled(rule, delay, s, e)
    ensures Enabled(rule, delay, t, e) && Answer(rule, s, e) == Answer(rule, t, e)
    ensures e.act.Lookup? ==> Hit(rule, s, e.act.key, e.at) == Hit(rule, t, e.act.key, e.at)
  {
    hide Loaded;
  }

  lemma SameStep<K, V>(rule: Rule<K, V>, delay: nat, s: State<K, V>, t: State<K, V>, e: Event<K, V>)
    requires SameButStale(rule, s, t) && Enabled(rule, delay, s, e) && !e.act.Sweep?
    ensures SameButStale(rule, Next(rule, s, e), Next(rule, t, e))
  {
    SameAnswer(rule, delay, s, t, e);
    hide Loaded, Hit, Swept, Answer;
  }

  lemma SweepIsSilent<K, V>(rule: Rule<K, V>, delay: nat, s: State<K, V>, e: Event<K, V>)
    requires Enabled(rule, delay, s, e) && e.act.Sweep?
    ensures Answer(rule, s, e).Silent? && s.now <= e.at && e == Event(e.at, Sweep)
  {
  }

  /** Running without the sweeps gives the same answers in the same order. */
  lemma {:induction false} SweepIsInvisible<K, V>(rule: Rule<K, V>, delay: nat, s: State<K, V>, t: State<K, V>,
                                                  es: seq<Event<K, V>>)
    requires SameButStale(rule, s, t) && Runs(rule, delay, s, es)
    ensures Runs(rule, delay, t, Unswept(es))
    ensures Said(Answers(rule, s, es)) == Said(Answers(rule, t, Unswept(es)))
    decreases |es|
  {
    hide SameButStale, Next, Answer, Enabled;
    if es != [] {
      var s' := Next(rule, s, es[0]);
      var rest := Unswept(es[1..]);
      assert Answers(rule, s, es)[1..] == Answers(rule, s', es[1..]);
      if es[0].act.Sweep? {
        SweepIsSilent(rule, delay, s, es[0]);
        SweepUnseen(rule, s, t, es[0].at);
        SweepIsInvisible(rule, delay, s', t, es[1..]);
        assert Unswept(es) == rest;
      } else {
        var t' := Next(rule, t, es[0]);
        SameAnswer(rule, delay, s, t, es[0]);
        SameStep(rule, delay, s, t, es[0]);
        SweepIsInvisible(rule, delay, s', t', es[1..]);
        assert Unswept(es) == [es[0]] + rest && ([es[0]] + rest)[1..] == rest;
        assert Answers(rule, t, Unswept(es))[1..] == Answers(rule, t', rest);
      }
    }
  }

  // ---------- When nothing old is served any more ----------

  /** No entry that is still fresh and no read that can still be stored differs from the table. */
  ghost predicate Clean<K, V>(rule: Rule<K, V>, delay: nat, s: State<K, V>, key: K) {
    && (Hit(rule, s, key, s.now) ==> Current(rule, s, key) == Some(s.cache[key].value))
    && ReadsAreCurrent(rule, delay, s, s.flights, key)
  }

  ghost predicate ReadsAreCurrent<K, V>(rule: Rule<K, V>, delay: nat, s: State<K, V>,
                                        flights: map<nat, Flight<K, V>>, key: K) {
    forall id :: id in flights && flights[id].key == key && s.now - flights[id].read <= delay ==>
      Current(rule, s, key) == Some(flights[id].value)
  }

  /** Every answer about the key from here on is something the table has held since, whatever happens. */
  ghost predicate NothingOldIsServed<K(!new), V(!new)>(rule: Rule<K, V>, delay: nat, s: State<K, V>, key: K) {
    forall es, i :: Runs(rule, delay, s, es) && 0 <= i < |es| && Answers(rule, s, es)[i].Served?
                    && Answers(rule, s, es)[i].key == key ==>
      HeldSince(rule, After(rule, s, es).versions, |s.versions| - 1, key, Answers(rule, s, es)[i].value)
  }

  /** As Clean, but measured against everything the table has held since its n-th version. */
  ghost predicate CleanSince<K, V>(rule: Rule<K, V>, delay: nat, s: State<K, V>, n: int, key: K) {
    && n < |s.versions|
    && (Hit(rule, s, key, s.now) ==> HeldSince(rule, s.versions, n, key, Some(s.cache[key].value)))
    && (forall id :: id in s.flights && s.flights[id].key == key && s.now - s.flights[id].read <= delay ==>
          HeldSince(rule, s.versions, n, key, Some(s.flights[id].value)))
  }

  lemma SinceNow<K, V>(rule: Rule<K, V>, s: State<K, V>, n: int, key: K)
    requires s.versions != [] && n < |s.versions|
    ensures HeldSince(rule, s.versions, n, key, Current(rule, s, key))
  {
    assert Loaded(rule, s.versions[|s.versions| - 1].rows, key) == Current(rule, s, key);
  }

  lemma SinceKept<K, V>(rule: Rule<K, V>, vs: seq<Version<K, V>>, ws: seq<Version<K, V>>, n: int, key: K, v: Option<V>)
    requires vs <= ws && HeldSince(rule, vs, n, key, v)
    ensures HeldSince(rule, ws, n, key, v)
  {
    var i :| 0 <= i < |vs| && n <= i && Loaded(rule, vs[i].rows, key) == v;
    assert ws[i] == vs[i];
  }

  lemma VersionsGrow<K, V>(rule: Rule<K, V>, s: State<K, V>, e: Event<K, V>)
    ensures s.versions <= Next(rule, s, e).versions
  {
  }

  lemma WrittenIsCurrent<K, V>(rule: Rule<K, V>, s: State<K, V>, at: int, id: nat, key: K, v: V)
    requires s.versions != []
    ensures Current(rule, Next(rule, s, Event(at, WriteThrough(id, key, v))), key) == Some(v)
  {
  }

  /** What the lookup of a key may still be answered from, as far as the cache goes. */
  ghost predicate CleanCache<K, V>(rule: Rule<K, V>, s: State<K, V>, n: int, key: K) {
    Hit(rule, s, key, s.now) ==> HeldSince(rule, s.versions, n, key, Some(s.cache[key].value))
  }

  ghost predicate CleanFlight<K, V>(rule: Rule<K, V>, delay: nat, s: State<K, V>, n: int, key: K, f: Flight<K, V>) {
    f.key == key && s.now - f.read <= delay ==> HeldSince(rule, s.versions, n, key, Some(f.value))
  }

  lemma CleanCacheStep<K, V>(rule: Rule<K, V>, delay: nat, s: State<K, V>, e: Event<K, V>, n: int, key: K)
    requires CleanSince(rule, delay, s, n, key) && Enabled(rule, delay, s, e)
    ensures CleanCache(rule, Next(rule, s, e), n, key)
  {
    hide HeldSince, Loaded;
    var t := Next(rule, s, e);
    VersionsGrow(rule, s, e);
    if Hit(rule, s, key, s.now) {
      SinceKept(rule, s.versions, t.versions, n, key, Some(s.cache[key].value));
    }
    if e.act.Store? && s.flights[e.act.id].key == key {
      SinceKept(rule, s.versions, t.versions, n, key, Some(s.flights[e.act.id].value));
    }
  }

  lemma CleanFlightStep<K, V>(rule: Rule<K, V>, delay: nat, s: State<K, V>, e: Event<K, V>, n: int, key: K, id: nat)
    requires CleanSince(rule, delay, s, n, key) && Enabled(rule, delay, s, e) && s.versions != []
    requires id in Next(rule, s, e).flights
    ensures CleanFlight(rule, delay, Next(rule, s, e), n, key, Next(rule, s, e).flights[id])
  {
    hide HeldSince, Loaded, Hit, Swept;
    var t := Next(rule, s, e);
    VersionsGrow(rule, s, e);
    SinceNow(rule, t, n, key);
    if e.act.WriteThrough? {
      WrittenIsCurrent(rule, s, e.at, e.act.id, e.act.key, e.act.value);
    }
    if id in s.flights && s.flights[id].key == key && s.now - s.flights[id].read <= delay {
      SinceKept(rule, s.versions, t.versions, n, key, Some(s.flights[id].value));
    }
  }

  lemma CleanAnswer<K, V>(rule: Rule<K, V>, delay: nat, s: State<K, V>, e: Event<K, V>, n: int, key: K)
    requires CleanSince(rule, delay, s, n, key) && Enabled(rule, delay, s, e) && s.versions != []
    requires Answer(rule, s, e).Served? && Answer(rule, s, e).key == key
    ensures HeldSince(rule, s.versions, n, key, Answer(rule, s, e).value)
  {
    hide HeldSince, Loaded;
    if e.act.Read? {
      SinceNow(rule, s, n, key);
    }
  }

  lemma CleanStep<K, V>(rule: Rule<K, V>, delay: nat, s: State<K, V>, e: Event<K, V>, n: int, key: K)
    requires CleanSince(rule, delay, s, n, key) && Enabled(rule, delay, s, e) && s.versions != []
    ensures CleanSince(rule, delay, Next(rule, s, e), n, key)
    ensures Answer(rule, s, e).Served? && Answer(rule, s, e).key == key ==>
              HeldSince(rule, Next(rule, s, e).versions, n, key, Answer(rule, s, e).value)
  {
    hide HeldSince, Loaded, Hit, Answer, Enabled, Next;
    var t := Next(rule, s, e);
    VersionsGrow(rule, s, e);
    CleanCacheStep(rule, delay, s, e, n, key);
    forall id | id in t.flights && t.flights[id].key == key && t.now - t.flights[id].read <= delay
      ensures HeldSince(rule, t.versions, n, key, Some(t.flights[id].value))
    {
      CleanFlightStep(rule, delay, s, e, n, key, id);
    }
    if Answer(rule, s, e).Served? && Answer(rule, s, e).key == key {
      CleanAnswer(rule, delay, s, e, n, key);
      SinceKept(rule, s.versions, t.versions, n, key, Answer(rule, s, e).value);
    }
  }

  lemma {:induction false} CleanRun<K, V>(rule: Rule<K, V>, delay: nat, s: State<K, V>, es: seq<Event<K, V>>,
                                          n: int, key: K, i: nat)
    requires CleanSince(rule, delay, s, n, key) && s.versions != [] && Runs(rule, delay, s, es)
    requires i < |es| && Answers(rule, s, es)[i].Served? && Answers(rule, s, es)[i].key == key
    ensures HeldSince(rule, After(rule, s, es).versions, n, key, Answers(rule, s, es)[i].value)
    decreases |es|
  {
    hide HeldSince, Answer, Enabled, Next, CleanSince;
    var t := Next(rule, s, es[0]);
    CleanStep(rule, delay, s, es[0], n, key);
    VersionsGrow(rule, s, es[0]);
    if i == 0 {
      RunGrows(rule, t, es[1..]);
      SinceKept(rule, t.versions, After(rule, t, es[1..]).versions, n, key, Answer(rule, s, es[0]).value);
    } else {
      CleanRun(rule, delay, t, es[1..], n, key, i - 1);
    }
  }

  lemma {:induction false} RunGrows<K, V>(rule: Rule<K, V>, s: State<K, V>, es: seq<Event<K, V>>)
    ensures s.versions <= After(rule, s, es).versions
    decreases |es|
  {
    hide Next;
    if es != [] {
      VersionsGrow(rule, s, es[0]);
      RunGrows(rule, Next(rule, s, es[0]), es[1..]);
    }
  }

  lemma OneEvent<K, V>(rule: Rule<K, V>, delay: nat, s: State<K, V>, e: Event<K, V>)
    requires Enabled(rule, delay, s, e)
    ensures Runs(rule, delay, s, [e]) && After(rule, s, [e]) == Next(rule, s, e)
    ensures Answers(rule, s, [e])[0] == Answer(rule, s, e)
  {
    hide Enabled, Next, Answer;
    assert [e][1..] == [];
  }

  lemma LastVersionOnly<K, V>(rule: Rule<K, V>, s: State<K, V>, key: K, v: Option<V>)
    requires s.versions != [] && HeldSince(rule, s.versions, |s.versions| - 1, key, v)
    ensures Current(rule, s, key) == v
  {
  }

  /** An old value is never served again exactly when the cache holds none and no read of one is in the air. */
  lemma NothingOldIsServedIff<K(!new), V(!new)>(rule: Rule<K, V>, delay: nat, s: State<K, V>, key: K)
    requires s.versions != []
    ensures NothingOldIsServed(rule, delay, s, key) <==> Clean(rule, delay, s, key)
  {
    hide HeldSince, Current, Runs, After, Answers;
    var n := |s.versions| - 1;
    SinceNow(rule, s, n, key);
    if Clean(rule, delay, s, key) {
      forall es, i | Runs(rule, delay, s, es) && 0 <= i < |es| && Answers(rule, s, es)[i].Served?
                     && Answers(rule, s, es)[i].key == key
        ensures HeldSince(rule, After(rule, s, es).versions, n, key, Answers(rule, s, es)[i].value)
      {
        CleanRun(rule, delay, s, es, n, key, i);
      }
    }
    if NothingOldIsServed(rule, delay, s, key) {
      if Hit(rule, s, key, s.now) {
        ServedNext(rule, delay, s, Event(s.now, Lookup(0, key)), key);
      }
      forall id | id in s.flights && s.flights[id].key == key && s.now - s.flights[id].read <= delay
        ensures Current(rule, s, key) == Some(s.flights[id].value)
      {
        ServedNext(rule, delay, s, Event(s.now, Store(id)), key);
      }
    }
  }

  lemma ServedNext<K(!new), V(!new)>(rule: Rule<K, V>, delay: nat, s: State<K, V>, e: Event<K, V>, key: K)
    requires NothingOldIsServed(rule, delay, s, key) && s.versions != []
    requires Enabled(rule, delay, s, e) && Answer(rule, s, e).Served? && Answer(rule, s, e).key == key
    ensures Current(rule, s, key) == Answer(rule, s, e).value
  {
    hide HeldSince, Current, Runs, After, Answers, Enabled;
    OneEvent(rule, delay, s, e);
    var es := [e];
    assert Runs(rule, delay, s, es) && Answers(rule, s, es)[0].Served?;
    assert HeldSince(rule, After(rule, s, es).versions, |s.versions| - 1, key, Answers(rule, s, es)[0].value);
    LastVersionOnly(rule, s, key, Answer(rule, s, e).value);
  }

  /** Invalidation alone takes effect exactly when no read of an old row is waiting to be stored. */
  lemma InvalidateTakesEffectIff<K(!new), V(!new)>(rule: Rule<K, V>, delay: nat, s: State<K, V>, at: int, key: K)
    requires s.versions != []
    ensures var t := Next(rule, s, Event(at, Invalidate(key)));
            NothingOldIsServed(rule, delay, t, key) <==> ReadsAreCurrent(rule, delay, t, s.flights, key)
  {
    hide NothingOldIsServed;
    NothingOldIsServedIff(rule, delay, Next(rule, s, Event(at, Invalidate(key))), key);
  }

  /** An upsert whose two halves nothing separates takes effect exactly under the same condition. */
  lemma UpsertTakesEffectIff<K(!new), V(!new)>(rule: Rule<K, V>, delay: nat, s: State<K, V>, at: int, done: int,
                                               id: nat, key: K, v: V)
    requires s.versions != [] && id !in s.missed && id !in s.flights
    ensures var t := Next(rule, Next(rule, s, Event(at, WriteThrough(id, key, v))), Event(done, Store(id)));
            && Current(rule, t, key) == Some(v) && key in t.cache && t.cache[key].value == v
            && (NothingOldIsServed(rule, delay, t, key) <==> ReadsAreCurrent(rule, delay, t, s.flights, key))
  {
    hide NothingOldIsServed;
    var m := Next(rule, s, Event(at, WriteThrough(id, key, v)));
    var t := Next(rule, m, Event(done, Store(id)));
    WrittenIsCurrent(rule, s, at, id, key, v);
    assert t.flights == s.flights;
    NothingOldIsServedIff(rule, delay, t, key);
  }

  function NoFallback(key: string): Option<string> { None }

  /** A value that has been read and not stored survives an invalidation. */
  lemma StoredAfterInvalidation<K, V>(rule: Rule<K, V>, s: State<K, V>, key: K, v: V)
    requires 0 in s.flights && 1 !in s.missed && s.flights[0] == Flight(key, v, 0) && s.now == 1 && rule.ttl > 1
    ensures var es := [Event(2, Invalidate(key)), Event(3, Store(0)), Event(4, Lookup(1, key))];
            Runs(rule, 3, s, es) && Answers(rule, s, es)[2] == Served(key, Some(v))
  {
    hide Runs, Answers, After, Swept;
    var a, b, c: Event<K, V> := Event(2, Invalidate(key)), Event(3, Store(0)), Event(4, Lookup(1, key));
    var s1 := Next(rule, s, a);
    var s2 := Next(rule, s1, b);
    OneEvent(rule, 3, s2, c);
    Prepend(rule, 3, s1, b, [c]);
    Prepend(rule, 3, s, a, [b, c]);
    assert [a, b, c] == [a] + [b, c] && [b, c] == [b] + [c];
  }

  /** Such a read is possible: a key is looked up, disabled and invalidated, and yet accepted afterwards. */
  lemma InvalidateCanBeOvertaken()
    ensures var rule := Rule(60 * SECOND, false, NoFallback);
            var es := [Event(0, Lookup(0, "key")), Event(0, Read(0)), Event(1, Write(map[]))]
                      + [Event(2, Invalidate("key")), Event(3, Store(0)), Event(4, Lookup(1, "key"))];
            var s := Start(0, map["key" := "tenant"]);
            && Runs(rule, 3, s, es) && Answers(rule, s, es)[5] == Served("key", Some("tenant"))
  {
    hide Runs, Answers, After, Swept;
    var rule := Rule(60 * SECOND, false, NoFallback);
    var e0, e1, e2: Event<string, string> := Event(0, Lookup(0, "key")), Event(0, Read(0)), Event(1, Write(map[]));
    var rest := [Event(2, Invalidate("key")), Event(3, Store(0)), Event(4, Lookup(1, "key"))];
    var s0 := Start(0, map["key" := "tenant"]);
    var s1 := Next(rule, s0, e0);
    assert s1.missed == map[0 := "key"];
    var s2 := Next(rule, s1, e1);
    var s3 := Next(rule, s2, e2);
    StoredAfterInvalidation(rule, s3, "key", "tenant");
    Prepend(rule, 3, s2, e2, rest);
    Prepend(rule, 3, s1, e1, [e2] + rest);
    Prepend(rule, 3, s0, e0, [e1] + ([e2] + rest));
    assert [e0, e1, e2] + rest == [e0] + ([e1] + ([e2] + rest));
  }

  lemma Prepend<K, V>(rule: Rule<K, V>, delay: nat, s: State<K, V>, e: Event<K, V>, es: seq<Event<K, V>>)
    requires Enabled(rule, delay, s, e) && Runs(rule, delay, Next(rule, s, e), es)
    ensures Runs(rule, delay, s, [e] + es)
    ensures Answers(rule, s, [e] + es) == [Answer(rule, s, e)] + Answers(rule, Next(rule, s, e), es)
  {
    assert ([e] + es)[1..] == es;
  }

  // ---------- One caller's whole lookup ----------

  /** The steps of a lookup that nothing separates: one for a hit, two for a miss that finds nothing, else three. */
  function Fetch<K, V>(rule: Rule<K, V>, s: State<K, V>, key: K, now: int, done: int): seq<Event<K, V>> {
    if Hit(rule, s, key, now) then [Event(now, Lookup(0, key))]
    else if Current(rule, s, key).None? then [Event(now, Lookup(0, key)), Event(now, Read(0))]
    else [Event(now, Lookup(0, key)), Event(now, Read(0)), Event(done, Store(0))]
  }

  function Fetched<K, V>(rule: Rule<K, V>, s: State<K, V>, key: K, now: int): Option<V> {
    if Hit(rule, s, key, now) then Some(s.cache[key].value) else Current(rule, s, key)
  }

  lemma FetchMeans<K, V>(rule: Rule<K, V>, s: State<K, V>, key: K, now: int, done: int)
    requires s.versions != [] && s.missed == map[] && s.flights == map[] && s.now <= now <= done
    ensures var es, kept := Fetch(rule, s, key, now, done), Hit(rule, s, key, now) || Current(rule, s, key).None?;
            && Runs(rule, done - now, s, es)
            && Answers(rule, s, es)[|es| - 1] == Served(key, Fetched(rule, s, key, now))
            && After(rule, s, es) ==
               if kept then s.(now := now)
               else s.(now := done, cache := s.cache[key := Entry(Current(rule, s, key).value, done, now)])
  {
    hide Current, Fresh;
    var e, f: Event<K, V> := Event(now, Lookup(0, key)), Event(now, Read(0));
    var g: Event<K, V> := Event(done, Store(0));
    if Hit(rule, s, key, now) {
      OneEvent(rule, done - now, s, e);
    } else {
      var m := Next(rule, s, e);
      var n := Next(rule, m, f);
      assert m.missed - {0} == map[] && Current(rule, m, key) == Current(rule, s, key) by {
        SameCurrent(rule, s, m, key);
      }
      if Current(rule, s, key).None? {
        OneEvent(rule, done - now, m, f);
        Prepend(rule, done - now, s, e, [f]);
        assert Fetch(rule, s, key, now, done) == [e] + [f];
      } else {
        OneEvent(rule, done - now, n, g);
        Prepend(rule, done - now, m, f, [g]);
        Prepend(rule, done - now, s, e, [f] + [g]);
        assert n.flights - {0} == map[];
        assert Fetch(rule, s, key, now, done) == [e] + ([f] + [g]) && ([e] + ([f] + [g]))[1..] == [f] + [g];
        assert ([f] + [g])[1..] == [g];
      }
    }
  }

  lemma SameCurrent<K, V>(rule: Rule<K, V>, s: State<K, V>, t: State<K, V>, key: K)
    requires s.versions == t.versions
    ensures Current(rule, s, key) == Current(rule, t, key)
  {
  }
}
