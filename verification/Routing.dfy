/** The router's use of breakers, ranking and health for one request, and why breaker and health agree. */
module Routing {
  import opened Base
  import opened Sorting
  import opened Percentile
  import opened Health
  import opened Scoring
  import CB = CircuitBreaker

  type Breakers = map<string, CB.Breaker>
  type Histories = map<string, seq<Outcome>>

  /** The registry makes a new breaker for a model it has not seen. */
  function BreakerOf(bs: Breakers, id: string): CB.Breaker {
    if id in bs then bs[id] else CB.NEW
  }

  function HistoryOf(hs: Histories, id: string): seq<Outcome> {
    if id in hs then hs[id] else []
  }

  /** How many of the latest outcomes failed without a success after them. */
  function Trailing(h: seq<Outcome>): (n: nat)
    ensures n <= |h|
  {
    if h == [] || h[|h| - 1].Succeeded? then 0 else Trailing(h[..|h| - 1]) + 1
  }

  ghost predicate Agree(b: CB.Breaker, h: seq<Outcome>) {
    && b.failures == Trailing(h)
    && (b.state == CB.Closed ==> b.failures < CB.DEFAULT.threshold)
  }

  /** `at` is the clock when the model's breaker is asked. */
  predicate Admitted(bs: Breakers, at: string -> real, id: string) {
    CB.Allows(CB.DEFAULT, BreakerOf(bs, id), at(id))
  }

  /** Refused are the models whose breaker is open and saw its last failure within twenty seconds. */
  ghost predicate Unrefused(bs: Breakers, at: string -> real, ms: seq<ModelRecord>, passed: seq<ModelRecord>) {
    forall m :: m in passed <==>
      m in ms && var b := BreakerOf(bs, m.modelId);
                 b.state != CB.Open || at(m.modelId) - b.lastFail > 20.0
  }

  lemma AdmittedMeans(bs: Breakers, at: string -> real, ms: seq<ModelRecord>)
    ensures Unrefused(bs, at, ms, Filter(ms, Admits(bs, at)))
  {
    forall m ensures m in Filter(ms, Admits(bs, at)) <==> m in ms && Admitted(bs, at, m.modelId) {
    }
  }

  function Admits(bs: Breakers, at: string -> real): ModelRecord -> bool {
    (m: ModelRecord) => Admitted(bs, at, m.modelId)
  }

  function SignalsOf(hs: Histories, depth: string -> int): Signals {
    Signals(id => ErrorRateOf(HistoryOf(hs, id)), depth)
  }

  ghost predicate Asked(ms: seq<ModelRecord>, id: string) {
    exists m :: m in ms && m.modelId == id
  }

  /** bs is what becomes of bs0 when the breakers of all of ms have been asked. */
  ghost predicate AllAsked(bs0: Breakers, bs: Breakers, ms: seq<ModelRecord>, at: string -> real) {
    forall id: string :: BreakerOf(bs, id) == AfterAsking(bs0, ms, at, id)
  }

  ghost function AfterAsking(bs0: Breakers, ms: seq<ModelRecord>, at: string -> real, id: string): CB.Breaker {
    if Asked(ms, id) then CB.Step(CB.DEFAULT, BreakerOf(bs0, id), CB.Allow(at(id))) else BreakerOf(bs0, id)
  }

  lemma AskingOneMore(bs0: Breakers, bs: Breakers, ms: seq<ModelRecord>, m: ModelRecord, at: string -> real)
    requires AllAsked(bs0, bs, ms, at)
    ensures var b := BreakerOf(bs, m.modelId);
            && CB.Allows(CB.DEFAULT, b, at(m.modelId)) == Admitted(bs0, at, m.modelId)
            && AllAsked(bs0, bs[m.modelId := CB.Step(CB.DEFAULT, b, CB.Allow(at(m.modelId)))], ms + [m], at)
  {
    var b := BreakerOf(bs, m.modelId);
    var bs' := bs[m.modelId := CB.Step(CB.DEFAULT, b, CB.Allow(at(m.modelId)))];
    assert BreakerOf(bs, m.modelId) == AfterAsking(bs0, ms, at, m.modelId);
    forall id: string
      ensures BreakerOf(bs', id) == AfterAsking(bs0, ms + [m], at, id)
    {
      assert BreakerOf(bs, id) == AfterAsking(bs0, ms, at, id);
      AskedOneMore(ms, m, id);
    }
  }

  lemma NobodyAsked(bs: Breakers, at: string -> real)
    ensures AllAsked(bs, bs, [], at)
  {
  }

  lemma AskedOneMore(ms: seq<ModelRecord>, m: ModelRecord, id: string)
    ensures Asked(ms + [m], id) <==> Asked(ms, id) || id == m.modelId
  {
    assert m in ms + [m];
    assert forall x :: x in ms + [m] <==> x in ms || x == m;
  }

  lemma AgreementIsKept(b: CB.Breaker, h: seq<Outcome>, now: real, latencyMs: real)
    requires Agree(b, h)
    ensures Agree(CB.Step(CB.DEFAULT, b, CB.Allow(now)), h)
    ensures Agree(CB.Step(CB.DEFAULT, b, CB.Success(now)), h + [Succeeded(latencyMs)])
    ensures Agree(CB.Step(CB.DEFAULT, b, CB.Failure(now)), h + [Failed])
  {
    hide Trailing;
    TrailingFailure(h);
    TrailingSuccess(h, latencyMs);
  }

  datatype RouteResult = NoModels | DialFailed(id: string) | ExecFailed(id: string) | Routed(id: string)

  function ReportOf(r: RouteResult, done: real): CB.Event {
    if r.Routed? then CB.Success(done) else CB.Failure(done)
  }

  /** A model's breaker after one request: asked if the model is in the table, and told how the request ended if the
      model was chosen. */
  ghost function AfterRoute(bs0: Breakers, ms: seq<ModelRecord>, at: string -> real, id: string,
                            r: RouteResult, done: real): CB.Breaker
  {
    var b := AfterAsking(bs0, ms, at, id);
    if r.NoModels? || r.id != id then b else CB.Step(CB.DEFAULT, b, ReportOf(r, done))
  }

  class Router {
    var breakers: Breakers
    var histories: Histories

    ghost predicate Valid()
      reads this
    {
      forall id: string :: Agree(BreakerOf(breakers, id), HistoryOf(histories, id))
    }

    constructor ()
      ensures Valid() && breakers == map[] && histories == map[]
    {
      breakers, histories := map[], map[];
    }

    /** Every model's breaker is asked; asking may turn it half-open even if the model is not chosen then. */
    method Admit(models: seq<ModelRecord>, at: string -> real) returns (candidates: seq<ModelRecord>, blocked: nat)
      modifies this`breakers
      ensures candidates == Filter(models, Admits(old(breakers), at))
      ensures blocked == |models| - |candidates|
      ensures Unrefused(old(breakers), at, models, candidates)
      ensures AllAsked(old(breakers), breakers, models, at)
    {
      hide AllAsked, Admitted, CB.Allows, CB.Step, Filter, BreakerOf, Unrefused;
      candidates, blocked := [], 0;
      NobodyAsked(breakers, at);
      NothingToFilter(Admits(breakers, at));
      assert models[..0] == [];
      for i := 0 to |models|
        invariant candidates == Filter(models[..i], Admits(old(breakers), at))
        invariant blocked == i - |candidates|
        invariant AllAsked(old(breakers), breakers, models[..i], at)
      {
        var m := models[i];
        assert models[..i + 1][..i] == models[..i] && models[..i + 1] == models[..i] + [m];
        AskingOneMore(old(breakers), breakers, models[..i], m, at);
        FilterLast(models[..i], m, Admits(old(breakers), at));
        var b := BreakerOf(breakers, m.modelId);
        breakers := breakers[m.modelId := CB.Step(CB.DEFAULT, b, CB.Allow(at(m.modelId)))];
        if CB.Allows(CB.DEFAULT, b, at(m.modelId)) {
          candidates := candidates + [m];
        } else {
          blocked := blocked + 1;
        }
      }
      assert models[..|models|] == models;
      AdmittedMeans(old(breakers), at, models);
    }

    method RecordSuccess(id: string, latencyMs: real, now: real)
      requires Valid()
      modifies this
      ensures Valid()
      ensures breakers == old(breakers)[id := CB.Step(CB.DEFAULT, BreakerOf(old(breakers), id), CB.Success(now))]
      ensures histories == old(histories)[id := HistoryOf(old(histories), id) + [Succeeded(latencyMs)]]
    {
      AgreementIsKept(BreakerOf(breakers, id), HistoryOf(histories, id), now, latencyMs);
      breakers := breakers[id := CB.Step(CB.DEFAULT, BreakerOf(breakers, id), CB.Success(now))];
      histories := histories[id := HistoryOf(histories, id) + [Succeeded(latencyMs)]];
      StillAgree(id);
    }

    method RecordFailure(id: string, now: real)
      requires Valid()
      modifies this
      ensures Valid()
      ensures breakers == old(breakers)[id := CB.Step(CB.DEFAULT, BreakerOf(old(breakers), id), CB.Failure(now))]
      ensures histories == old(histories)[id := HistoryOf(old(histories), id) + [Failed]]
    {
      AgreementIsKept(BreakerOf(breakers, id), HistoryOf(histories, id), now, 0.0);
      breakers := breakers[id := CB.Step(CB.DEFAULT, BreakerOf(breakers, id), CB.Failure(now))];
      histories := histories[id := HistoryOf(histories, id) + [Failed]];
      StillAgree(id);
    }

    twostate lemma StillAgree(id: string)
      requires old(Valid()) && Agree(BreakerOf(breakers, id), HistoryOf(histories, id))
      requires forall x: string :: x != id ==>
        BreakerOf(breakers, x) == old(BreakerOf(breakers, x)) && HistoryOf(histories, x) == old(HistoryOf(histories, x))
      ensures Valid()
    {
      forall x: string
        ensures Agree(BreakerOf(breakers, x), HistoryOf(histories, x))
      {
        assert old(Agree(BreakerOf(breakers, x), HistoryOf(histories, x)));
      }
    }

    /** One request: whether the dial and the call succeed, how long it took and when it ended are inputs. */
    method Route(req: ScoringRequest, models: seq<ModelRecord>, depth: string -> int, at: string -> real,
                 dialOk: bool, execOk: bool, latencyMs: real, done: real)
      returns (r: RouteResult, ranked: seq<CandidateScore>)
      requires Valid()
      modifies this
      ensures Valid()
      ensures ranked == Ranked(req, SignalsOf(old(histories), depth), Filter(models, Admits(old(breakers), at)))
      ensures if ranked == [] then r == NoModels && histories == old(histories)
              else
                var id := ranked[0].modelId;
                && Admitted(old(breakers), at, id)
                && r == (if !dialOk then DialFailed(id) else if !execOk then ExecFailed(id) else Routed(id))
                && histories == old(histories)[id := HistoryOf(old(histories), id)
                                                       + [if r.Routed? then Succeeded(latencyMs) else Failed]]
      ensures forall id: string :: BreakerOf(breakers, id) == AfterRoute(old(breakers), models, at, id, r, done)
    {
      hide CB.Step, CB.Allows, StableSort, Filter, ScoreOne, Agree, IsRanking, Unrefused;
      var candidates, blocked := Admit(models, at);
      assert forall id: string :: BreakerOf(breakers, id) == AfterAsking(old(breakers), models, at, id);
      assert Valid() by {
        forall id: string
          ensures Agree(BreakerOf(breakers, id), HistoryOf(histories, id))
        {
          AgreementIsKept(BreakerOf(old(breakers), id), HistoryOf(histories, id), at(id), 0.0);
          assert BreakerOf(breakers, id) == AfterAsking(old(breakers), models, at, id);
        }
      }
      var sig := SignalsOf(histories, depth);
      ranked := Score(req, sig, candidates);
      if |ranked| == 0 {
        r := NoModels;
        return;
      }
      var primary := ranked[0];
      BestIsAdmitted(req, sig, models, old(breakers), at);
      if !dialOk {
        RecordFailure(primary.modelId, done);
        r := DialFailed(primary.modelId);
        return;
      }
      if !execOk {
        RecordFailure(primary.modelId, done);
        r := ExecFailed(primary.modelId);
        return;
      }
      RecordSuccess(primary.modelId, latencyMs, done);
      r := Routed(primary.modelId);
    }
  }

  lemma BestIsAdmitted(req: ScoringRequest, sig: Signals, ms: seq<ModelRecord>, bs: Breakers, at: string -> real)
    requires Ranked(req, sig, Filter(ms, Admits(bs, at))) != []
    ensures Admitted(bs, at, Ranked(req, sig, Filter(ms, Admits(bs, at)))[0].modelId)
  {
    RankedAreCandidates(req, sig, Filter(ms, Admits(bs, at)), 0);
  }

  lemma TrailingFailure(h: seq<Outcome>)
    ensures Trailing(h + [Failed]) == Trailing(h) + 1
  {
    assert (h + [Failed])[..|h|] == h;
  }

  lemma TrailingSuccess(h: seq<Outcome>, latencyMs: real)
    ensures Trailing(h + [Succeeded(latencyMs)]) == 0
  {
  }

  lemma RankedAreCandidates(req: ScoringRequest, sig: Signals, ms: seq<ModelRecord>, i: nat)
    requires i < |Ranked(req, sig, ms)|
    ensures Asked(ms, Ranked(req, sig, ms)[i].modelId)
  {
    var u := Unranked(req, sig, ms);
    SortSorts(u, Rank);
    assert Ranked(req, sig, ms)[i] in multiset(u);
    var j :| 0 <= j < |u| && u[j] == Ranked(req, sig, ms)[i];
    var m := Filter(ms, IsEligible(req))[j];
    assert m in ms && m.modelId == u[j].modelId;
  }

  // ---------- The best of those the breakers let through ----------

  lemma {:induction false} FilterSame<T>(s: seq<T>, p: T -> bool, q: T -> bool)
    requires forall i :: 0 <= i < |s| ==> p(s[i]) == q(s[i])
    ensures Filter(s, p) == Filter(s, q)
  {
    if s != [] {
      FilterSame(s[..|s| - 1], p, q);
    }
  }

  /** Asking the breakers before scoring picks from the very ranking that scoring every model would give. */
  lemma BlockedModelsOnlyDropOut(req: ScoringRequest, sig: Signals, ms: seq<ModelRecord>,
                                 bs: Breakers, at: string -> real)
    ensures var ids := set m | m in ms && Admitted(bs, at, m.modelId) :: m.modelId;
            Ranked(req, sig, Filter(ms, Admits(bs, at))) == Filter(Ranked(req, sig, ms), KeepsScore(ids))
  {
    var ids := set m | m in ms && Admitted(bs, at, m.modelId) :: m.modelId;
    FilterSame(ms, Admits(bs, at), Keeps(ids));
    LeavingOutCommutes(req, sig, ms, ids);
  }

  // ---------- Runs of requests ----------

  /** One request as its models' breakers see it. */
  datatype Handled = Handled(models: seq<ModelRecord>, at: string -> real, result: RouteResult, done: real)

  ghost function EventsOf(h: Handled, id: string): seq<CB.Event> {
    (if Asked(h.models, id) then [CB.Allow(h.at(id))] else [])
    + if h.result.NoModels? || h.result.id != id then [] else [ReportOf(h.result, h.done)]
  }

  ghost function Events(hs: seq<Handled>, id: string): seq<CB.Event> {
    if hs == [] then [] else Events(hs[..|hs| - 1], id) + EventsOf(hs[|hs| - 1], id)
  }

  /** The breakers before, between and after the requests, as Route leaves them. */
  ghost predicate Chain(bss: seq<Breakers>, hs: seq<Handled>) {
    && |bss| == |hs| + 1 && bss[0] == map[]
    && forall i, id: string :: 0 <= i < |hs| ==>
         BreakerOf(bss[i + 1], id) == AfterRoute(bss[i], hs[i].models, hs[i].at, id, hs[i].result, hs[i].done)
  }

  lemma RunOneMore(evs: seq<CB.Event>, e: CB.Event)
    ensures CB.Run(CB.DEFAULT, evs + [e]) == CB.Step(CB.DEFAULT, CB.Run(CB.DEFAULT, evs), e)
  {
    assert (evs + [e])[..|evs|] == evs;
  }

  lemma RequestExtendsRun(bs: Breakers, h: Handled, id: string, evs: seq<CB.Event>)
    requires BreakerOf(bs, id) == CB.Run(CB.DEFAULT, evs)
    ensures AfterRoute(bs, h.models, h.at, id, h.result, h.done) == CB.Run(CB.DEFAULT, evs + EventsOf(h, id))
  {
    hide CB.Step, CB.Run, Asked;
    var mid := if Asked(h.models, id) then evs + [CB.Allow(h.at(id))] else evs;
    RunOneMore(evs, CB.Allow(h.at(id)));
    RunOneMore(mid, ReportOf(h.result, h.done));
    assert evs + EventsOf(h, id)
        == if h.result.NoModels? || h.result.id != id then mid else mid + [ReportOf(h.result, h.done)];
  }

  /** Along any run of requests every model's breaker is what its own events make of a new one. */
  lemma {:induction false} BreakersFollowRequests(bss: seq<Breakers>, hs: seq<Handled>, id: string)
    requires Chain(bss, hs)
    ensures BreakerOf(bss[|hs|], id) == CB.Run(CB.DEFAULT, Events(hs, id))
    decreases |hs|
  {
    hide CB.Step, CB.Run, AfterRoute, EventsOf;
    if hs == [] {
      NoEvents();
    } else {
      var n := |hs| - 1;
      BreakersFollowRequests(bss[..n + 1], hs[..n], id);
      RequestExtendsRun(bss[n], hs[n], id, Events(hs[..n], id));
      assert BreakerOf(bss[n + 1], id)
          == AfterRoute(bss[n], hs[n].models, hs[n].at, id, hs[n].result, hs[n].done);
    }
  }

  lemma NoEvents()
    ensures CB.Run(CB.DEFAULT, []) == CB.NEW
  {
  }

  // ---------- Breaker and health ----------

  /** A full look back: the latest hundred outcomes stand at the slots behind head. */
  lemma {:induction false} RingLatest(h: seq<Outcome>, p: nat)
    requires p < |h| <= p + RING_SIZE
    ensures Ring(Bits(h), RING_SIZE, 0)[p % RING_SIZE] == Bit(h[p])
  {
    hide Ring, Bits;
    var n := |h| - 1;
    assert h == h[..n] + [h[n]];
    Bits1(h[..n], h[n]);
    RingGrows(Bits(h[..n]), Bit(h[n]), RING_SIZE, 0);
    if p < n {
      RingLatest(h[..n], p);
      SlotsDiffer(p, n);
    }
  }

  lemma SlotsDiffer(p: nat, n: nat)
    requires p < n < p + RING_SIZE
    ensures p % RING_SIZE != n % RING_SIZE
  {
  }

  lemma {:induction false} TrailingAreFailures(h: seq<Outcome>, j: nat)
    requires j < Trailing(h)
    ensures h[|h| - 1 - j].Failed?
  {
    if j > 0 {
      TrailingAreFailures(h[..|h| - 1], j - 1);
    }
  }

  /** As many slots behind the ring's head hold failures as the breaker counts, up to the size of the ring. */
  lemma BreakerCountShowsInRing(b: CB.Breaker, h: seq<Outcome>, j: nat)
    requires Agree(b, h) && j < b.failures && j < RING_SIZE
    ensures j < |h| && Ring(Bits(h), RING_SIZE, 0)[(|h| - 1 - j) % RING_SIZE] == 0
  {
    TrailingAreFailures(h, j);
    RingLatest(h, |h| - 1 - j);
  }
}
