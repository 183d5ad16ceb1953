/** The per-model circuit breaker, and what holds over whole runs of it. */
module CircuitBreaker {

  datatype State = Closed | Open | HalfOpen

  datatype Config = Config(threshold: int, successReq: int, timeout: real)

  /** Three failures open it; two successes close it again; it stays open for twenty seconds. */
  const DEFAULT := Config(3, 2, 20.0)

  datatype Breaker = Breaker(state: State, failures: int, successes: int, lastFail: real)

  const NEW := Breaker(Closed, 0, 0, 0.0)

  datatype Event = Allow(at: real) | Success(at: real) | Failure(at: real)

  /** An open breaker lets a request through only when the last failure is further back than the timeout. */
  predicate Waited(cfg: Config, b: Breaker, now: real) {
    now - b.lastFail > cfg.timeout
  }

  predicate Allows(cfg: Config, b: Breaker, now: real) {
    b.state != Open || Waited(cfg, b, now)
  }

  function Step(cfg: Config, b: Breaker, e: Event): Breaker {
    match e
    case Allow(now) =>
      if b.state == Open && Waited(cfg, b, now) then b.(state := HalfOpen, successes := 0) else b
    case Success(_) =>
      if b.state == HalfOpen then
        b.(failures := 0, successes := b.successes + 1,
           state := if b.successes + 1 >= cfg.successReq then Closed else HalfOpen)
      else b.(failures := 0)
    case Failure(now) =>
      Breaker(if b.state == HalfOpen || b.failures + 1 >= cfg.threshold then Open else b.state,
              b.failures + 1, 0, now)
  }

  function Run(cfg: Config, evs: seq<Event>): Breaker {
    if evs == [] then NEW else Step(cfg, Run(cfg, evs[..|evs| - 1]), evs[|evs| - 1])
  }

  /** The breaker before event k. */
  function Before(cfg: Config, evs: seq<Event>, k: nat): Breaker
    requires k <= |evs|
  {
    Run(cfg, evs[..k])
  }

  lemma BeforeStep(cfg: Config, evs: seq<Event>, k: nat)
    requires k < |evs|
    ensures Before(cfg, evs, k + 1) == Step(cfg, Before(cfg, evs, k), evs[k])
  {
    assert evs[..k + 1][..k] == evs[..k];
  }

  // ---------- The class ----------

  class Guard {
    var state: State
    var failures: int
    var successes: int
    var lastFail: real
    const threshold: int
    const successReq: int
    const timeout: real
    ghost var log: seq<Event>

    ghost function Cfg(): Config { Config(threshold, successReq, timeout) }

    ghost predicate Valid()
      reads this
    {
      Breaker(state, failures, successes, lastFail) == Run(Cfg(), log)
    }

    constructor ()
      ensures Valid() && log == [] && Cfg() == DEFAULT
    {
      state, failures, successes, lastFail, log := Closed, 0, 0, 0.0, [];
      threshold, successReq, timeout := 3, 2, 20.0;
    }

    method AllowRequest(now: real) returns (ok: bool)
      requires Valid()
      modifies this
      ensures Valid() && log == old(log) + [Allow(now)]
      ensures ok == Allows(Cfg(), Run(Cfg(), old(log)), now)
      ensures ok <==> old(state) != Open || now - old(lastFail) > timeout
    {
      log := log + [Allow(now)];
      assert log[..|log| - 1] == old(log);
      if state == Open {
        if now - lastFail > timeout {
          state := HalfOpen;
          successes := 0;
          return true;
        }
        return false;
      }
      return true;
    }

    method RecordSuccess(ghost now: real)
      requires Valid()
      modifies this
      ensures Valid() && log == old(log) + [Success(now)]
    {
      log := log + [Success(now)];
      assert log[..|log| - 1] == old(log);
      failures := 0;
      if state == HalfOpen {
        successes := successes + 1;
        if successes >= successReq {
          state := Closed;
        }
      }
    }

    method RecordFailure(now: real)
      requires Valid()
      modifies this
      ensures Valid() && log == old(log) + [Failure(now)]
    {
      log := log + [Failure(now)];
      assert log[..|log| - 1] == old(log);
      failures := failures + 1;
      successes := 0;
      lastFail := now;
      if state == HalfOpen || failures >= threshold {
        state := Open;
      }
    }
  }

  // ---------- Entries into Open are far apart ----------

  ghost predicate Monotone(evs: seq<Event>) {
    forall i, j :: 0 <= i < j < |evs| ==> evs[i].at <= evs[j].at
  }

  ghost predicate Opens(cfg: Config, evs: seq<Event>, k: nat) {
    k < |evs| && Before(cfg, evs, k).state != Open && Before(cfg, evs, k + 1).state == Open
  }

  /** Event a is the Allow that turned an open breaker half-open. */
  ghost predicate Probes(cfg: Config, evs: seq<Event>, a: nat) {
    && a < |evs| && evs[a].Allow?
    && Before(cfg, evs, a).state == Open && Waited(cfg, Before(cfg, evs, a), evs[a].at)
  }

  lemma {:induction false} LastFailGrows(cfg: Config, evs: seq<Event>, i: nat, k: nat)
    requires Monotone(evs) && i < k <= |evs| && evs[i].Failure?
    ensures Before(cfg, evs, k).lastFail >= evs[i].at
    decreases k
  {
    BeforeStep(cfg, evs, k - 1);
    if i < k - 1 {
      LastFailGrows(cfg, evs, i, k - 1);
    }
  }

  /** The only way out of Open is a probe. */
  lemma {:induction false} LeavingOpen(cfg: Config, evs: seq<Event>, i: nat, j: nat) returns (a: nat)
    requires i <= j <= |evs|
    requires Before(cfg, evs, i).state == Open && Before(cfg, evs, j).state != Open
    ensures i <= a < j && Probes(cfg, evs, a)
    decreases j
  {
    BeforeStep(cfg, evs, j - 1);
    if Before(cfg, evs, j - 1).state == Open {
      a := j - 1;
    } else {
      a := LeavingOpen(cfg, evs, i, j - 1);
    }
  }

  lemma OpeningsFarApart(cfg: Config, evs: seq<Event>, i: nat, j: nat)
    requires Monotone(evs) && i < j && Opens(cfg, evs, i) && Opens(cfg, evs, j)
    ensures evs[j].at - evs[i].at > cfg.timeout
  {
    BeforeStep(cfg, evs, i);
    var a := LeavingOpen(cfg, evs, i + 1, j);
    LastFailGrows(cfg, evs, i, a);
  }

  ghost predicate OpeningsAt(cfg: Config, evs: seq<Event>, ks: seq<nat>) {
    && (forall n :: 0 <= n < |ks| ==> Opens(cfg, evs, ks[n]))
    && (forall n, m :: 0 <= n < m < |ks| ==> ks[n] < ks[m])
  }

  /** N openings take more than (N - 1) timeouts. */
  lemma {:induction false} OpeningsTakeTime(cfg: Config, evs: seq<Event>, ks: seq<nat>)
    requires Monotone(evs) && OpeningsAt(cfg, evs, ks) && |ks| >= 2
    ensures (|ks| - 1) as real * cfg.timeout < evs[ks[|ks| - 1]].at - evs[ks[0]].at
    decreases |ks|
  {
    var n := |ks| - 1;
    OpeningsFarApart(cfg, evs, ks[n - 1], ks[n]);
    if n > 1 {
      OpeningsTakeTime(cfg, evs, ks[..n]);
      assert n as real * cfg.timeout == (n - 1) as real * cfg.timeout + cfg.timeout;
    }
  }

  // ---------- The way back to Closed ----------

  function Successes(evs: seq<Event>): nat {
    if evs == [] then 0
    else Successes(evs[..|evs| - 1]) + if evs[|evs| - 1].Success? then 1 else 0
  }

  ghost predicate NoFailure(evs: seq<Event>) {
    forall i :: 0 <= i < |evs| ==> !evs[i].Failure?
  }

  /** Since the probe at a there has been no failure, and the breaker has counted every success. */
  ghost predicate ProbedSince(cfg: Config, evs: seq<Event>, a: nat, k: nat) {
    && a < k <= |evs| && Probes(cfg, evs, a)
    && NoFailure(evs[a + 1..k])
    && Successes(evs[a + 1..k]) == Before(cfg, evs, k).successes
  }

  lemma SuccessesStep(evs: seq<Event>, a: nat, k: nat)
    requires a <= k < |evs|
    ensures Successes(evs[a..k + 1]) == Successes(evs[a..k]) + if evs[k].Success? then 1 else 0
  {
    assert evs[a..k + 1][..k - a] == evs[a..k];
  }

  lemma {:induction false} HalfOpenProbed(cfg: Config, evs: seq<Event>, i: nat, k: nat) returns (a: nat)
    requires i < k <= |evs|
    requires Before(cfg, evs, i).state == Open && Before(cfg, evs, k).state == HalfOpen
    ensures i <= a && ProbedSince(cfg, evs, a, k)
    ensures Before(cfg, evs, k).successes == 0 || Before(cfg, evs, k).successes < cfg.successReq
    decreases k
  {
    hide Run, Before;
    BeforeStep(cfg, evs, k - 1);
    if Before(cfg, evs, k - 1).state == Open {
      a := k - 1;
      assert evs[a + 1..k] == [];
    } else {
      a := HalfOpenProbed(cfg, evs, i, k - 1);
      SuccessesStep(evs, a + 1, k - 1);
      assert evs[a + 1..k] == evs[a + 1..k - 1] + [evs[k - 1]];
    }
  }

  function Needed(cfg: Config): int {
    if cfg.successReq > 1 then cfg.successReq else 1
  }

  /** An open breaker that is closed later was probed after the timeout and then saw exactly the required
      successes, and no failure among them. */
  lemma {:induction false} ClosingTakesSuccesses(cfg: Config, evs: seq<Event>, i: nat, j: nat)
    returns (a: nat, c: nat)
    requires i < j <= |evs|
    requires Before(cfg, evs, i).state == Open && Before(cfg, evs, j).state == Closed
    ensures i <= a < c < j && Probes(cfg, evs, a)
    ensures NoFailure(evs[a + 1..c + 1]) && evs[c].Success? && Successes(evs[a + 1..c + 1]) == Needed(cfg)
    ensures Before(cfg, evs, c).state == HalfOpen && Before(cfg, evs, c + 1).state == Closed
    decreases j
  {
    hide Run, Before;
    BeforeStep(cfg, evs, j - 1);
    if Before(cfg, evs, j - 1).state == Closed {
      a, c := ClosingTakesSuccesses(cfg, evs, i, j - 1);
    } else {
      c := j - 1;
      a := HalfOpenProbed(cfg, evs, i, c);
      SuccessesStep(evs, a + 1, c);
      assert evs[a + 1..c + 1] == evs[a + 1..c] + [evs[c]];
    }
  }
}
