/** What the circuit breaker answers and when it opens, read off the log of requests and reports. */
module BreakerLaws {
  import opened CircuitBreaker

  // ---------- What the fields stand for ----------

  /** When the last failure was reported; 0 before the first. */
  function LastFailure(evs: seq<Event>): real {
    if evs == [] then 0.0
    else if evs[|evs| - 1].Failure? then evs[|evs| - 1].at
    else LastFailure(evs[..|evs| - 1])
  }

  /** How many failures were reported since the last success. */
  function FailuresInARow(evs: seq<Event>): nat {
    if evs == [] then 0
    else
      match evs[|evs| - 1]
      case Failure(_) => FailuresInARow(evs[..|evs| - 1]) + 1
      case Success(_) => 0
      case Allow(_) => FailuresInARow(evs[..|evs| - 1])
  }

  lemma {:induction false} FieldsByLog(cfg: Config, evs: seq<Event>)
    ensures Run(cfg, evs).lastFail == LastFailure(evs)
    ensures Run(cfg, evs).failures == FailuresInARow(evs)
    ensures Run(cfg, evs).state == Closed && cfg.threshold > 0 ==> FailuresInARow(evs) < cfg.threshold
  {
    if evs != [] {
      FieldsByLog(cfg, evs[..|evs| - 1]);
    }
  }

  // ---------- When it opens ----------

  /** A closed breaker opens at the failure that makes as many in a row as the threshold, and at no other event; a
      half-open one at its first failure; an open one cannot open. */
  lemma OpensIff(cfg: Config, evs: seq<Event>, k: nat)
    requires k < |evs| && cfg.threshold > 0
    ensures var b := Before(cfg, evs, k);
            Opens(cfg, evs, k) <==>
              && evs[k].Failure?
              && ((b.state == Closed && FailuresInARow(evs[..k + 1]) == cfg.threshold) || b.state == HalfOpen)
  {
    BeforeStep(cfg, evs, k);
    FieldsByLog(cfg, evs[..k]);
    assert evs[..k + 1][..k] == evs[..k];
  }

  /** With the default settings the third failure in a row opens a closed breaker, and no earlier one does. */
  lemma OpensAtThird(evs: seq<Event>, k: nat)
    requires k < |evs| && Before(DEFAULT, evs, k).state == Closed
    ensures Before(DEFAULT, evs, k + 1).state == Open <==> evs[k].Failure? && FailuresInARow(evs[..k + 1]) == 3
    ensures FailuresInARow(evs[..k]) < 3
  {
    OpensIff(DEFAULT, evs, k);
    BeforeStep(DEFAULT, evs, k);
    FieldsByLog(DEFAULT, evs[..k]);
  }

  /** Three failures in a row open a new breaker. */
  lemma ThreeFailuresOpen(t0: real, t1: real, t2: real)
    ensures var evs := [Failure(t0), Failure(t1), Failure(t2)];
            && Before(DEFAULT, evs, 2).state == Closed
            && Before(DEFAULT, evs, 3).state == Open && Before(DEFAULT, evs, 3).lastFail == t2
  {
    var evs := [Failure(t0), Failure(t1), Failure(t2)];
    assert Before(DEFAULT, evs, 0) == NEW;
    BeforeStep(DEFAULT, evs, 0);
    BeforeStep(DEFAULT, evs, 1);
    BeforeStep(DEFAULT, evs, 2);
  }

  // ---------- What it refuses ----------

  /** The breaker has opened at some event before the k-th, and no request since has come later than the timeout. */
  ghost predicate OpenedAndNotProbed(cfg: Config, evs: seq<Event>, k: nat) {
    exists i: nat :: OpenedAt(cfg, evs, i, k)
  }

  ghost predicate OpenedAt(cfg: Config, evs: seq<Event>, i: nat, k: nat) {
    && i < k <= |evs| && Opens(cfg, evs, i)
    && forall a :: i < a < k && evs[a].Allow? ==> evs[a].at - LastFailure(evs[..a]) <= cfg.timeout
  }

  lemma {:induction false} OpenIff(cfg: Config, evs: seq<Event>, k: nat)
    requires k <= |evs|
    ensures Before(cfg, evs, k).state == Open <==> OpenedAndNotProbed(cfg, evs, k)
    decreases k
  {
    if k == 0 {
      assert evs[..0] == [];
    } else {
      var n := k - 1;
      OpenIff(cfg, evs, n);
      BeforeStep(cfg, evs, n);
      FieldsByLog(cfg, evs[..n]);
      if Before(cfg, evs, k).state == Open {
        if Opens(cfg, evs, n) {
          assert OpenedAt(cfg, evs, n, k);
        } else {
          var i: nat :| OpenedAt(cfg, evs, i, n);
          assert OpenedAt(cfg, evs, i, k);
        }
      }
      if OpenedAndNotProbed(cfg, evs, k) {
        var i: nat :| OpenedAt(cfg, evs, i, k);
        if i < n {
          assert OpenedAt(cfg, evs, i, n);
        }
      }
    }
  }

  /** A request is refused if and only if the breaker has opened, no request since came later than the timeout after the
      last failure before it, and this one does not either. */
  lemma RefusedIff(cfg: Config, evs: seq<Event>, k: nat, now: real)
    requires k <= |evs|
    ensures !Allows(cfg, Before(cfg, evs, k), now) <==>
              OpenedAndNotProbed(cfg, evs, k) && now - LastFailure(evs[..k]) <= cfg.timeout
  {
    OpenIff(cfg, evs, k);
    FieldsByLog(cfg, evs[..k]);
  }

  /** A guard that has seen three failures in a row refuses for twenty seconds and then lets a request through. */
  method TrippedGuardRefuses(t0: real, t1: real, t2: real, now: real) returns (ok: bool)
    ensures ok <==> now - t2 > 20.0
  {
    var g := new Guard();
    g.RecordFailure(t0);
    g.RecordFailure(t1);
    g.RecordFailure(t2);
    ThreeFailuresOpen(t0, t1, t2);
    assert g.log == [Failure(t0), Failure(t1), Failure(t2)];
    assert g.log[..3] == g.log;
    ok := g.AllowRequest(now);
  }

  /** A request that is let through after that leaves the guard half-open: the second success closes it, and one
      failure before that opens it again. */
  method ProbedGuardTakesTwo(t0: real, t1: real, t2: real, now: real, t3: real, t4: real, recovers: bool)
    returns (probed: State, once: State, twice: State)
    requires now - t2 > 20.0
    ensures probed == HalfOpen && once == HalfOpen && twice == if recovers then Closed else Open
  {
    var g := new Guard();
    g.RecordFailure(t0);
    g.RecordFailure(t1);
    g.RecordFailure(t2);
    ThreeFailuresOpen(t0, t1, t2);
    assert g.log == [Failure(t0), Failure(t1), Failure(t2)];
    assert g.log[..3] == g.log;
    var ok := g.AllowRequest(now);
    probed := g.state;
    g.RecordSuccess(t3);
    once := g.state;
    if recovers {
      g.RecordSuccess(t4);
    } else {
      g.RecordFailure(t4);
    }
    twice := g.state;
  }
}
