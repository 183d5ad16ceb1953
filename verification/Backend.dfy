/** One model as the router keeps it: its breaker object and its health tracker object, told of every outcome one
    after the other. */
module Backend {
  import opened Percentile
  import opened Health
  import opened Routing
  import CB = CircuitBreaker

  class ModelBackend {
    const guard: CB.Guard
    const health: ModelHealth

    ghost function Breaker(): CB.Breaker
      reads guard
    {
      CB.Breaker(guard.state, guard.failures, guard.successes, guard.lastFail)
    }

    ghost predicate Valid()
      reads this, guard, health, health.outcomes, health.latencies
    {
      guard.Valid() && guard.Cfg() == CB.DEFAULT && health.Valid() && Agree(Breaker(), health.history)
    }

    constructor ()
      ensures Valid() && health.history == []
      ensures fresh(guard) && fresh(health) && fresh(health.outcomes) && fresh(health.latencies)
    {
      guard := new CB.Guard();
      health := new ModelHealth();
    }

    method Allow(now: real) returns (ok: bool)
      requires Valid()
      modifies guard
      ensures Valid() && ok == CB.Allows(CB.DEFAULT, old(Breaker()), now)
      ensures ok <==> old(guard.state) != CB.Open || now - old(guard.lastFail) > 20.0
      ensures Breaker() == CB.Step(CB.DEFAULT, old(Breaker()), CB.Allow(now))
    {
      hide ModelHealth.Valid, Agree, CB.Step, CB.Allows;
      AgreementIsKept(Breaker(), health.history, now, 0.0);
      ok := guard.AllowRequest(now);
      RunLast(old(guard.log), CB.Allow(now));
    }

    method RecordSuccess(latencyMs: real, now: real)
      requires Valid()
      modifies guard, health, health.outcomes, health.latencies
      ensures Valid() && health.outcomes == old(health.outcomes) && health.latencies == old(health.latencies)
      ensures Breaker() == CB.Step(CB.DEFAULT, old(Breaker()), CB.Success(now))
      ensures health.history == old(health.history) + [Succeeded(latencyMs)]
    {
      hide ModelHealth.Valid, Agree, CB.Step;
      AgreementIsKept(Breaker(), health.history, now, latencyMs);
      guard.RecordSuccess(now);
      RunLast(old(guard.log), CB.Success(now));
      health.RecordSuccess(latencyMs);
    }

    method RecordFailure(now: real)
      requires Valid()
      modifies guard, health, health.outcomes, health.latencies
      ensures Valid() && health.outcomes == old(health.outcomes) && health.latencies == old(health.latencies)
      ensures Breaker() == CB.Step(CB.DEFAULT, old(Breaker()), CB.Failure(now))
      ensures health.history == old(health.history) + [Failed]
    {
      hide ModelHealth.Valid, Agree, CB.Step;
      AgreementIsKept(Breaker(), health.history, now, 0.0);
      guard.RecordFailure(now);
      RunLast(old(guard.log), CB.Failure(now));
      health.RecordFailure();
    }

    /** The breaker's counter can be read off the tracker's array: that many slots behind head are failures, up to
        the size of the ring, and a closed breaker has counted fewer than the threshold. */
    lemma CounterShowsInArray(j: nat)
      requires Valid() && j < guard.failures && j < RING_SIZE
      ensures j < health.head && health.outcomes.Length == RING_SIZE
      ensures health.outcomes[(health.head - 1 - j) % RING_SIZE] == 0
      ensures guard.state == CB.Closed ==> j < guard.threshold
    {
      hide Ring, Bits, CB.Run;
      BreakerCountShowsInRing(Breaker(), health.history, j);
      assert health.outcomes[..][(health.head - 1 - j) % RING_SIZE] == 0;
    }
  }

  lemma RunLast(log: seq<CB.Event>, e: CB.Event)
    ensures CB.Run(CB.DEFAULT, log + [e]) == CB.Step(CB.DEFAULT, CB.Run(CB.DEFAULT, log), e)
  {
    assert (log + [e])[..|log|] == log;
  }
}
