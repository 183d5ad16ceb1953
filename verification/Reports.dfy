/** Concurrent requests reporting how they ended.  A request tells the breaker first and the health tracker in a
    later step, and up to k requests may be between the two. */
module Reports {
  import opened Health
  import opened Routing
  import CB = CircuitBreaker

  /** One model's breaker and outcomes; `between` holds, in the breaker's order, the outcomes that the tracker has
      not been told yet. */
  datatype State = State(breaker: CB.Breaker, history: seq<Outcome>, between: seq<Outcome>)

  const START := State(CB.NEW, [], [])

  datatype Action =
    | Ask(now: real)
    | TellBreaker(outcome: Outcome, now: real)
    | TellTracker(i: nat) // by the i-th of the requests in between

  predicate Enabled(k: nat, s: State, a: Action) {
    match a
    case Ask(_) => true
    case TellBreaker(_, _) => |s.between| < k
    case TellTracker(i) => i < |s.between|
  }

  function Event(o: Outcome, now: real): CB.Event {
    if o.Succeeded? then CB.Success(now) else CB.Failure(now)
  }

  function Next(s: State, a: Action): State {
    match a
    case Ask(now) => s.(breaker := CB.Step(CB.DEFAULT, s.breaker, CB.Allow(now)))
    case TellBreaker(o, now) =>
      s.(breaker := CB.Step(CB.DEFAULT, s.breaker, Event(o, now)), between := s.between + [o])
    case TellTracker(i) =>
      if i < |s.between|
      then s.(history := s.history + [s.between[i]], between := s.between[..i] + s.between[i + 1..])
      else s
  }

  predicate Runs(k: nat, s: State, acts: seq<Action>)
    decreases |acts|
  {
    acts == [] || (Enabled(k, s, acts[0]) && Runs(k, Next(s, acts[0]), acts[1..]))
  }

  function After(s: State, acts: seq<Action>): State
    decreases |acts|
  {
    if acts == [] then s else After(Next(s, acts[0]), acts[1..])
  }

  // ---------- Reports in order ----------

  /** The tracker hears of the outcomes in the order in which the breaker did. */
  predicate InOrder(acts: seq<Action>) {
    forall j :: 0 <= j < |acts| && acts[j].TellTracker? ==> acts[j].i == 0
  }

  /** The breaker agrees with what the tracker will have been told. */
  ghost predicate InStep(s: State) {
    Agree(s.breaker, s.history + s.between)
  }

  lemma StepKeepsInStep(k: nat, s: State, a: Action)
    requires InStep(s) && Enabled(k, s, a) && (a.TellTracker? ==> a.i == 0)
    ensures InStep(Next(s, a))
  {
    hide Agree, CB.Step;
    var h, t := s.history + s.between, Next(s, a);
    match a
    case Ask(now) => AgreementIsKept(s.breaker, h, now, 0.0);
    case TellBreaker(o, now) =>
      AgreementIsKept(s.breaker, h, now, if o.Succeeded? then o.latency else 0.0);
      assert t.history + t.between == h + [o];
    case TellTracker(_) =>
      assert t.history + t.between == h;
  }

  /** However many requests are in between, the two agree again once reports told in order are all in. */
  lemma {:induction false} InOrderRunsAgree(k: nat, s: State, acts: seq<Action>)
    requires InStep(s) && Runs(k, s, acts) && InOrder(acts)
    ensures InStep(After(s, acts))
    ensures After(s, acts).between == [] ==> Agree(After(s, acts).breaker, After(s, acts).history)
    decreases |acts|
  {
    hide Agree, Next, Enabled;
    if acts == [] {
      assert s.history + [] == s.history;
    } else {
      StepKeepsInStep(k, s, acts[0]);
      assert forall j :: 0 <= j < |acts[1..]| ==> acts[1..][j] == acts[j + 1];
      InOrderRunsAgree(k, Next(s, acts[0]), acts[1..]);
    }
  }

  lemma {:induction false} OneAtATimeIsInOrder(s: State, acts: seq<Action>)
    requires |s.between| <= 1 && Runs(1, s, acts)
    ensures InOrder(acts)
    decreases |acts|
  {
    if acts != [] {
      OneAtATimeIsInOrder(Next(s, acts[0]), acts[1..]);
      assert forall j :: 1 <= j < |acts| ==> acts[j] == acts[1..][j - 1];
    }
  }

  // ---------- Reports overtaking each other ----------

  /** The breaker hears of a failure and then of a success, the tracker of the success first. */
  function Overtaking(latencyMs: real, now: real): seq<Action> {
    [TellBreaker(Failed, now), TellBreaker(Succeeded(latencyMs), now), TellTracker(1), TellTracker(0)]
  }

  lemma OvertakingDisagrees(k: nat, latencyMs: real, now: real)
    requires k >= 2
    ensures var acts := Overtaking(latencyMs, now);
            && Runs(k, START, acts) && After(START, acts).between == []
            && !Agree(After(START, acts).breaker, After(START, acts).history)
  {
    var ok := Succeeded(latencyMs);
    var b1 := CB.Step(CB.DEFAULT, CB.NEW, CB.Failure(now));
    var b2 := CB.Step(CB.DEFAULT, b1, CB.Success(now));
    var s1, s2 := State(b1, [], [Failed]), State(b2, [], [Failed, ok]);
    var s3, s4 := State(b2, [ok], [Failed]), State(b2, [ok, Failed], []);
    var a1, a2, a3, a4 := TellBreaker(Failed, now), TellBreaker(ok, now), TellTracker(1), TellTracker(0);
    assert Next(START, a1) == s1 && Next(s1, a2) == s2 && Next(s2, a3) == s3 && Next(s3, a4) == s4;
    Prepend(k, s3, a4, []);
    Prepend(k, s2, a3, [a4]);
    Prepend(k, s1, a2, [a3, a4]);
    Prepend(k, START, a1, [a2, a3, a4]);
    assert [a1, a2, a3, a4] == [a1] + [a2, a3, a4] && [a2, a3, a4] == [a2] + [a3, a4];
    assert [a3, a4] == [a3] + [a4] && [a4] == [a4] + [];
    TrailingFailure([ok]);
    assert [ok] + [Failed] == s4.history;
  }

  lemma Prepend(k: nat, s: State, a: Action, acts: seq<Action>)
    requires Enabled(k, s, a) && Runs(k, Next(s, a), acts)
    ensures Runs(k, s, [a] + acts) && After(s, [a] + acts) == After(Next(s, a), acts)
  {
    assert ([a] + acts)[1..] == acts;
  }

  /** Breaker and tracker agree after every run that leaves no report half told, if and only if requests report one
      at a time. */
  lemma AgreeIffOneAtATime(k: nat)
    requires k >= 1
    ensures (forall acts :: Runs(k, START, acts) && After(START, acts).between == [] ==>
               Agree(After(START, acts).breaker, After(START, acts).history))
            <==> k == 1
  {
    hide Agree, Runs, After;
    if k == 1 {
      forall acts | Runs(k, START, acts) && After(START, acts).between == []
        ensures Agree(After(START, acts).breaker, After(START, acts).history)
      {
        OneAtATimeIsInOrder(START, acts);
        StartInStep();
        InOrderRunsAgree(k, START, acts);
      }
    } else {
      OvertakingDisagrees(k, 1.0, 0.0);
      assert Runs(k, START, Overtaking(1.0, 0.0));
    }
  }

  lemma StartInStep()
    ensures InStep(START)
  {
  }

  // ---------- Only the order can differ ----------

  function Outcomes(acts: seq<Action>): seq<Outcome> {
    if acts == [] then [] else (if acts[0].TellBreaker? then [acts[0].outcome] else []) + Outcomes(acts[1..])
  }

  /** No report is lost or told twice: what the tracker has and will have been told is what the breaker was told. */
  lemma {:induction false} EveryReportArrives(k: nat, s: State, acts: seq<Action>)
    requires Runs(k, s, acts)
    ensures var t := After(s, acts);
            multiset(t.history) + multiset(t.between)
              == multiset(s.history) + multiset(s.between) + multiset(Outcomes(acts))
    decreases |acts|
  {
    hide Enabled;
    if acts != [] {
      var t := Next(s, acts[0]);
      StepTells(k, s, acts[0]);
      EveryReportArrives(k, t, acts[1..]);
    }
  }

  lemma StepTells(k: nat, s: State, a: Action)
    ensures var t := Next(s, a);
            multiset(t.history) + multiset(t.between) == multiset(s.history) + multiset(s.between)
              + if a.TellBreaker? then multiset{a.outcome} else multiset{}
  {
    if a.TellTracker? && a.i < |s.between| {
      assert s.between == s.between[..a.i] + [s.between[a.i]] + s.between[a.i + 1..];
    }
  }
}
