/** The router's health tracker for one model: rolling outcomes and latencies in two rings of 100. */
module Health {
  import opened Sorting
  import opened Percentile

  const RING_SIZE := 100

  datatype Outcome = Succeeded(latency: real) | Failed

  function Bit(o: Outcome): int { if o.Succeeded? then 1 else 0 }
  function Latency(o: Outcome): real { if o.Succeeded? then o.latency else 0.0 }

  function Bits(h: seq<Outcome>): (r: seq<int>)
    ensures |r| == |h|
  {
    seq(|h|, i requires 0 <= i < |h| => Bit(h[i]))
  }

  function Latencies(h: seq<Outcome>): (r: seq<real>)
    ensures |r| == |h|
  {
    seq(|h|, i requires 0 <= i < |h| => Latency(h[i]))
  }

  const IsZero: int -> bool := b => b == 0
  const IsPositive: real -> bool := l => l > 0.0

  function Failures(h: seq<Outcome>): nat {
    |Filter(Bits(h), IsZero)|
  }

  lemma FailuresStep(h: seq<Outcome>, o: Outcome)
    ensures Failures(h + [o]) == Failures(h) + if o.Failed? then 1 else 0
  {
    Bits1(h, o);
    FilterConcat(Bits(h), [Bit(o)], IsZero);
    FilterOne(Bit(o), IsZero);
  }

  lemma FilterOne(x: int, p: int -> bool)
    ensures |Filter([x], p)| == if p(x) then 1 else 0
  {
    assert [x][..0] == [];
  }

  /** Failures among the latest hundred outcomes, over how many there are. */
  function ErrorRateOf(h: seq<Outcome>): real {
    var w := Window(h, RING_SIZE);
    if w == [] then 0.0 else Failures(w) as real / |w| as real
  }

  function PositiveLatencies(h: seq<Outcome>): seq<real> {
    Filter(Latencies(Window(h, RING_SIZE)), IsPositive)
  }

  /** The percentile is taken after a success; failures and empty windows leave the last one standing. */
  function P99After(h: seq<Outcome>): real {
    if h == [] then 0.0
    else if h[|h| - 1].Succeeded? && PositiveLatencies(h) != [] then P99(PositiveLatencies(h))
    else P99After(h[..|h| - 1])
  }

  // ---------- The same in numbers ----------

  /** The latest hundred outcomes, or all of them while there are fewer. */
  function Latest(h: seq<Outcome>): seq<Outcome> {
    if |h| < 100 then h else h[|h| - 100..]
  }

  function FailuresIn(h: seq<Outcome>): nat {
    if h == [] then 0 else FailuresIn(h[..|h| - 1]) + if h[|h| - 1].Failed? then 1 else 0
  }

  /** Successes that took longer than x. */
  function SlowerThan(h: seq<Outcome>, x: real): nat {
    if h == [] then 0
    else
      var o := h[|h| - 1];
      SlowerThan(h[..|h| - 1], x) + if o.Succeeded? && o.latency > x then 1 else 0
  }

  lemma {:induction false} FailuresCounted(h: seq<Outcome>)
    ensures Failures(h) == FailuresIn(h)
  {
    if h != [] {
      var n := |h| - 1;
      assert h == h[..n] + [h[n]];
      FailuresStep(h[..n], h[n]);
      FailuresCounted(h[..n]);
    }
  }

  lemma {:induction false} SlowerCounted(h: seq<Outcome>, x: real)
    requires x >= 0.0
    ensures CountAbove(Filter(Latencies(h), IsPositive), x) == SlowerThan(h, x)
  {
    if h != [] {
      var n := |h| - 1;
      SlowerCounted(h[..n], x);
      assert Latencies(h)[..n] == Latencies(h[..n]);
      FilterLastReal(Filter(Latencies(h[..n]), IsPositive), Latency(h[n]), x);
    }
  }

  lemma FilterLastReal(s: seq<real>, l: real, x: real)
    ensures CountAbove(s + [l], x) == CountAbove(s, x) + if l > x then 1 else 0
  {
    assert (s + [l])[..|s|] == s;
  }

  /** The rate is the share of failures among the latest outcomes, and 0 when there are none. */
  predicate IsRate(rate: real, h: seq<Outcome>) {
    if h == [] then rate == 0.0 else rate * |Latest(h)| as real == FailuresIn(Latest(h)) as real
  }

  lemma RateInNumbers(h: seq<Outcome>)
    ensures IsRate(ErrorRateOf(h), h)
  {
    hide Failures;
    FailuresCounted(Latest(h));
    assert Window(h, RING_SIZE) == Latest(h);
  }

  /** The percentile exceeds x when more than 1% of the positive latencies among the latest hundred do. */
  lemma PercentileInNumbers(h: seq<Outcome>)
    ensures PositiveLatencies(h) == [] <==> SlowerThan(Latest(h), 0.0) == 0
    ensures PositiveLatencies(h) != [] ==>
              forall x: real :: x >= 0.0 ==>
                (P99(PositiveLatencies(h)) > x <==> 100 * SlowerThan(Latest(h), x) > SlowerThan(Latest(h), 0.0))
  {
    hide Filter, P99;
    assert Window(h, RING_SIZE) == Latest(h);
    var ls := PositiveLatencies(h);
    SlowerCounted(Latest(h), 0.0);
    AllPositive(Latencies(Latest(h)));
    forall x: real | x >= 0.0
      ensures ls != [] ==> (P99(ls) > x <==> 100 * SlowerThan(Latest(h), x) > SlowerThan(Latest(h), 0.0))
    {
      SlowerCounted(Latest(h), x);
      P99Exceeds(ls, x);
    }
  }

  lemma {:induction false} AllPositive(s: seq<real>)
    ensures CountAbove(Filter(s, IsPositive), 0.0) == |Filter(s, IsPositive)|
  {
    if s != [] {
      AllPositive(s[..|s| - 1]);
      FilterLastReal(Filter(s[..|s| - 1], IsPositive), s[|s| - 1], 0.0);
    }
  }

  class ModelHealth {
    var outcomes: array<int>
    var latencies: array<real>
    var head: nat
    var total: nat
    var errors: nat
    var p99Latency: real
    ghost var history: seq<Outcome>

    ghost predicate Rings()
      reads this, outcomes, latencies
    {
      && outcomes.Length == latencies.Length == RING_SIZE
      && head == total == |history|
      && outcomes[..] == Ring(Bits(history), RING_SIZE, 0)
      && latencies[..] == Ring(Latencies(history), RING_SIZE, 0.0)
    }

    ghost predicate Valid()
      reads this, outcomes, latencies
    {
      && Rings()
      && p99Latency == P99After(history)
      && errors == Failures(history)
    }

    constructor ()
      ensures Valid() && history == [] && p99Latency == 0.0 && fresh(outcomes) && fresh(latencies)
    {
      outcomes := new int[RING_SIZE](_ => 0);
      latencies := new real[RING_SIZE](_ => 0.0);
      head, total, errors, p99Latency, history := 0, 0, 0, 0.0, [];
    }

    /** Both rings take the outcome at the slot behind head. */
    method Push(o: Outcome)
      requires Rings()
      modifies this, outcomes, latencies
      ensures Rings() && outcomes == old(outcomes) && latencies == old(latencies)
      ensures history == old(history) + [o] && p99Latency == old(p99Latency) && errors == old(errors)
    {
      outcomes[head % RING_SIZE] := Bit(o);
      latencies[head % RING_SIZE] := Latency(o);
      head := head + 1;
      total := total + 1;
      history := history + [o];
      Bits1(old(history), o);
      RingGrows(Bits(old(history)), Bit(o), RING_SIZE, 0);
      RingGrows(Latencies(old(history)), Latency(o), RING_SIZE, 0.0);
    }

    method RecordSuccess(latencyMs: real)
      requires Valid()
      modifies this, outcomes, latencies
      ensures Valid() && outcomes == old(outcomes) && latencies == old(latencies)
      ensures history == old(history) + [Succeeded(latencyMs)]
      ensures var latest := Latest(history);
              if SlowerThan(latest, 0.0) == 0 then p99Latency == old(p99Latency)
              else forall x: real :: x >= 0.0 ==>
                     (p99Latency > x <==> 100 * SlowerThan(latest, x) > SlowerThan(latest, 0.0))
    {
      hide Failures, Ring, Filter, Bits, Latencies, SlowerThan;
      Push(Succeeded(latencyMs));
      assert history[..|history| - 1] == old(history);
      FailuresStep(old(history), Succeeded(latencyMs));
      PercentileInNumbers(history);
      UpdateP99();
    }

    method RecordFailure()
      requires Valid()
      modifies this, outcomes, latencies
      ensures Valid() && outcomes == old(outcomes) && latencies == old(latencies)
      ensures history == old(history) + [Failed] && p99Latency == old(p99Latency)
    {
      Push(Failed);
      assert history[..|history| - 1] == old(history);
      FailuresStep(old(history), Failed);
      errors := errors + 1;
    }

    /** Over all hundred slots: the ones never written hold 0 and are passed over like failures. */
    method UpdateP99()
      requires Rings()
      modifies this`p99Latency
      ensures p99Latency == if PositiveLatencies(history) == [] then old(p99Latency)
                            else P99(PositiveLatencies(history))
    {
      var lats: seq<real> := [];
      for i := 0 to RING_SIZE
        invariant lats == Filter(latencies[..i], IsPositive)
      {
        assert latencies[..i + 1][..i] == latencies[..i];
        if latencies[i] > 0.0 {
          lats := lats + [latencies[i]];
        }
      }
      assert latencies[..RING_SIZE] == latencies[..];
      PositivesOfRing(history);
      if |lats| == 0 {
        return;
      }
      p99Latency := SortedCopyP99(lats);
    }

    method ErrorRate() returns (rate: real)
      requires Rings()
      ensures rate == ErrorRateOf(history)
      ensures IsRate(rate, history)
    {
      RateInNumbers(history);
      hide IsRate;
      var window := if total < RING_SIZE then total else RING_SIZE;
      if window == 0 {
        return 0.0;
      }
      var failures := 0;
      for i := 0 to window
        invariant failures == |Filter(outcomes[..i], IsZero)|
      {
        assert outcomes[..i + 1][..i] == outcomes[..i];
        if outcomes[i] == 0 {
          failures := failures + 1;
        }
      }
      ZerosOfRing(history);
      assert outcomes[..window] == Ring(Bits(history), RING_SIZE, 0)[..window];
      rate := failures as real / window as real;
    }
  }

  lemma Bits1(h: seq<Outcome>, o: Outcome)
    ensures Bits(h + [o]) == Bits(h) + [Bit(o)]
    ensures Latencies(h + [o]) == Latencies(h) + [Latency(o)]
  {
  }

  lemma RingGrows<T>(h: seq<T>, x: T, cap: nat, empty: T)
    requires cap > 0
    ensures Ring(h + [x], cap, empty) == Ring(h, cap, empty)[|h| % cap := x]
  {
    assert (h + [x])[..|h|] == h;
  }

  lemma WindowOfBits(h: seq<Outcome>)
    ensures Bits(Window(h, RING_SIZE)) == Window(Bits(h), RING_SIZE)
    ensures Latencies(Window(h, RING_SIZE)) == Window(Latencies(h), RING_SIZE)
  {
  }

  /** Where the full ring starts does not matter to what a filter keeps, up to a rotation. */
  lemma FilterFullRing<T>(s: seq<T>, cap: nat, empty: T, p: T -> bool) returns (u: seq<T>, v: seq<T>)
    requires 0 < cap < |s|
    ensures Filter(Window(s, cap), p) == u + v
    ensures Filter(Ring(s, cap, empty), p) == v + u
  {
    hide Ring, Filter;
    var w, k := Window(s, cap), cap - |s| % cap;
    RingFull(s, cap, empty);
    FilterConcat(w[k..], w[..k], p);
    FilterConcat(w[..k], w[k..], p);
    assert w == w[..k] + w[k..];
    u, v := Filter(w[..k], p), Filter(w[k..], p);
  }

  lemma ZerosOfRing(h: seq<Outcome>)
    ensures |Filter(Ring(Bits(h), RING_SIZE, 0)[..|Window(h, RING_SIZE)|], IsZero)|
         == Failures(Window(h, RING_SIZE))
  {
    WindowOfBits(h);
    var ring := Ring(Bits(h), RING_SIZE, 0);
    if |h| > RING_SIZE {
      var u, v := FilterFullRing(Bits(h), RING_SIZE, 0, IsZero);
      assert ring[..RING_SIZE] == ring;
    } else {
      RingFilling(Bits(h), RING_SIZE, 0);
    }
  }

  lemma {:induction false} NoPositives(s: seq<real>)
    requires forall i :: 0 <= i < |s| ==> s[i] == 0.0
    ensures Filter(s, IsPositive) == []
  {
    if s != [] {
      NoPositives(s[..|s| - 1]);
    }
  }

  lemma PositivesWhileFilling(lats: seq<real>)
    requires |lats| <= RING_SIZE
    ensures Filter(Ring(lats, RING_SIZE, 0.0), IsPositive) == Filter(lats, IsPositive)
  {
    hide Ring, Filter;
    var ring := Ring(lats, RING_SIZE, 0.0);
    RingFilling(lats, RING_SIZE, 0.0);
    forall i: nat | |lats| <= i < RING_SIZE
      ensures ring[i] == 0.0
    {
      RingAt(lats, RING_SIZE, 0.0, i);
    }
    FilterConcat(ring[..|lats|], ring[|lats|..], IsPositive);
    NoPositives(ring[|lats|..]);
    assert ring == ring[..|lats|] + ring[|lats|..];
  }

  lemma PositivesOfRing(h: seq<Outcome>)
    ensures var f := Filter(Ring(Latencies(h), RING_SIZE, 0.0), IsPositive);
            (f == [] <==> PositiveLatencies(h) == []) && P99(f) == P99(PositiveLatencies(h))
  {
    hide Ring, Filter, P99;
    WindowOfBits(h);
    if |h| > RING_SIZE {
      var u, v := FilterFullRing(Latencies(h), RING_SIZE, 0.0, IsPositive);
      P99OfRotation(u, v);
    } else {
      PositivesWhileFilling(Latencies(h));
    }
  }
}
