/** One tenant's daily token limit when checks and records interleave.  A check reads the usage row but reserves
    nothing, so requests that have been let through and not yet recorded can carry the day past its limit. */
module QuotaOvershoot {
  import opened Quota
  import MW = MinuteWindow

  /** `inFlight` holds the estimates of the requests let through and not yet recorded. */
  datatype State = State(day: int, rows: map<int, int>, inFlight: seq<int>)

  function Start(day: int): State { State(day, map[], []) }

  function Used(s: State, day: int): int {
    if day in s.rows then s.rows[day] else 0
  }

  datatype Action =
    // a check, with what it found of the other limits
    | Admit(estimate: int, usedMinute: int, spentToday: real, context: int)
    // the i-th request in flight is recorded, in the day in which its record began
    | Record(i: nat, actual: int, day: int)
    | RollOver(day: int)

  /** The assumptions on the traffic: at most k requests in flight, estimates from 0 to `largest`, and no request
      that uses more than its estimate. */
  datatype Traffic = Traffic(k: nat, largest: int)

  predicate Enabled(cfg: Config, q: Traffic, s: State, a: Action) {
    match a
    case Admit(e, minute, spent, context) =>
      && 0 <= e <= q.largest && |s.inFlight| < q.k
      && Decision(cfg, minute, Used(s, s.day), spent, e, context) == Allowed
    case Record(i, actual, day) => i < |s.inFlight| && actual <= s.inFlight[i] && day <= s.day
    case RollOver(day) => day > s.day
  }

  function Next(s: State, a: Action): State {
    match a
    case Admit(e, _, _, _) => s.(inFlight := s.inFlight + [e])
    case Record(i, actual, day) =>
      s.(rows := s.rows[day := Used(s, day) + actual], inFlight := MW.Without(s.inFlight, i))
    case RollOver(day) => s.(day := day)
  }

  predicate Runs(cfg: Config, q: Traffic, s: State, acts: seq<Action>)
    decreases |acts|
  {
    acts == [] || (Enabled(cfg, q, s, acts[0]) && Runs(cfg, q, Next(s, acts[0]), acts[1..]))
  }

  function After(s: State, acts: seq<Action>): State
    decreases |acts|
  {
    if acts == [] then s else After(Next(s, acts[0]), acts[1..])
  }

  function Sum(xs: seq<int>): int {
    if xs == [] then 0 else Sum(xs[..|xs| - 1]) + xs[|xs| - 1]
  }

  /** What the day will have used once everything in flight is recorded at its estimate. */
  function Committed(s: State): int {
    Used(s, s.day) + Sum(s.inFlight)
  }

  function Times(n: int, x: int): int { n * x }

  function Bound(cfg: Config, q: Traffic): int {
    cfg.tokensPerDay + Times(q.k - 1, q.largest)
  }

  // ---------- The bound ----------

  ghost predicate WithinEstimates(xs: seq<int>, largest: int) {
    forall i :: 0 <= i < |xs| ==> 0 <= xs[i] <= largest
  }

  ghost predicate Inv(cfg: Config, q: Traffic, s: State) {
    && |s.inFlight| <= q.k && WithinEstimates(s.inFlight, q.largest)
    && (forall d :: d in s.rows ==> d <= s.day)
    && Committed(s) <= Bound(cfg, q)
  }

  lemma {:induction false} SumWithin(xs: seq<int>, largest: int)
    requires WithinEstimates(xs, largest)
    ensures 0 <= Sum(xs) <= Times(|xs|, largest)
  {
    hide Times;
    TimesNone(largest);
    if xs != [] {
      var init := xs[..|xs| - 1];
      SumWithin(init, largest);
      TimesNext(|init|, largest);
    }
  }

  lemma {:induction false} SumWithout(xs: seq<int>, i: nat)
    requires i < |xs|
    ensures Sum(MW.Without(xs, i)) == Sum(xs) - xs[i]
  {
    var n := |xs| - 1;
    var w := MW.Without(xs, i);
    if i < n {
      SumWithout(xs[..n], i);
      assert w[..n - 1] == MW.Without(xs[..n], i) && w[n - 1] == xs[n];
    } else {
      assert w == xs[..n];
    }
  }

  lemma SumAdd(xs: seq<int>, x: int)
    ensures Sum(xs + [x]) == Sum(xs) + x
  {
    assert (xs + [x])[..|xs|] == xs;
  }

  lemma TimesGrows(n: int, k: int, x: int)
    requires n <= k && 0 <= x
    ensures Times(n, x) <= Times(k, x)
  {
  }

  lemma TimesNext(n: int, x: int)
    ensures Times(n + 1, x) == Times(n, x) + x
  {
  }

  lemma TimesNone(x: int)
    ensures Times(0, x) == 0 && forall n :: Times(n, 0) == 0
  {
  }

  lemma AdmitKeeps(cfg: Config, q: Traffic, s: State, e: int)
    requires Inv(cfg, q, s) && 0 <= e <= q.largest && |s.inFlight| < q.k && Used(s, s.day) + e <= cfg.tokensPerDay
    ensures Inv(cfg, q, s.(inFlight := s.inFlight + [e]))
  {
    hide Times, Sum;
    SumAdd(s.inFlight, e);
    SumWithin(s.inFlight, q.largest);
    TimesGrows(|s.inFlight|, q.k - 1, q.largest);
  }

  lemma WithoutWithin(xs: seq<int>, i: nat, largest: int)
    requires WithinEstimates(xs, largest) && i < |xs|
    ensures WithinEstimates(MW.Without(xs, i), largest) && 0 <= xs[i] <= largest
  {
    var w := MW.Without(xs, i);
    forall j | 0 <= j < |w| ensures w[j] == xs[if j < i then j else j + 1] {
    }
  }

  lemma RecordKeeps(cfg: Config, q: Traffic, s: State, i: nat, actual: int, day: int)
    requires Inv(cfg, q, s) && i < |s.inFlight| && actual <= s.inFlight[i] && day <= s.day
    ensures Inv(cfg, q, Next(s, Record(i, actual, day)))
  {
    hide Times, Sum, WithinEstimates;
    SumWithout(s.inFlight, i);
    WithoutWithin(s.inFlight, i, q.largest);
  }

  lemma RollOverKeeps(cfg: Config, q: Traffic, s: State, day: int)
    requires Inv(cfg, q, s) && day > s.day && 0 <= q.largest <= cfg.tokensPerDay
    ensures Inv(cfg, q, s.(day := day))
  {
    hide Times, Sum, WithinEstimates;
    SumWithin(s.inFlight, q.largest);
    TimesGrows(|s.inFlight|, q.k, q.largest);
    TimesNext(q.k - 1, q.largest);
  }

  lemma StepKeeps(cfg: Config, q: Traffic, s: State, a: Action)
    requires Inv(cfg, q, s) && Enabled(cfg, q, s, a) && 0 <= q.largest <= cfg.tokensPerDay
    ensures Inv(cfg, q, Next(s, a))
  {
    hide Inv;
    match a
    case Admit(e, _, _, _) => AdmitKeeps(cfg, q, s, e);
    case Record(i, actual, day) => RecordKeeps(cfg, q, s, i, actual, day);
    case RollOver(day) => RollOverKeeps(cfg, q, s, day);
  }

  /** Along every interleaving, and across days, what is used and in flight stays within the limit plus one
      largest estimate for every request in flight but one. */
  lemma {:induction false} OvershootBound(cfg: Config, q: Traffic, s: State, acts: seq<Action>)
    requires Inv(cfg, q, s) && Runs(cfg, q, s, acts)
    requires 0 <= q.largest <= cfg.tokensPerDay && q.k >= 1
    ensures Inv(cfg, q, After(s, acts))
    ensures Used(After(s, acts), After(s, acts).day) <= Committed(After(s, acts)) <= Bound(cfg, q)
    decreases |acts|
  {
    hide Inv, Enabled, Next;
    if acts == [] {
      InvMeans(cfg, q, s);
    } else {
      StepKeeps(cfg, q, s, acts[0]);
      OvershootBound(cfg, q, Next(s, acts[0]), acts[1..]);
    }
  }

  lemma InvMeans(cfg: Config, q: Traffic, s: State)
    requires Inv(cfg, q, s)
    ensures Used(s, s.day) <= Committed(s) <= Bound(cfg, q)
  {
    SumWithin(s.inFlight, q.largest);
  }

  lemma StartInv(cfg: Config, q: Traffic, day: int)
    requires 0 <= q.largest <= cfg.tokensPerDay && q.k >= 1
    ensures Inv(cfg, q, Start(day))
  {
    TimesNone(q.largest);
    TimesGrows(0, q.k - 1, q.largest);
  }

  // ---------- The bound is reached ----------

  /** The other limits leave room for a largest request. */
  predicate Roomy(cfg: Config, q: Traffic) {
    0 <= cfg.maxContextTokens && q.largest <= cfg.tokensPerMinute && FloorCost(q.largest) <= cfg.budgetUSDPerDay
  }

  function Plain(e: int): Action { Admit(e, 0, 0.0, 0) }

  lemma PlainEnabled(cfg: Config, q: Traffic, s: State, e: int)
    requires Roomy(cfg, q) && 0 <= e <= q.largest && |s.inFlight| < q.k && Used(s, s.day) + e <= cfg.tokensPerDay
    ensures Enabled(cfg, q, s, Plain(e))
  {
    CostGrows(e, q.largest);
  }

  lemma CostGrows(a: int, b: int)
    requires a <= b
    ensures FloorCost(a) <= FloorCost(b)
  {
  }

  lemma Prepend(cfg: Config, q: Traffic, s: State, a: Action, acts: seq<Action>)
    requires Enabled(cfg, q, s, a) && Runs(cfg, q, Next(s, a), acts)
    ensures Runs(cfg, q, s, [a] + acts) && After(s, [a] + acts) == After(Next(s, a), acts)
  {
    assert ([a] + acts)[1..] == acts;
  }

  lemma {:induction false} Concat(cfg: Config, q: Traffic, s: State, a: seq<Action>, b: seq<Action>)
    requires Runs(cfg, q, s, a) && Runs(cfg, q, After(s, a), b)
    ensures Runs(cfg, q, s, a + b) && After(s, a + b) == After(After(s, a), b)
    decreases |a|
  {
    hide Enabled, Next;
    if a == [] {
      assert a + b == b;
    } else {
      Concat(cfg, q, Next(s, a[0]), a[1..], b);
      Prepend(cfg, q, s, a[0], a[1..] + b);
      assert [a[0]] + (a[1..] + b) == a + b;
    }
  }

  /** One request after the other brings the day to any use up to the limit. */
  lemma {:induction false} Fill(cfg: Config, q: Traffic, s: State, target: int) returns (acts: seq<Action>)
    requires Roomy(cfg, q) && q.k >= 1 && q.largest >= 1
    requires s.inFlight == [] && Used(s, s.day) <= target <= cfg.tokensPerDay
    ensures Runs(cfg, q, s, acts) && After(s, acts).inFlight == []
    ensures After(s, acts).day == s.day && Used(After(s, acts), s.day) == target
    decreases target - Used(s, s.day)
  {
    hide Enabled, Runs, After;
    var room := target - Used(s, s.day);
    if room == 0 {
      acts := [];
      NoSteps(cfg, q, s);
    } else {
      var e := if room < q.largest then room else q.largest;
      var a, r := Plain(e), Record(0, e, s.day);
      var m := Next(s, a);
      PlainEnabled(cfg, q, s, e);
      RecordEnabled(cfg, q, m, 0, e);
      var t := Next(m, r);
      assert t.inFlight == [];
      var rest := Fill(cfg, q, t, target);
      Prepend(cfg, q, m, r, rest);
      Prepend(cfg, q, s, a, [r] + rest);
      acts := [a] + ([r] + rest);
    }
  }

  lemma NoSteps(cfg: Config, q: Traffic, s: State)
    ensures Runs(cfg, q, s, []) && After(s, []) == s
  {
  }

  lemma RecordEnabled(cfg: Config, q: Traffic, s: State, i: nat, actual: int)
    requires i < |s.inFlight| && actual <= s.inFlight[i]
    ensures Enabled(cfg, q, s, Record(i, actual, s.day))
  {
  }

  /** Requests that all fit on their own are all let through together. */
  lemma {:induction false} Burst(cfg: Config, q: Traffic, s: State, n: nat) returns (acts: seq<Action>)
    requires Roomy(cfg, q) && 0 <= q.largest && |s.inFlight| + n <= q.k
    requires Used(s, s.day) + q.largest <= cfg.tokensPerDay
    ensures Runs(cfg, q, s, acts) && After(s, acts).day == s.day && After(s, acts).rows == s.rows
    ensures Sum(After(s, acts).inFlight) == Sum(s.inFlight) + Times(n, q.largest)
    decreases n
  {
    hide Enabled, Runs, After, Sum, Times;
    if n == 0 {
      acts := [];
      NoSteps(cfg, q, s);
      TimesNone(q.largest);
    } else {
      var a := Plain(q.largest);
      PlainEnabled(cfg, q, s, q.largest);
      SumAdd(s.inFlight, q.largest);
      var rest := Burst(cfg, q, Next(s, a), n - 1);
      Prepend(cfg, q, s, a, rest);
      acts := [a] + rest;
      TimesNext(n - 1, q.largest);
    }
  }

  /** Everything in flight is recorded at its estimate. */
  lemma {:induction false} RecordAll(cfg: Config, q: Traffic, s: State) returns (acts: seq<Action>)
    ensures Runs(cfg, q, s, acts) && After(s, acts).inFlight == [] && After(s, acts).day == s.day
    ensures Used(After(s, acts), s.day) == Used(s, s.day) + Sum(s.inFlight)
    decreases |s.inFlight|
  {
    hide Enabled, Runs, After;
    if s.inFlight == [] {
      acts := [];
      NoSteps(cfg, q, s);
    } else {
      var n := |s.inFlight| - 1;
      var r := Record(n, s.inFlight[n], s.day);
      RecordEnabled(cfg, q, s, n, s.inFlight[n]);
      var t := Next(s, r);
      assert t.inFlight == s.inFlight[..n];
      var rest := RecordAll(cfg, q, t);
      Prepend(cfg, q, s, r, rest);
      acts := [r] + rest;
    }
  }

  /** The bound is reached, for every number of requests in flight and every largest estimate: the day's row itself
      ends up holding that much. */
  lemma OvershootReached(cfg: Config, q: Traffic, day: int) returns (acts: seq<Action>)
    requires Roomy(cfg, q) && q.k >= 1 && 1 <= q.largest <= cfg.tokensPerDay
    ensures Runs(cfg, q, Start(day), acts)
    ensures After(Start(day), acts).inFlight == [] && After(Start(day), acts).day == day
    ensures Used(After(Start(day), acts), day) == Bound(cfg, q)
  {
    hide Enabled, Runs, After, Times;
    var s := Start(day);
    var filling := Fill(cfg, q, s, cfg.tokensPerDay - q.largest);
    var full := After(s, filling);
    var burst := Burst(cfg, q, full, q.k);
    Concat(cfg, q, s, filling, burst);
    var recording := RecordAll(cfg, q, After(full, burst));
    Concat(cfg, q, s, filling + burst, recording);
    acts := filling + burst + recording;
    TimesNext(q.k - 1, q.largest);
  }

  /** The day's recorded use keeps the daily limit in every run exactly when requests do not overlap (or cost
      nothing). */
  lemma LimitKeptIff(cfg: Config, q: Traffic, day: int)
    requires Roomy(cfg, q) && q.k >= 1 && 0 <= q.largest <= cfg.tokensPerDay
    ensures (forall acts :: Runs(cfg, q, Start(day), acts) ==>
               Used(After(Start(day), acts), After(Start(day), acts).day) <= cfg.tokensPerDay)
            <==> q.k == 1 || q.largest == 0
  {
    hide Enabled, Runs, After, Committed, Times;
    if q.k == 1 || q.largest == 0 {
      forall acts | Runs(cfg, q, Start(day), acts)
        ensures Used(After(Start(day), acts), After(Start(day), acts).day) <= cfg.tokensPerDay
      {
        StartInv(cfg, q, day);
        OvershootBound(cfg, q, Start(day), acts);
        TimesNone(q.largest);
      }
    } else {
      var acts := OvershootReached(cfg, q, day);
      TimesNone(q.largest);
      TimesNext(0, q.largest);
      TimesGrows(1, q.k - 1, q.largest);
      assert Used(After(Start(day), acts), After(Start(day), acts).day) > cfg.tokensPerDay;
    }
  }
}
