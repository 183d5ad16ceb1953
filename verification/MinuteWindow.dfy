/** The in-memory counters of the per-minute token limit, as the log of the lock regions that touched them.  A
    step carries the minute its caller read from the clock before it got the lock. */
module MinuteWindow {

  datatype Counter = Counter(used: int, window: int)

  datatype Due = Due(tenant: string, window: int, tokens: int)

  datatype Step =
    | Check(tenant: string, window: int, estimate: int, limit: int)
    | Post(due: Due)           // recorded in the table's minute row
    | Count(i: nat, due: Due)  // then, by the same call, in the counter: the i-th of those still to count
    | Flush(window: int)

  type Counters = map<string, Counter>

  /** The counter a check of this minute works with. */
  function Watched(cs: Counters, tenant: string, window: int): Counter {
    if tenant in cs && cs[tenant].window == window then cs[tenant] else Counter(0, window)
  }

  function Counted(cs: Counters, d: Due): Counters {
    if d.tenant in cs && cs[d.tenant].window == d.window
    then cs[d.tenant := Counter(cs[d.tenant].used + d.tokens, d.window)]
    else cs
  }

  function Flushed(cs: Counters, window: int): Counters {
    map t | t in cs && cs[t].window == window :: cs[t]
  }

  function Stepped(cs: Counters, a: Step): Counters {
    match a
    case Check(t, w, _, _) => cs[t := Watched(cs, t, w)]
    case Post(_) => cs
    case Count(_, d) => Counted(cs, d)
    case Flush(w) => Flushed(cs, w)
  }

  function After(log: seq<Step>): Counters {
    if log == [] then map[] else Stepped(After(log[..|log| - 1]), log[|log| - 1])
  }

  /** What a check decides. */
  predicate Permits(cs: Counters, tenant: string, window: int, estimate: int, limit: int) {
    Watched(cs, tenant, window).used + estimate <= limit
  }

  // ---------- What the counters should hold ----------

  predicate Starts(a: Step, tenant: string, window: int) {
    a.Check? && a.tenant == tenant && a.window == window
  }

  predicate Ends(a: Step, tenant: string, window: int) {
    (a.Check? && a.tenant == tenant && a.window != window) || (a.Flush? && a.window != window)
  }

  predicate Counts(a: Step, tenant: string, window: int) {
    a.Count? && a.due.tenant == tenant && a.due.window == window
  }

  ghost predicate Started(log: seq<Step>, tenant: string, window: int) {
    exists a :: a in log && Starts(a, tenant, window)
  }

  /** The tokens recorded for a tenant and a minute since the first check of that minute. */
  ghost function Tally(log: seq<Step>, tenant: string, window: int): int {
    if log == [] then 0
    else
      var init, a := log[..|log| - 1], log[|log| - 1];
      Tally(init, tenant, window)
      + if Counts(a, tenant, window) && Started(init, tenant, window) then a.due.tokens else 0
  }

  /** The last word on this tenant's counter was a check of this minute. */
  predicate Watching(log: seq<Step>, tenant: string, window: int) {
    if log == [] then false
    else
      var a := log[|log| - 1];
      Starts(a, tenant, window) || (!Ends(a, tenant, window) && Watching(log[..|log| - 1], tenant, window))
  }

  /** The part of the tally from before the counter was last started. */
  ghost function Missed(log: seq<Step>, tenant: string, window: int): int {
    if log == [] then 0
    else if Watching(log, tenant, window) && Watching(log[..|log| - 1], tenant, window)
    then Missed(log[..|log| - 1], tenant, window)
    else Tally(log, tenant, window)
  }

  lemma {:induction false} WatchingMeans(log: seq<Step>, tenant: string, window: int)
    ensures Watching(log, tenant, window) <==> tenant in After(log) && After(log)[tenant].window == window
  {
    if log != [] {
      WatchingMeans(log[..|log| - 1], tenant, window);
    }
  }

  lemma {:induction false} TallyNeedsStart(log: seq<Step>, tenant: string, window: int)
    requires !Started(log, tenant, window)
    ensures Tally(log, tenant, window) == 0
  {
    if log != [] {
      var init := log[..|log| - 1];
      assert forall a :: a in init ==> a in log;
      TallyNeedsStart(init, tenant, window);
    }
  }

  lemma {:induction false} WatchingIsStarted(log: seq<Step>, tenant: string, window: int)
    requires Watching(log, tenant, window)
    ensures Started(log, tenant, window)
  {
    var init, a := log[..|log| - 1], log[|log| - 1];
    assert a in log;
    if !Starts(a, tenant, window) {
      WatchingIsStarted(init, tenant, window);
      var b :| b in init && Starts(b, tenant, window);
      assert b in log;
    }
  }

  /** For every log, in whatever order its minutes come. */
  lemma {:induction false} UsedIsTallyLessMissed(log: seq<Step>, tenant: string, window: int)
    ensures Watched(After(log), tenant, window).used == Tally(log, tenant, window) - Missed(log, tenant, window)
  {
    hide Started;
    WatchingMeans(log, tenant, window);
    if log != [] {
      var init := log[..|log| - 1];
      WatchingMeans(init, tenant, window);
      UsedIsTallyLessMissed(init, tenant, window);
      if Watching(init, tenant, window) {
        WatchingIsStarted(init, tenant, window);
      }
    }
  }

  /** A check decides by the tokens recorded in its minute, exactly when nothing has been missed. */
  lemma CheckIsExactIff(log: seq<Step>, tenant: string, window: int)
    ensures (forall estimate, limit ::
               Permits(After(log), tenant, window, estimate, limit) <==> Tally(log, tenant, window) + estimate <= limit)
            <==> Missed(log, tenant, window) == 0
  {
    UsedIsTallyLessMissed(log, tenant, window);
    var used, tally := Watched(After(log), tenant, window).used, Tally(log, tenant, window);
    if used != tally {
      var limit := if used < tally then used else tally;
      assert Permits(After(log), tenant, window, 0, limit) <==> used <= limit;
    }
  }

  // ---------- Minutes in order ----------

  predicate Clocked(a: Step) { a.Check? || a.Flush? }

  ghost predicate NoneLater(log: seq<Step>, window: int) {
    forall a :: a in log && Clocked(a) ==> a.window <= window
  }

  /** Checks and flushes get the lock in the order of the minutes they carry. */
  ghost predicate Ordered(log: seq<Step>) {
    log == [] ||
    var init, a := log[..|log| - 1], log[|log| - 1];
    Ordered(init) && (Clocked(a) ==> NoneLater(init, a.window))
  }

  lemma {:induction false} StartedIsWatching(log: seq<Step>, tenant: string, window: int)
    requires Ordered(log) && NoneLater(log, window) && Started(log, tenant, window)
    ensures Watching(log, tenant, window)
  {
    var init, a := log[..|log| - 1], log[|log| - 1];
    var b :| b in log && Starts(b, tenant, window);
    assert log == init + [a];
    assert a in log;
    if !Starts(a, tenant, window) {
      assert b in init && Clocked(b);
      assert Started(init, tenant, window);
      assert Clocked(a) ==> a.window == window;
      StartedIsWatching(init, tenant, window);
    }
  }

  lemma {:induction false} NothingMissedInOrder(log: seq<Step>, tenant: string, window: int)
    requires Ordered(log) && NoneLater(log, window)
    ensures Missed(log, tenant, window) == 0
  {
    if log != [] {
      var init, a := log[..|log| - 1], log[|log| - 1];
      assert log == init + [a];
      if Watching(log, tenant, window) && Watching(init, tenant, window) {
        NothingMissedInOrder(init, tenant, window);
      } else if Started(init, tenant, window) {
        StartedIsWatching(init, tenant, window);
        assert Started(log, tenant, window) by {
          var b :| b in init && Starts(b, tenant, window);
          assert b in log;
        }
        StartedIsWatching(log, tenant, window);
      } else {
        TallyNeedsStart(init, tenant, window);
      }
    }
  }

  /** In order, every check decides by what has been recorded in its minute since the first check of it. */
  lemma CheckDecides(log: seq<Step>, tenant: string, window: int, estimate: int, limit: int)
    requires Ordered(log) && NoneLater(log, window)
    ensures Watched(After(log), tenant, window).used == Tally(log, tenant, window)
    ensures Permits(After(log), tenant, window, estimate, limit) <==> Tally(log, tenant, window) + estimate <= limit
  {
    NothingMissedInOrder(log, tenant, window);
    UsedIsTallyLessMissed(log, tenant, window);
  }

  // ---------- The flush loop is invisible ----------

  function Unflushed(log: seq<Step>): seq<Step> {
    if log == [] then []
    else Unflushed(log[..|log| - 1]) + if log[|log| - 1].Flush? then [] else [log[|log| - 1]]
  }

  lemma {:induction false} UnflushedHas(log: seq<Step>, a: Step)
    ensures a in Unflushed(log) <==> a in log && !a.Flush?
  {
    if log != [] {
      UnflushedHas(log[..|log| - 1], a);
      assert log == log[..|log| - 1] + [log[|log| - 1]];
    }
  }

  lemma UnflushedLater(log: seq<Step>, window: int)
    requires NoneLater(log, window)
    ensures NoneLater(Unflushed(log), window)
  {
    forall a | a in Unflushed(log) && Clocked(a) ensures a.window <= window {
      UnflushedHas(log, a);
    }
  }

  lemma UnflushedStarted(log: seq<Step>, tenant: string, window: int)
    ensures Started(Unflushed(log), tenant, window) <==> Started(log, tenant, window)
  {
    forall a ensures a in Unflushed(log) <==> a in log && !a.Flush? {
      UnflushedHas(log, a);
    }
  }

  lemma Appended(log: seq<Step>, a: Step, tenant: string, window: int)
    ensures Tally(log + [a], tenant, window) ==
            Tally(log, tenant, window)
            + if Counts(a, tenant, window) && Started(log, tenant, window) then a.due.tokens else 0
    ensures Ordered(log + [a]) <==> Ordered(log) && (Clocked(a) ==> NoneLater(log, a.window))
    ensures After(log + [a]) == Stepped(After(log), a)
  {
    hide Started, NoneLater;
    assert (log + [a])[..|log|] == log;
  }

  lemma {:induction false} UnflushedTally(log: seq<Step>, tenant: string, window: int)
    requires Ordered(log)
    ensures Ordered(Unflushed(log)) && Tally(Unflushed(log), tenant, window) == Tally(log, tenant, window)
  {
    hide Started, NoneLater;
    if log != [] {
      var init, a := log[..|log| - 1], log[|log| - 1];
      UnflushedTally(init, tenant, window);
      assert log == init + [a];
      if !a.Flush? {
        assert Unflushed(log) == Unflushed(init) + [a];
        Appended(Unflushed(init), a, tenant, window);
        UnflushedStarted(init, tenant, window);
        if Clocked(a) {
          UnflushedLater(init, a.window);
        }
      } else {
        assert Unflushed(log) == Unflushed(init);
      }
    }
  }

  /** Wherever rounds of the flush loop fall, every check decides as if there were none. */
  lemma FlushIsInvisible(log: seq<Step>, tenant: string, window: int, estimate: int, limit: int)
    requires Ordered(log) && NoneLater(log, window)
    ensures Permits(After(log), tenant, window, estimate, limit)
            <==> Permits(After(Unflushed(log)), tenant, window, estimate, limit)
  {
    UnflushedTally(log, tenant, window);
    UnflushedLater(log, window);
    CheckDecides(log, tenant, window, estimate, limit);
    CheckDecides(Unflushed(log), tenant, window, estimate, limit);
  }

  /** A flush, or a check, that read the clock before the minute turned and got the lock after it, loses the
      tokens recorded since. */
  lemma LateReadingLosesTokens(late: Step)
    requires late == Flush(4) || late == Check("t", 4, 1, 100)
    ensures var d := Due("t", 5, 60);
            var log := [Check("t", 5, 60, 100), Post(d), Count(0, d), late];
            Tally(log, "t", 5) == 60 && Permits(After(log), "t", 5, 50, 100)
  {
    var d := Due("t", 5, 60);
    var first := Check("t", 5, 60, 100);
    var l1, l2, l3 := [] + [first], [first] + [Post(d)], [first, Post(d)] + [Count(0, d)];
    Appended([], first, "t", 5);
    Appended(l1, Post(d), "t", 5);
    Appended(l2, Count(0, d), "t", 5);
    Appended(l3, late, "t", 5);
    assert Starts(first, "t", 5) && first in l2;
    assert l3 + [late] == [first, Post(d), Count(0, d), late] && l1 == [first] && l2 == [first, Post(d)];
  }

  // ---------- How late a reading may be ----------

  /** Whoever gets the lock carries a minute at most d before that of anybody who had it earlier. */
  ghost predicate LateBy(log: seq<Step>, d: nat) {
    forall i, j :: 0 <= i < j < |log| && Clocked(log[i]) && Clocked(log[j]) ==> log[i].window <= log[j].window + d
  }

  lemma {:induction false} OnTimeIsOrdered(log: seq<Step>)
    requires LateBy(log, 0)
    ensures Ordered(log)
  {
    if log != [] {
      var init, a := log[..|log| - 1], log[|log| - 1];
      OnTimeIsOrdered(init);
      if Clocked(a) {
        forall b | b in init && Clocked(b) ensures b.window <= a.window {
          var i :| 0 <= i < |init| && init[i] == b;
          assert log[i] == b;
        }
      }
    }
  }

  ghost predicate DecidesByTally(log: seq<Step>, c: Step)
    requires c.Check?
  {
    Permits(After(log), c.tenant, c.window, c.estimate, c.limit)
    <==> Tally(log, c.tenant, c.window) + c.estimate <= c.limit
  }

  /** Checks decide by the tally in every run whose readings are at most d minutes late, if and only if d is 0. */
  lemma ExactIffOnTime(d: nat)
    ensures (forall log, c: Step :: c.Check? && LateBy(log + [c], d) ==> DecidesByTally(log, c)) <==> d == 0
  {
    hide Started, Tally, After, Permits;
    if d == 0 {
      forall log, c: Step | c.Check? && LateBy(log + [c], d)
        ensures DecidesByTally(log, c)
      {
        var all := log + [c];
        OnTimeIsOrdered(all);
        assert all[..|log|] == log && all[|log|] == c;
        CheckDecides(log, c.tenant, c.window, c.estimate, c.limit);
      }
    } else {
      var due := Due("t", 5, 60);
      var log := [Check("t", 5, 60, 100), Post(due), Count(0, due), Flush(4)];
      var c := Check("t", 5, 50, 100);
      LateReadingLosesTokens(Flush(4));
      assert LateBy(log + [c], d) && !DecidesByTally(log, c);
    }
  }

  // ---------- Which tokens are missed ----------

  ghost predicate NoRefunds(log: seq<Step>) {
    forall a :: a in log && (a.Post? || a.Count?) ==> a.due.tokens >= 0
  }

  /** Step j counts tokens of the minute, after a first check of it, that a check after the log will not see: nobody
      is watching the minute when they arrive, or another minute's check or flush comes after them. */
  ghost predicate Lost(log: seq<Step>, tenant: string, window: int, j: nat) {
    && j < |log| && Counts(log[j], tenant, window) && log[j].due.tokens > 0
    && Started(log[..j], tenant, window)
    && (!Watching(log[..j], tenant, window) || exists m :: j < m < |log| && Ends(log[m], tenant, window))
  }

  ghost predicate LosesTokens(log: seq<Step>, tenant: string, window: int) {
    exists j: nat :: Lost(log, tenant, window, j)
  }

  ghost predicate Tallied(log: seq<Step>, tenant: string, window: int, j: nat) {
    j < |log| && Counts(log[j], tenant, window) && log[j].due.tokens > 0 && Started(log[..j], tenant, window)
  }

  lemma {:induction false} TallyIsNat(log: seq<Step>, tenant: string, window: int)
    requires NoRefunds(log)
    ensures Tally(log, tenant, window) >= 0
  {
    hide Started;
    if log != [] {
      var init := log[..|log| - 1];
      assert log == init + [log[|log| - 1]];
      TallyIsNat(init, tenant, window);
    }
  }

  lemma {:induction false} PositiveTally(log: seq<Step>, tenant: string, window: int)
    requires NoRefunds(log)
    ensures Tally(log, tenant, window) > 0 <==> exists j: nat :: Tallied(log, tenant, window, j)
  {
    hide Started;
    if log != [] {
      var n := |log| - 1;
      var init, a := log[..n], log[n];
      assert log == init + [a];
      PositiveTally(init, tenant, window);
      TallyIsNat(init, tenant, window);
      forall j: nat | j < n ensures Tallied(log, tenant, window, j) == Tallied(init, tenant, window, j) {
        assert log[..j] == init[..j];
      }
      if Tally(log, tenant, window) > 0 {
        if Tally(init, tenant, window) > 0 {
          var j: nat :| Tallied(init, tenant, window, j);
          assert Tallied(log, tenant, window, j);
        } else {
          assert Tallied(log, tenant, window, n);
        }
      } else {
        forall j: nat ensures !Tallied(log, tenant, window, j) {
          assert j < n ==> !Tallied(init, tenant, window, j);
        }
      }
    }
  }

  lemma {:induction false} EndedSince(log: seq<Step>, tenant: string, window: int, j: nat) returns (m: nat)
    requires j <= |log| && Watching(log[..j], tenant, window) && !Watching(log, tenant, window)
    ensures j <= m < |log| && Ends(log[m], tenant, window)
  {
    var n := |log| - 1;
    assert log[..|log|] == log;
    if Ends(log[n], tenant, window) {
      m := n;
    } else {
      assert log[..n][..j] == log[..j];
      m := EndedSince(log[..n], tenant, window, j);
    }
  }

  lemma LostWhenUnwatched(log: seq<Step>, tenant: string, window: int)
    requires NoRefunds(log) && !Watching(log, tenant, window)
    ensures Tally(log, tenant, window) > 0 <==> LosesTokens(log, tenant, window)
  {
    hide Started, Watching;
    PositiveTally(log, tenant, window);
    if Tally(log, tenant, window) > 0 {
      var j: nat :| Tallied(log, tenant, window, j);
      if Watching(log[..j], tenant, window) {
        var m := EndedSince(log, tenant, window, j);
      }
      assert Lost(log, tenant, window, j);
    } else {
      forall j: nat ensures !Lost(log, tenant, window, j) {
        assert !Tallied(log, tenant, window, j);
      }
    }
  }

  /** A step that ends nothing loses nothing that was not lost before it, unless it comes unwatched. */
  lemma LostBefore(log: seq<Step>, tenant: string, window: int)
    requires log != [] && !Ends(log[|log| - 1], tenant, window)
    requires Counts(log[|log| - 1], tenant, window) ==> Watching(log[..|log| - 1], tenant, window)
    ensures LosesTokens(log, tenant, window) <==> LosesTokens(log[..|log| - 1], tenant, window)
  {
    hide Started, Watching;
    var n := |log| - 1;
    var init := log[..n];
    forall j: nat ensures Lost(log, tenant, window, j) == Lost(init, tenant, window, j) {
      if j < n {
        assert log[..j] == init[..j] && log[j] == init[j];
        forall m | j < m < n ensures log[m] == init[m] {
        }
        if exists m :: j < m < |log| && Ends(log[m], tenant, window) {
          var m :| j < m < |log| && Ends(log[m], tenant, window);
          assert m < n && Ends(init[m], tenant, window);
        }
        if exists m :: j < m < |init| && Ends(init[m], tenant, window) {
          var m :| j < m < |init| && Ends(init[m], tenant, window);
          assert Ends(log[m], tenant, window);
        }
      }
    }
  }

  /** Nothing is missed, and so every check is exact, if and only if no step of the log is one whose tokens get
      lost. */
  lemma {:induction false} MissedIffLost(log: seq<Step>, tenant: string, window: int)
    requires NoRefunds(log)
    ensures Missed(log, tenant, window) == 0 <==> !LosesTokens(log, tenant, window)
  {
    hide Started, LosesTokens;
    if log == [] {
      NothingLostYet(tenant, window);
    } else {
      var init, a := log[..|log| - 1], log[|log| - 1];
      assert log == init + [a];
      TallyIsNat(log, tenant, window);
      if !Watching(log, tenant, window) {
        LostWhenUnwatched(log, tenant, window);
      } else {
        LostBefore(log, tenant, window);
        if Watching(init, tenant, window) {
          MissedIffLost(init, tenant, window);
        } else {
          LostWhenUnwatched(init, tenant, window);
        }
      }
    }
  }

  lemma NothingLostYet(tenant: string, window: int)
    ensures !LosesTokens([], tenant, window)
  {
  }

  // ---------- The table's minute rows ----------

  /** The minute row of the table. */
  function Row(log: seq<Step>, tenant: string, window: int): int {
    if log == [] then 0
    else
      var a := log[|log| - 1];
      Row(log[..|log| - 1], tenant, window)
      + if a.Post? && a.due.tenant == tenant && a.due.window == window then a.due.tokens else 0
  }

  function Without<T>(s: seq<T>, i: nat): seq<T> {
    if i < |s| then s[..i] + s[i + 1..] else s
  }

  /** Recorded in the table and not yet in a counter. */
  function Dues(log: seq<Step>): seq<Due> {
    if log == [] then []
    else
      var ds, a := Dues(log[..|log| - 1]), log[|log| - 1];
      if a.Post? then ds + [a.due] else if a.Count? then Without(ds, a.i) else ds
  }

  /** Every count is the second half of some record. */
  predicate Backed(log: seq<Step>) {
    log == [] ||
    var init, a := log[..|log| - 1], log[|log| - 1];
    Backed(init) && (a.Count? ==> a.i < |Dues(init)| && Dues(init)[a.i] == a.due)
  }

  function Part(d: Due, tenant: string, window: int): int {
    if d.tenant == tenant && d.window == window then d.tokens else 0
  }

  function Weight(ds: seq<Due>, tenant: string, window: int): int {
    if ds == [] then 0 else Weight(ds[..|ds| - 1], tenant, window) + Part(ds[|ds| - 1], tenant, window)
  }

  lemma {:induction false} WeightWithout(ds: seq<Due>, i: nat, tenant: string, window: int)
    requires i < |ds|
    ensures Weight(Without(ds, i), tenant, window) == Weight(ds, tenant, window) - Part(ds[i], tenant, window)
  {
    var n := |ds| - 1;
    var w := Without(ds, i);
    if i < n {
      WeightWithout(ds[..n], i, tenant, window);
      assert w[..n - 1] == Without(ds[..n], i) && w[n - 1] == ds[n];
    } else {
      assert w == ds[..n];
    }
  }

  /** All tokens that reached the counting step. */
  function Arrived(log: seq<Step>, tenant: string, window: int): int {
    if log == [] then 0
    else
      var a := log[|log| - 1];
      Arrived(log[..|log| - 1], tenant, window) + if a.Count? then Part(a.due, tenant, window) else 0
  }

  /** Nothing is lost on the way from the table to the counting step. */
  lemma {:induction false} RowIsArrivedAndDue(log: seq<Step>, tenant: string, window: int)
    requires Backed(log)
    ensures Row(log, tenant, window) == Arrived(log, tenant, window) + Weight(Dues(log), tenant, window)
  {
    if log != [] {
      var init, a := log[..|log| - 1], log[|log| - 1];
      RowIsArrivedAndDue(init, tenant, window);
      if a.Count? {
        WeightWithout(Dues(init), a.i, tenant, window);
      } else if a.Post? {
        assert Dues(log)[..|Dues(log)| - 1] == Dues(init);
      }
    }
  }

  lemma {:induction false} WeightIsNat(log: seq<Step>, tenant: string, window: int)
    requires NoRefunds(log)
    ensures forall d :: d in Dues(log) ==> d.tokens >= 0
  {
    if log != [] {
      var init := log[..|log| - 1];
      assert log == init + [log[|log| - 1]];
      WeightIsNat(init, tenant, window);
    }
  }

  lemma {:induction false} WeightOfNats(ds: seq<Due>, tenant: string, window: int)
    requires forall d :: d in ds ==> d.tokens >= 0
    ensures Weight(ds, tenant, window) >= 0
  {
    if ds != [] {
      assert ds[|ds| - 1] in ds;
      WeightOfNats(ds[..|ds| - 1], tenant, window);
    }
  }

  lemma {:induction false} TallyWithinArrived(log: seq<Step>, tenant: string, window: int)
    requires NoRefunds(log)
    ensures 0 <= Missed(log, tenant, window) <= Tally(log, tenant, window) <= Arrived(log, tenant, window)
  {
    hide Started;
    if log != [] {
      var init := log[..|log| - 1];
      assert log == init + [log[|log| - 1]];
      TallyWithinArrived(init, tenant, window);
    }
  }

  /** Whatever the order, the live counter is never more than the table's minute row. */
  lemma CounterWithinRow(log: seq<Step>, tenant: string, window: int)
    requires Backed(log) && NoRefunds(log)
    ensures 0 <= Watched(After(log), tenant, window).used <= Row(log, tenant, window)
  {
    UsedIsTallyLessMissed(log, tenant, window);
    TallyWithinArrived(log, tenant, window);
    RowIsArrivedAndDue(log, tenant, window);
    WeightIsNat(log, tenant, window);
    WeightOfNats(Dues(log), tenant, window);
  }
}
