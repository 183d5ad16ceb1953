/** The lane queue against the queue that the priorities' names suggest, in which critical items go before high
    ones, over runs of enqueues and drains. */
module PriorityOrder {
  import opened Sorting
  import opened LaneQueue

  // ---------- The queue by urgency ----------

  function Take(len: nat, n: int): (k: nat)
    ensures k <= len
  {
    if n <= 0 then 0 else if n < len then n else len
  }

  function UrgentApply(s: seq<Item>, maxDepth: int, op: Op): seq<Item> {
    match op
    case Enqueue(x) => if |s| < maxDepth then Insert(s, x, Urgency) else s
    case Drain(n) => s[Take(|s|, n)..]
  }

  function UrgentRun(s: seq<Item>, maxDepth: int, ops: seq<Op>): seq<Item>
    decreases |ops|
  {
    if ops == [] then s else UrgentRun(UrgentApply(s, maxDepth, ops[0]), maxDepth, ops[1..])
  }

  /** What the drains return, one after the other. */
  function UrgentOutputs(s: seq<Item>, maxDepth: int, ops: seq<Op>): seq<seq<Item>>
    decreases |ops|
  {
    if ops == [] then []
    else
      var later := UrgentOutputs(UrgentApply(s, maxDepth, ops[0]), maxDepth, ops[1..]);
      if ops[0].Drain? then [s[..Take(|s|, ops[0].n)]] + later else later
  }

  function Outputs(q: Lanes, maxDepth: int, ops: seq<Op>): seq<seq<Item>>
    decreases |ops|
  {
    if ops == [] then []
    else
      var later := Outputs(Apply(q, maxDepth, ops[0]), maxDepth, ops[1..]);
      if ops[0].Drain? then [q.All()[..Served(q, ops[0].n)]] + later else later
  }

  /** The same items come out of every drain, in the same order, and the same are left in the same order. */
  ghost predicate Indistinguishable(q: Lanes, s: seq<Item>, maxDepth: int, ops: seq<Op>) {
    && Outputs(q, maxDepth, ops) == UrgentOutputs(s, maxDepth, ops)
    && Run(q, maxDepth, ops).All() == UrgentRun(s, maxDepth, ops)
  }

  // ---------- The arrivals that matter ----------

  predicate HighWaits(q: Lanes) {
    exists y :: y in q.high && y.priority == HIGH
  }

  /** A critical item is accepted while a high one is in the lane. */
  predicate Disturbs(q: Lanes, maxDepth: int, op: Op) {
    op.Enqueue? && op.item.priority == CRITICAL && q.Depth() < maxDepth && HighWaits(q)
  }

  predicate Disturbed(q: Lanes, maxDepth: int, ops: seq<Op>)
    decreases |ops|
  {
    ops != [] && (Disturbs(q, maxDepth, ops[0]) || Disturbed(Apply(q, maxDepth, ops[0]), maxDepth, ops[1..]))
  }

  // ---------- Undisturbed runs ----------

  lemma HighsAreInTheirLane(q: Lanes, y: Item)
    requires InLanes(q) && y in q.All() && y.priority == HIGH
    ensures HighWaits(q)
  {
    assert LaneOf(y) == 0.0;
    assert y in q.high;
  }

  lemma UndisturbedStep(q: Lanes, maxDepth: int, op: Op)
    requires InLanes(q) && Sorted(q.All(), Urgency) && !Disturbs(q, maxDepth, op)
    ensures var r := Apply(q, maxDepth, op);
            InLanes(r) && Sorted(r.All(), Urgency) && r.All() == UrgentApply(q.All(), maxDepth, op)
  {
    hide InLanes, Insert, Pushed, Drained;
    match op
    case Enqueue(x) =>
      if q.Depth() < maxDepth {
        PushInserts(q, x);
        if x.priority == CRITICAL {
          forall y | y in q.All() ensures y.priority != HIGH {
            if y.priority == HIGH {
              HighsAreInTheirLane(q, y);
            }
          }
        }
        InsertAgrees(q.All(), x);
        InsertKeepsSorted(q.All(), x, Urgency);
      }
    case Drain(n) =>
      DrainedInLanes(q, Served(q, n));
  }

  // ---------- Disturbed runs ----------

  /** The queue holds a high item before a critical one, and what it holds has the same items as s, in order. */
  ghost predicate Inverted(q: Lanes, s: seq<Item>) {
    && InLanes(q) && Sorted(s, Urgency) && multiset(q.All()) == multiset(s)
    && HighBeforeCritical(q.All())
  }

  lemma InsertedKeepsPair(s: seq<Item>, x: Item, j: nat)
    requires j <= |s| && HighBeforeCritical(s)
    ensures HighBeforeCritical(s[..j] + [x] + s[j..])
  {
    var a, b :| 0 <= a < b < |s| && s[a].priority == HIGH && s[b].priority == CRITICAL;
    var t := s[..j] + [x] + s[j..];
    var c, d := if a < j then a else a + 1, if b < j then b else b + 1;
    assert t[c] == s[a] && t[d] == s[b];
  }

  lemma PushKeepsInverted(q: Lanes, s: seq<Item>, x: Item)
    requires Inverted(q, s)
    ensures Inverted(Pushed(q, x), Insert(s, x, Urgency))
  {
    hide Insert, Pushed, HighBeforeCritical, InLanes, Lanes.All;
    PushInserts(q, x);
    PushedSplits(q, x);
    InsertAdds(q.All(), x, LaneOf);
    InsertAdds(s, x, Urgency);
    InsertKeepsSorted(s, x, Urgency);
    var j := if LaneOf(x) == 0.0 then |q.high| else if LaneOf(x) == 1.0 then |q.high| + |q.normal| else q.Depth();
    InsertedKeepsPair(q.All(), x, j);
  }

  lemma PairIsUnsorted(s: seq<Item>)
    requires HighBeforeCritical(s)
    ensures !Sorted(s, Urgency)
  {
  }

  lemma Cancel(a: multiset<Item>, b: multiset<Item>, c: multiset<Item>)
    requires a + b == a + c
    ensures b == c
  {
    forall x ensures b[x] == c[x] {
      assert (a + b)[x] == a[x] + b[x] && (a + c)[x] == a[x] + c[x];
    }
  }

  lemma RestsMatch(s: seq<Item>, t: seq<Item>, k: nat)
    requires multiset(s) == multiset(t) && k <= |s| && k <= |t| && s[..k] == t[..k]
    ensures multiset(s[k..]) == multiset(t[k..])
  {
    assert s == s[..k] + s[k..] && t == t[..k] + t[k..];
    assert multiset(s) == multiset(s[..k]) + multiset(s[k..]);
    assert multiset(t) == multiset(t[..k]) + multiset(t[k..]);
    Cancel(multiset(s[..k]), multiset(s[k..]), multiset(t[k..]));
  }

  /** A high item in the part that both share has no critical one behind it in either. */
  lemma NoCriticalAfter(s: seq<Item>, t: seq<Item>, a: nat, b: nat)
    requires Sorted(t, Urgency) && multiset(s) == multiset(t)
    requires a < b < |s| && a < |t| && s[..a + 1] == t[..a + 1] && s[a].priority == HIGH
    ensures s[b].priority != CRITICAL
  {
    RestsMatch(s, t, a + 1);
    assert t[a] == t[..a + 1][a] == s[a];
    assert s[a + 1..][b - a - 1] in multiset(s[a + 1..]);
    var c :| 0 <= c < |t[a + 1..]| && t[a + 1..][c] == s[b];
    assert Urgency(t[a]) <= Urgency(t[a + 1 + c]);
  }

  /** If both give the same first k items, the pair out of order is still behind them. */
  lemma PairStaysBehind(s: seq<Item>, t: seq<Item>, k: nat)
    requires Sorted(t, Urgency) && multiset(s) == multiset(t) && HighBeforeCritical(s)
    requires k <= |s| && k <= |t| && s[..k] == t[..k]
    ensures multiset(s[k..]) == multiset(t[k..]) && HighBeforeCritical(s[k..])
  {
    hide Sorted;
    RestsMatch(s, t, k);
    var a, b :| 0 <= a < b < |s| && s[a].priority == HIGH && s[b].priority == CRITICAL;
    if k <= a {
      assert s[k..][a - k] == s[a] && s[k..][b - k] == s[b];
    } else {
      assert s[..a + 1] == s[..k][..a + 1] && t[..a + 1] == t[..k][..a + 1];
      NoCriticalAfter(s, t, a, b);
    }
  }

  lemma {:induction false} InvertedShows(q: Lanes, s: seq<Item>, maxDepth: int, ops: seq<Op>)
    requires Inverted(q, s)
    ensures !Indistinguishable(q, s, maxDepth, ops)
    decreases |ops|
  {
    hide InLanes, Insert, Pushed, Drained, HighBeforeCritical, Sorted, Lanes.Depth, Lanes.All;
    SameLength(q, s);
    if ops == [] {
      PairIsUnsorted(q.All());
    } else {
      var r, t := Apply(q, maxDepth, ops[0]), UrgentApply(s, maxDepth, ops[0]);
      match ops[0] {
        case Enqueue(x) =>
          if q.Depth() < maxDepth {
            PushKeepsInverted(q, s, x);
          }
          InvertedShows(r, t, maxDepth, ops[1..]);
        case Drain(n) =>
          var k := Served(q, n);
          FirstOutput(q, s, maxDepth, ops);
          if q.All()[..k] == s[..k] {
            PairStaysBehind(q.All(), s, k);
            DrainedInLanes(q, k);
            SortedTail(s, k);
            InvertedShows(r, t, maxDepth, ops[1..]);
          }
      }
    }
  }

  lemma FirstOutput(q: Lanes, s: seq<Item>, maxDepth: int, ops: seq<Op>)
    requires ops != [] && ops[0].Drain?
    ensures var r, t := Apply(q, maxDepth, ops[0]), UrgentApply(s, maxDepth, ops[0]);
            Indistinguishable(q, s, maxDepth, ops) ==>
              && q.All()[..Served(q, ops[0].n)] == s[..Take(|s|, ops[0].n)]
              && Indistinguishable(r, t, maxDepth, ops[1..])
  {
    hide Apply, UrgentApply, Served, Take, Lanes.All;
    var r, t := Apply(q, maxDepth, ops[0]), UrgentApply(s, maxDepth, ops[0]);
    assert Outputs(q, maxDepth, ops)[1..] == Outputs(r, maxDepth, ops[1..]);
    assert UrgentOutputs(s, maxDepth, ops)[1..] == UrgentOutputs(t, maxDepth, ops[1..]);
    assert Outputs(q, maxDepth, ops)[0] == q.All()[..Served(q, ops[0].n)];
  }

  lemma SameLength(q: Lanes, s: seq<Item>)
    requires multiset(q.All()) == multiset(s)
    ensures |s| == |q.All()| == q.Depth()
  {
    assert |multiset(s)| == |multiset(q.All())|;
  }

  lemma SortedTail(s: seq<Item>, k: nat)
    requires Sorted(s, Urgency) && k <= |s|
    ensures Sorted(s[k..], Urgency)
  {
  }

  lemma DisturbingInverts(q: Lanes, x: Item)
    requires InLanes(q) && Sorted(q.All(), Urgency) && x.priority == CRITICAL && HighWaits(q)
    ensures Inverted(Pushed(q, x), Insert(q.All(), x, Urgency))
  {
    hide Insert, InLanes, Sorted;
    PushInserts(q, x);
    InsertAdds(q.All(), x, LaneOf);
    InsertAdds(q.All(), x, Urgency);
    InsertKeepsSorted(q.All(), x, Urgency);
    var y :| y in q.high && y.priority == HIGH;
    var i :| 0 <= i < |q.high| && q.high[i] == y;
    var r := Pushed(q, x).All();
    assert r[i] == y && r[|q.high|] == x;
  }

  /** Whatever is enqueued and drained, nobody can tell the lane queue from one in which critical items go first, if
      and only if no critical item is ever accepted while a high one is waiting. */
  lemma {:induction false} UrgencyKeptIff(q: Lanes, maxDepth: int, ops: seq<Op>)
    requires InLanes(q) && Sorted(q.All(), Urgency)
    ensures Indistinguishable(q, q.All(), maxDepth, ops) <==> !Disturbed(q, maxDepth, ops)
    decreases |ops|
  {
    hide InLanes, Insert, Pushed, Drained, Sorted, HighWaits, Lanes.All, Lanes.Depth;
    if ops != [] {
      if Disturbs(q, maxDepth, ops[0]) {
        var x := ops[0].item;
        DisturbingInverts(q, x);
        DepthIsLength(q);
        InvertedShows(Pushed(q, x), Insert(q.All(), x, Urgency), maxDepth, ops[1..]);
      } else {
        UndisturbedStep(q, maxDepth, ops[0]);
        DepthIsLength(q);
        if ops[0].Drain? {
          FirstOutput(q, q.All(), maxDepth, ops);
        }
        UrgencyKeptIff(Apply(q, maxDepth, ops[0]), maxDepth, ops[1..]);
      }
    }
  }

  lemma DepthIsLength(q: Lanes)
    ensures q.Depth() == |q.All()|
  {
  }
}
