/** The per-model queue with three lanes, and the one list it behaves like. */
module LaneQueue {
  import opened Sorting

  const NORMAL := 1
  const HIGH := 2
  const CRITICAL := 3

  /** An accepted request; the priority is whatever number the request carried. */
  datatype Item = Item(id: nat, priority: int)

  datatype Lanes = Lanes(high: seq<Item>, normal: seq<Item>, low: seq<Item>) {
    /** What Drain would return first, next, ... */
    function All(): (s: seq<Item>)
      ensures |s| == Depth()
    {
      high + normal + low
    }

    function Depth(): nat { |high| + |normal| + |low| }
  }

  const EMPTY := Lanes([], [], [])

  /** Critical and high share a lane; unknown priorities are low. */
  function LaneOf(x: Item): (lane: real)
    ensures lane == 0.0 || lane == 1.0 || lane == 2.0
  {
    if x.priority == CRITICAL || x.priority == HIGH then 0.0
    else if x.priority == NORMAL then 1.0
    else 2.0
  }

  function Pushed(q: Lanes, x: Item): Lanes {
    if LaneOf(x) == 0.0 then q.(high := q.high + [x])
    else if LaneOf(x) == 1.0 then q.(normal := q.normal + [x])
    else q.(low := q.low + [x])
  }

  function PopFirst(q: Lanes): Lanes
    requires q.Depth() > 0
  {
    if q.high != [] then q.(high := q.high[1..])
    else if q.normal != [] then q.(normal := q.normal[1..])
    else q.(low := q.low[1..])
  }

  function Drained(q: Lanes, k: nat): (r: Lanes)
    requires k <= q.Depth()
    ensures r.All() == q.All()[k..]
    decreases k
  {
    if k == 0 then
      assert q.All()[0..] == q.All();
      q
    else
      PopAll(q);
      Drained(PopFirst(q), k - 1)
  }

  lemma PopAll(q: Lanes)
    requires q.Depth() > 0
    ensures PopFirst(q).All() == q.All()[1..]
    ensures PopFirst(q).Depth() == q.Depth() - 1
  {
  }

  lemma {:induction false} DrainedStep(q: Lanes, k: nat)
    requires k < q.Depth()
    ensures Drained(q, k).Depth() == q.Depth() - k
    ensures Drained(q, k + 1) == PopFirst(Drained(q, k))
    decreases k
  {
    PopAll(q);
    if k > 0 {
      DrainedStep(PopFirst(q), k - 1);
    }
  }

  function Head(q: Lanes): (x: Item)
    requires q.Depth() > 0
    ensures x == q.All()[0]
  {
    if q.high != [] then q.high[0] else if q.normal != [] then q.normal[0] else q.low[0]
  }

  /** One turn of the drain loop. */
  lemma TakeNext(q: Lanes, k: nat)
    requires InLanes(q) && k < q.Depth()
    ensures var now := Drained(q, k);
            && now.Depth() == q.Depth() - k
            && q.All()[..k + 1] == q.All()[..k] + [Head(now)]
            && Drained(q, k + 1) == PopFirst(now)
            && Drained(q, k + 1).Depth() == now.Depth() - 1
  {
    hide Head, PopFirst;
    DrainedStep(q, k);
    PopAll(Drained(q, k));
    assert q.All()[k..][0] == q.All()[k];
  }

  lemma NothingTaken(q: Lanes)
    ensures q.All()[..0] == [] && Drained(q, 0) == q
  {
  }

  lemma Rejoined(q: Lanes, r: Lanes, out: seq<Item>)
    requires |out| <= |q.All()| && out == q.All()[..|out|] && r.All() == q.All()[|out|..]
    ensures out + r.high + r.normal + r.low == q.high + q.normal + q.low
  {
    assert out + r.high + r.normal + r.low == out + r.All();
  }

  /** How many items Drain(n) returns. */
  function Served(q: Lanes, n: int): (k: nat)
    ensures k <= q.Depth()
  {
    if n <= 0 then 0 else if n < q.Depth() then n else q.Depth()
  }

  ghost predicate InLanes(q: Lanes) {
    && (forall x :: x in q.high ==> LaneOf(x) == 0.0)
    && (forall x :: x in q.normal ==> LaneOf(x) == 1.0)
    && (forall x :: x in q.low ==> LaneOf(x) == 2.0)
  }

  class ModelQueue {
    var high: seq<Item>
    var normal: seq<Item>
    var low: seq<Item>
    const maxDepth: int
    var enqueued: nat
    var dropped: nat
    var dispatched: nat

    ghost function View(): Lanes
      reads this
    {
      Lanes(high, normal, low)
    }

    /** Every call over: what went in has come out or is still there, and there is never too much of it. */
    ghost predicate Valid()
      reads this
    {
      && InLanes(View())
      && enqueued == dispatched + View().Depth()
      && (View().Depth() <= maxDepth || View().Depth() == 0)
    }

    constructor (maxDepth: int)
      ensures Valid() && View() == EMPTY && this.maxDepth == maxDepth
    {
      high, normal, low := [], [], [];
      this.maxDepth := maxDepth;
      enqueued, dropped, dispatched := 0, 0, 0;
    }

    method Enqueue(item: Item) returns (ok: bool)
      requires Valid()
      modifies this`high, this`normal, this`low, this`enqueued, this`dropped
      ensures Valid() && ok == (old(View().Depth()) < maxDepth)
      ensures View() == if ok then Pushed(old(View()), item) else old(View())
      ensures ok ==>
                && high == old(high) + (if item.priority == 3 || item.priority == 2 then [item] else [])
                && normal == old(normal) + (if item.priority == 1 then [item] else [])
                && low == old(low) + (if 1 <= item.priority <= 3 then [] else [item])
      ensures enqueued == old(enqueued) + (if ok then 1 else 0)
      ensures dropped == old(dropped) + (if ok then 0 else 1)
    {
      var total := |high| + |normal| + |low|;
      if total >= maxDepth {
        dropped := dropped + 1;
        return false;
      }
      if item.priority == CRITICAL || item.priority == HIGH {
        high := high + [item];
      } else if item.priority == NORMAL {
        normal := normal + [item];
      } else {
        low := low + [item];
      }
      enqueued := enqueued + 1;
      return true;
    }

    /** Exactly the first items of high ++ normal ++ low, and no more than there are. */
    method Drain(n: int) returns (out: seq<Item>)
      requires Valid()
      modifies this
      ensures Valid()
      ensures out == old(View().All())[..Served(old(View()), n)]
      ensures var waiting := old(high) + old(normal) + old(low);
              && |out| == (if n < 0 then 0 else if n < |waiting| then n else |waiting|)
              && out + high + normal + low == waiting
      ensures View() == Drained(old(View()), |out|)
      ensures View().All() == old(View().All())[|out|..]
      ensures dispatched == old(dispatched) + |out| && enqueued == old(enqueued) && dropped == old(dropped)
    {
      hide Drained, InLanes, Lanes.All;
      ghost var q := View();
      out := [];
      NothingTaken(q);
      while |out| < n
        invariant |out| <= q.Depth() && (n > 0 ==> |out| <= n) && (n <= 0 ==> out == [])
        invariant out == q.All()[..|out|] && View() == Drained(q, |out|)
        invariant View().Depth() == q.Depth() - |out|
        invariant unchanged(`enqueued) && unchanged(`dropped) && unchanged(`dispatched)
      {
        if |high| > 0 {
          TakeNext(q, |out|);
          out := out + [high[0]];
          high := high[1..];
        } else if |normal| > 0 {
          TakeNext(q, |out|);
          out := out + [normal[0]];
          normal := normal[1..];
        } else if |low| > 0 {
          TakeNext(q, |out|);
          out := out + [low[0]];
          low := low[1..];
        } else {
          break;
        }
      }
      DrainedInLanes(q, |out|);
      Rejoined(q, View(), out);
      dispatched := dispatched + |out|;
    }
  }

  // ---------- One list, kept sorted by lane ----------

  /** To the list of what comes next, enqueueing is a stable insertion by lane. */
  lemma PushInserts(q: Lanes, x: Item)
    requires InLanes(q)
    ensures Pushed(q, x).All() == Insert(q.All(), x, LaneOf)
    ensures InLanes(Pushed(q, x))
  {
    hide Insert;
    var j := if LaneOf(x) == 0.0 then |q.high| else if LaneOf(x) == 1.0 then |q.high| + |q.normal| else q.Depth();
    forall k: nat | k < q.Depth()
      ensures LaneOf(q.All()[k]) == LaneAt(q, k)
    {
      AllAt(q, k);
    }
    InsertAt(q.All(), x, j, LaneOf);
    PushedSplits(q, x);
  }

  function LaneAt(q: Lanes, k: nat): real {
    if k < |q.high| then 0.0 else if k < |q.high| + |q.normal| then 1.0 else 2.0
  }

  lemma AllAt(q: Lanes, k: nat)
    requires InLanes(q) && k < q.Depth()
    ensures LaneOf(q.All()[k]) == LaneAt(q, k)
  {
    if k < |q.high| {
      assert q.All()[k] in q.high;
    } else if k < |q.high| + |q.normal| {
      assert q.All()[k] in q.normal;
    } else {
      assert q.All()[k] in q.low;
    }
  }

  lemma PushedSplits(q: Lanes, x: Item)
    ensures var j := if LaneOf(x) == 0.0 then |q.high|
                     else if LaneOf(x) == 1.0 then |q.high| + |q.normal| else q.Depth();
            Pushed(q, x).All() == q.All()[..j] + [x] + q.All()[j..]
  {
    hide LaneOf;
    if LaneOf(x) == 0.0 {
      assert q.All()[..|q.high|] == q.high && q.All()[|q.high|..] == q.normal + q.low;
    } else if LaneOf(x) == 1.0 {
      var j := |q.high| + |q.normal|;
      assert q.All()[..j] == q.high + q.normal && q.All()[j..] == q.low;
    } else {
      assert q.All()[..q.Depth()] == q.All() && q.All()[q.Depth()..] == [];
    }
  }

  function PushedAll(q: Lanes, xs: seq<Item>): Lanes {
    if xs == [] then q else Pushed(PushedAll(q, xs[..|xs| - 1]), xs[|xs| - 1])
  }

  /** Filling an empty queue and draining it all returns the items stably sorted by lane. */
  lemma {:induction false} FillThenDrainSorts(xs: seq<Item>)
    ensures InLanes(PushedAll(EMPTY, xs))
    ensures PushedAll(EMPTY, xs).All() == StableSort(xs, LaneOf)
  {
    if xs != [] {
      FillThenDrainSorts(xs[..|xs| - 1]);
      PushInserts(PushedAll(EMPTY, xs[..|xs| - 1]), xs[|xs| - 1]);
    }
  }

  // ---------- Critical does not overtake high ----------

  /** The order the priorities' names suggest. */
  function Urgency(x: Item): real {
    if x.priority == CRITICAL then 0.0
    else if x.priority == HIGH then 1.0
    else if x.priority == NORMAL then 2.0
    else 3.0
  }

  ghost predicate HighBeforeCritical(xs: seq<Item>) {
    exists i, j :: 0 <= i < j < |xs| && xs[i].priority == HIGH && xs[j].priority == CRITICAL
  }

  lemma {:induction false} InsertAgrees(s: seq<Item>, x: Item)
    requires x.priority == CRITICAL ==> forall y :: y in s ==> y.priority != HIGH
    ensures Insert(s, x, LaneOf) == Insert(s, x, Urgency)
  {
    if s != [] {
      InsertAgrees(s[..|s| - 1], x);
      assert s[|s| - 1] in s;
    }
  }

  lemma {:induction false} SortsAgree(xs: seq<Item>)
    requires !HighBeforeCritical(xs)
    ensures StableSort(xs, LaneOf) == StableSort(xs, Urgency)
  {
    if xs != [] {
      var init, x := xs[..|xs| - 1], xs[|xs| - 1];
      SortsAgree(init);
      SortSorts(init, LaneOf);
      var s := StableSort(init, LaneOf);
      forall y | y in s && x.priority == CRITICAL
        ensures y.priority != HIGH
      {
        assert y in multiset(init);
        var i :| 0 <= i < |init| && init[i] == y;
        assert xs[i] == y;
      }
      InsertAgrees(s, x);
    }
  }

  /** Filtering keeps what it keeps in order. */
  lemma FilterKeepsOrder(xs: seq<Item>, p: Item -> bool, i: nat, j: nat) returns (a: nat, b: nat)
    requires i < j < |xs| && p(xs[i]) && p(xs[j])
    ensures a < b < |Filter(xs, p)| && Filter(xs, p)[a] == xs[i] && Filter(xs, p)[b] == xs[j]
  {
    hide Filter;
    var u, v := Filter(xs[..j], p), Filter(xs[j..], p);
    assert xs == xs[..j] + xs[j..];
    FilterConcat(xs[..j], xs[j..], p);
    assert xs[..j][i] in u && xs[j..][0] in v;
    var c: nat :| c < |v| && v[c] == xs[j];
    a :| 0 <= a < |u| && u[a] == xs[i];
    b := |u| + c;
  }

  lemma SortsDisagree(xs: seq<Item>, i: nat, j: nat)
    requires i < j < |xs| && xs[i].priority == HIGH && xs[j].priority == CRITICAL
    ensures StableSort(xs, LaneOf) != StableSort(xs, Urgency)
  {
    hide StableSort, Filter;
    var p := SameKey(LaneOf, 0.0);
    assert LaneOf(xs[i]) == 0.0 && LaneOf(xs[j]) == 0.0;
    assert p(xs[i]) && p(xs[j]);
    var a, b := FilterKeepsOrder(xs, p, i, j);
    SortIsStable(xs, LaneOf, 0.0);
    FilterCommutesWithSort(xs, Urgency, p);
    SortSorts(Filter(xs, p), Urgency);
  }

  /** Items come out in the order of their priorities exactly when no high one came in before a critical one. */
  lemma UrgencyOrderIff(xs: seq<Item>)
    ensures PushedAll(EMPTY, xs).All() == StableSort(xs, Urgency) <==> !HighBeforeCritical(xs)
  {
    FillThenDrainSorts(xs);
    if HighBeforeCritical(xs) {
      var i, j :| 0 <= i < j < |xs| && xs[i].priority == HIGH && xs[j].priority == CRITICAL;
      SortsDisagree(xs, i, j);
    } else {
      SortsAgree(xs);
    }
  }

  // ---------- Bounded bypass ----------

  datatype Op = Enqueue(item: Item) | Drain(n: int)

  function Apply(q: Lanes, maxDepth: int, op: Op): Lanes {
    match op
    case Enqueue(x) => if q.Depth() < maxDepth then Pushed(q, x) else q
    case Drain(n) => Drained(q, Served(q, n))
  }

  function Run(q: Lanes, maxDepth: int, ops: seq<Op>): Lanes
    decreases |ops|
  {
    if ops == [] then q else Run(Apply(q, maxDepth, ops[0]), maxDepth, ops[1..])
  }

  /** Some drain along the way returned x. */
  predicate Returned(q: Lanes, maxDepth: int, ops: seq<Op>, x: Item)
    decreases |ops|
  {
    ops != [] &&
    (|| (ops[0].Drain? && x in q.All()[..Served(q, ops[0].n)])
     || Returned(Apply(q, maxDepth, ops[0]), maxDepth, ops[1..], x))
  }

  /** Accepted arrivals in lanes strictly more urgent than x's. */
  function Overtakers(q: Lanes, maxDepth: int, ops: seq<Op>, x: Item): nat
    decreases |ops|
  {
    if ops == [] then 0
    else
      Overtakers(Apply(q, maxDepth, ops[0]), maxDepth, ops[1..], x)
      + if ops[0].Enqueue? && q.Depth() < maxDepth && LaneOf(ops[0].item) < LaneOf(x) then 1 else 0
  }

  function Drains(ops: seq<Op>): nat {
    if ops == [] then 0 else Drains(ops[1..]) + if ops[0].Drain? then 1 else 0
  }

  ghost predicate DrainsTake(ops: seq<Op>, n: nat) {
    forall i :: 0 <= i < |ops| && ops[i].Drain? ==> ops[i].n == n
  }

  lemma {:induction false} InsertPosition(s: seq<Item>, y: Item, p: nat)
    requires Sorted(s, LaneOf) && p < |s|
    ensures Insert(s, y, LaneOf)[if LaneOf(y) < LaneOf(s[p]) then p + 1 else p] == s[p]
  {
    if LaneOf(s[|s| - 1]) > LaneOf(y) && p < |s| - 1 {
      InsertPosition(s[..|s| - 1], y, p);
    }
  }

  lemma LanesSorted(q: Lanes)
    requires InLanes(q)
    ensures Sorted(q.All(), LaneOf)
  {
  }

  lemma {:induction false} DrainedInLanes(q: Lanes, k: nat)
    requires InLanes(q) && k <= q.Depth()
    ensures InLanes(Drained(q, k))
    decreases k
  {
    if k > 0 {
      DrainedInLanes(PopFirst(q), k - 1);
    }
  }

  function Shift(y: Item, x: Item): nat {
    if LaneOf(y) < LaneOf(x) then 1 else 0
  }

  lemma PushMoves(q: Lanes, y: Item, p: nat)
    requires InLanes(q) && p < q.Depth()
    ensures InLanes(Pushed(q, y)) && Pushed(q, y).Depth() == q.Depth() + 1
    ensures Pushed(q, y).All()[p + Shift(y, q.All()[p])] == q.All()[p]
  {
    PushInserts(q, y);
    LanesSorted(q);
    InsertPosition(q.All(), y, p);
  }

  lemma DrainMoves(q: Lanes, n: nat, p: nat)
    requires InLanes(q) && p < q.Depth()
    ensures InLanes(Drained(q, Served(q, n)))
    ensures p < n ==> q.All()[p] in q.All()[..Served(q, n)]
    ensures p >= n ==> var r := Drained(q, Served(q, n)); p - n < r.Depth() && r.All()[p - n] == q.All()[p]
  {
    DrainedInLanes(q, Served(q, n));
    if p < n {
      assert q.All()[..Served(q, n)][p] == q.All()[p];
    } else {
      assert q.All()[n..][p - n] == q.All()[p];
    }
  }

  /** As long as it has not come out, x stands p places from the front, plus one for every overtaker and minus
      n for every drain. */
  lemma {:induction false} PositionAfter(q: Lanes, maxDepth: int, ops: seq<Op>, n: nat, p: nat, x: Item)
    requires InLanes(q) && p < q.Depth() && q.All()[p] == x && DrainsTake(ops, n)
    requires !Returned(q, maxDepth, ops, x)
    ensures var p' := p + Overtakers(q, maxDepth, ops, x) - Drains(ops) * n;
            0 <= p' < Run(q, maxDepth, ops).Depth() && Run(q, maxDepth, ops).All()[p'] == x
    decreases |ops|
  {
    hide InLanes, Pushed, Drained, Served, LaneOf, Lanes.All, Lanes.Depth;
    if ops != [] {
      var q', rest := Apply(q, maxDepth, ops[0]), ops[1..];
      if ops[0].Enqueue? && q.Depth() < maxDepth {
        PushMoves(q, ops[0].item, p);
        PositionAfter(q', maxDepth, rest, n, p + Shift(ops[0].item, x), x);
      } else if ops[0].Enqueue? {
        PositionAfter(q', maxDepth, rest, n, p, x);
      } else {
        DrainMoves(q, n, p);
        OneMoreDrain(Drains(rest), n);
        PositionAfter(q', maxDepth, rest, n, p - n, x);
      }
    }
  }

  lemma OneMoreDrain(d: nat, n: nat)
    ensures (d + 1) * n == d * n + n
  {
  }

  lemma EnoughDrains(a: nat, n: nat, d: nat)
    requires n >= 1 && d >= a / n + 1
    ensures a < d * n
  {
    assert a < (a / n + 1) * n;
    assert (a / n + 1) * n <= d * n;
  }

  /** An item with p ahead of it is returned within (p + h) / n + 1 drains of n, where h counts the accepted
      arrivals in more urgent lanes. */
  lemma BoundedBypass(q: Lanes, maxDepth: int, ops: seq<Op>, n: nat, p: nat, x: Item)
    requires InLanes(q) && p < q.Depth() && q.All()[p] == x && n >= 1 && DrainsTake(ops, n)
    requires Drains(ops) >= (p + Overtakers(q, maxDepth, ops, x)) / n + 1
    ensures Returned(q, maxDepth, ops, x)
  {
    hide InLanes, Returned, Run;
    EnoughDrains(p + Overtakers(q, maxDepth, ops, x), n, Drains(ops));
    if !Returned(q, maxDepth, ops, x) {
      PositionAfter(q, maxDepth, ops, n, p, x);
    }
  }

  /** Nothing overtakes the high lane, whatever else arrives. */
  lemma {:induction false} HighLaneIsNotOvertaken(q: Lanes, maxDepth: int, ops: seq<Op>, x: Item)
    requires x.priority == HIGH || x.priority == CRITICAL
    ensures Overtakers(q, maxDepth, ops, x) == 0
    decreases |ops|
  {
    if ops != [] {
      HighLaneIsNotOvertaken(Apply(q, maxDepth, ops[0]), maxDepth, ops[1..], x);
    }
  }
}
