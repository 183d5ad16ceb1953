/** The nearest-rank 99th percentile, read off a sorted copy, and the fixed-size rings it is taken over. */
module Percentile {
  import opened Sorting

  /** int(ceil(n * 0.99)) - 1, and never below 0. */
  function RankIndex(n: nat): nat {
    var idx := (99 * n + 99) / 100 - 1;
    if idx < 0 then 0 else idx
  }

  function Value(v: real): real { v }

  function P99(vals: seq<real>): real {
    if vals == [] then 0.0 else StableSort(vals, Value)[RankIndex(|vals|)]
  }

  function Above(x: real): real -> bool {
    v => v > x
  }

  function CountAbove(vals: seq<real>, x: real): nat {
    |Filter(vals, Above(x))|
  }

  lemma {:induction false} SortedCount(s: seq<real>, i: nat, x: real)
    requires Sorted(s, Value) && i < |s|
    ensures s[i] > x <==> CountAbove(s, x) >= |s| - i
  {
    var init := s[..|s| - 1];
    if i < |s| - 1 {
      SortedCount(init, i, x);
      assert Value(s[i]) <= Value(s[|s| - 1]);
    } else if CountAbove(s, x) >= 1 {
      var v := Filter(s, Above(x))[0];
      assert v in s && Value(v) <= Value(s[i]);
    }
  }

  /** The percentile exceeds x exactly when strictly more than 1% of the values do. */
  lemma P99Exceeds(vals: seq<real>, x: real)
    requires vals == [] ==> x >= 0.0
    ensures P99(vals) > x <==> 100 * CountAbove(vals, x) > |vals|
  {
    if vals != [] {
      var s, n := StableSort(vals, Value), |vals|;
      SortSorts(vals, Value);
      SortedCount(s, RankIndex(n), x);
      FilterCommutesWithSort(vals, Value, Above(x));
      assert RankIndex(n) == (99 * n + 99) / 100 - 1;
    }
  }

  /** Where a full ring happens to start does not matter. */
  lemma P99OfRotation(u: seq<real>, v: seq<real>)
    ensures P99(u + v) == P99(v + u)
  {
    var a, b := P99(u + v), P99(v + u);
    if u + v == [] {
      assert v + u == [];
    } else if a != b {
      var x := if a < b then a else b;
      P99Exceeds(u + v, x);
      P99Exceeds(v + u, x);
      FilterConcat(u, v, Above(x));
      FilterConcat(v, u, Above(x));
      assert false;
    }
  }

  method SortedCopyP99(vals: seq<real>) returns (p: real)
    ensures p == P99(vals)
  {
    if |vals| == 0 {
      return 0.0;
    }
    var a := new real[|vals|](i requires 0 <= i < |vals| => vals[i]);
    assert a[..] == vals;
    InsertionSort(a, Value);
    var idx := (99 * a.Length + 99) / 100 - 1;
    if idx < 0 {
      idx := 0;
    }
    p := a[idx];
    assert a[..][idx] == p;
  }

  // ---------- Rings ----------

  /** The slots of a ring of `cap` after a history of writes at head % cap, head counting from 0. */
  function Ring<T>(history: seq<T>, cap: nat, empty: T): (r: seq<T>)
    requires cap > 0
    ensures |r| == cap
  {
    if history == [] then seq(cap, _ => empty)
    else
      var n := |history| - 1;
      Ring(history[..n], cap, empty)[n % cap := history[n]]
  }

  function Window<T>(history: seq<T>, cap: nat): (w: seq<T>)
    ensures |w| == if |history| < cap then |history| else cap
  {
    if |history| <= cap then history else history[|history| - cap..]
  }

  lemma ModStep(n: nat, cap: nat)
    requires cap > 0
    ensures (n + 1) % cap == if n % cap + 1 == cap then 0 else n % cap + 1
  {
    var q, r := n / cap, n % cap;
    assert n == q * cap + r;
    if r + 1 == cap {
      assert n + 1 == (q + 1) * cap;
      MultipleOf(q + 1, 0, cap);
    } else {
      MultipleOf(q, r + 1, cap);
    }
  }

  lemma MultipleOf(q: nat, r: nat, cap: nat)
    requires r < cap
    ensures (q * cap + r) % cap == r
  {
    var n := q * cap + r;
    var d := n / cap;
    assert n == d * cap + n % cap;
    assert d >= q + 1 ==> d * cap >= (q + 1) * cap;
    assert d <= q - 1 ==> d * cap <= (q - 1) * cap;
  }

  /** While the ring fills, slot i holds write i; once it is full, it holds the latest write to that slot. */
  lemma {:induction false} RingAt<T>(history: seq<T>, cap: nat, empty: T, i: nat)
    requires i < cap
    ensures var n, r := |history|, |history| % cap;
            Ring(history, cap, empty)[i]
              == if n <= cap then (if i < n then history[i] else empty)
                 else if i < r then history[n - r + i] else history[n - r - cap + i]
  {
    if history != [] {
      var n := |history| - 1;
      RingAt(history[..n], cap, empty, i);
      ModStep(n, cap);
      if n < cap {
        MultipleOf(0, n, cap);
      }
      if n == cap {
        MultipleOf(1, 0, cap);
      }
    }
  }

  lemma RingFilling<T>(history: seq<T>, cap: nat, empty: T)
    requires 0 < cap && |history| <= cap
    ensures Ring(history, cap, empty)[..|history|] == history
  {
    forall i: nat | i < |history|
      ensures Ring(history, cap, empty)[i] == history[i]
    {
      RingAt(history, cap, empty, i);
    }
  }

  lemma RingFull<T>(history: seq<T>, cap: nat, empty: T)
    requires 0 < cap < |history|
    ensures var w, k := Window(history, cap), cap - |history| % cap;
            Ring(history, cap, empty) == w[k..] + w[..k]
  {
    hide Ring, Window;
    var s, n, r := Ring(history, cap, empty), |history|, |history| % cap;
    forall i: nat | i < cap
      ensures s[i] == if i < r then history[n - r + i] else history[n - r - cap + i]
    {
      RingAt(history, cap, empty, i);
    }
    RotationAt(history, cap, r, s);
  }

  lemma RotationAt<T>(history: seq<T>, cap: nat, r: nat, s: seq<T>)
    requires |s| == cap && r < cap < |history|
    requires forall i: nat :: i < cap ==>
      s[i] == if i < r then history[|history| - r + i] else history[|history| - r - cap + i]
    ensures s == Window(history, cap)[cap - r..] + Window(history, cap)[..cap - r]
  {
    var w := Window(history, cap);
    forall i | 0 <= i < cap
      ensures s[i] == (w[cap - r..] + w[..cap - r])[i]
    {
      assert w[if i < r then cap - r + i else i - r] == s[i];
    }
  }
}
