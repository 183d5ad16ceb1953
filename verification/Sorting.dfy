/** Stable insertion sort, as the router and the batcher write it out in place. */
module Sorting {

  /** x moves towards the front past every element whose key is strictly greater. */
  function Insert<T>(s: seq<T>, x: T, key: T -> real): (r: seq<T>)
    ensures |r| == |s| + 1
  {
    if s == [] || key(s[|s| - 1]) <= key(x) then s + [x]
    else Insert(s[..|s| - 1], x, key) + [s[|s| - 1]]
  }

  function StableSort<T>(s: seq<T>, key: T -> real): (r: seq<T>)
    ensures |r| == |s|
  {
    if s == [] then [] else Insert(StableSort(s[..|s| - 1], key), s[|s| - 1], key)
  }

  ghost predicate Sorted<T>(s: seq<T>, key: T -> real) {
    forall i, j :: 0 <= i < j < |s| ==> key(s[i]) <= key(s[j])
  }

  function Filter<T>(s: seq<T>, p: T -> bool): (r: seq<T>)
    ensures |r| <= |s|
    ensures forall i :: 0 <= i < |r| ==> r[i] in s && p(r[i])
    ensures forall i :: 0 <= i < |s| && p(s[i]) ==> s[i] in r
  {
    if s == [] then []
    else if p(s[|s| - 1]) then Filter(s[..|s| - 1], p) + [s[|s| - 1]]
    else Filter(s[..|s| - 1], p)
  }

  lemma {:induction false} FilterConcat<T>(u: seq<T>, v: seq<T>, p: T -> bool)
    ensures Filter(u + v, p) == Filter(u, p) + Filter(v, p)
  {
    if v == [] {
      assert u + v == u;
    } else {
      var init := v[..|v| - 1];
      FilterConcat(u, init, p);
      assert (u + v)[..|u + v| - 1] == u + init && (u + v)[|u + v| - 1] == v[|v| - 1];
      assert Filter(u + v, p) == Filter(u + init, p) + if p(v[|v| - 1]) then [v[|v| - 1]] else [];
    }
  }

  // ---------- The algorithm ----------

  lemma {:induction false} InsertAt<T>(s: seq<T>, x: T, j: nat, key: T -> real)
    requires j <= |s| && (j == 0 || key(s[j - 1]) <= key(x))
    requires forall k :: j <= k < |s| ==> key(x) < key(s[k])
    ensures Insert(s, x, key) == s[..j] + [x] + s[j..]
  {
    if j < |s| {
      var init := s[..|s| - 1];
      InsertAt(init, x, j, key);
      assert init[..j] == s[..j] && init[j..] + [s[|s| - 1]] == s[j..];
    } else {
      assert s[..j] == s && s[j..] == [];
    }
  }

  /** The sequence with the element at i taken out and put in at j, further to the front. */
  function Moved<T>(s: seq<T>, i: nat, j: nat): (r: seq<T>)
    requires j <= i < |s|
    ensures |r| == |s|
  {
    s[..j] + [s[i]] + s[j..i] + s[i + 1..]
  }

  lemma MovedAt<T>(s: seq<T>, i: nat, j: nat, k: nat)
    requires j <= i < |s| && k < |s|
    ensures Moved(s, i, j)[k] == if k < j || k > i then s[k] else if k == j then s[i] else s[k - 1]
  {
  }

  lemma MovedFurther<T>(s: seq<T>, i: nat, j: nat)
    requires 0 < j <= i < |s|
    ensures Moved(s, i, j - 1) == Moved(s, i, j)[j := s[j - 1]][j - 1 := s[i]]
  {
    hide Moved;
    var before, after := Moved(s, i, j), Moved(s, i, j - 1);
    forall k: nat | k < |s|
      ensures after[k] == if k == j then s[j - 1] else if k == j - 1 then s[i] else before[k]
    {
      MovedAt(s, i, j - 1, k);
      MovedAt(s, i, j, k);
    }
  }

  /** The inner loop: the element at i swaps its way down into the elements before it. */
  method SwapDown<T>(a: array<T>, i: nat, key: T -> real)
    requires i < a.Length
    modifies a
    ensures a[..i + 1] == Insert(old(a[..i]), old(a[i]), key)
    ensures a[i + 1..] == old(a[i + 1..])
  {
    hide Moved, Insert;
    ghost var was := a[..];
    var j := i;
    MovedNowhere(was, i);
    while j > 0 && key(a[j]) < key(a[j - 1])
      invariant 0 <= j <= i && a[..] == Moved(was, i, j)
      invariant forall k :: j <= k < i ==> key(was[i]) < key(was[k])
    {
      MovedAt(was, i, j, j);
      MovedAt(was, i, j, j - 1);
      MovedFurther(was, i, j);
      a[j], a[j - 1] := a[j - 1], a[j];
      j := j - 1;
    }
    MovedAt(was, i, j, j);
    if j > 0 {
      MovedAt(was, i, j, j - 1);
    }
    InsertAt(was[..i], was[i], j, key);
    MovedParts(was, i, j);
  }

  lemma MovedNowhere<T>(s: seq<T>, i: nat)
    requires i < |s|
    ensures Moved(s, i, i) == s
  {
  }

  lemma MovedParts<T>(s: seq<T>, i: nat, j: nat)
    requires j <= i < |s|
    ensures Moved(s, i, j)[..i + 1] == s[..i][..j] + [s[i]] + s[..i][j..]
    ensures Moved(s, i, j)[i + 1..] == s[i + 1..]
  {
  }

  method InsertionSort<T>(a: array<T>, key: T -> real)
    modifies a
    ensures a[..] == StableSort(old(a[..]), key)
  {
    ghost var was := a[..];
    if a.Length > 0 {
      SortOne(was[0], key);
    }
    var i := 1;
    while i < a.Length
      invariant a.Length > 0 ==> 1 <= i <= a.Length
      invariant a.Length > 0 ==> a[..i] == StableSort(was[..i], key) && a[i..] == was[i..]
    {
      assert was[..i + 1][..i] == was[..i] && a[i] == was[i];
      SwapDown(a, i, key);
      assert was[i..][1..] == was[i + 1..];
      i := i + 1;
    }
    assert a.Length > 0 ==> was[..a.Length] == was && a[..a.Length] == a[..];
  }

  lemma SortOne<T>(x: T, key: T -> real)
    ensures StableSort([x], key) == [x]
  {
    assert [x][..0] == [];
  }

  // ---------- What it computes ----------

  lemma {:induction false} InsertAdds<T>(s: seq<T>, x: T, key: T -> real)
    ensures multiset(Insert(s, x, key)) == multiset(s) + multiset{x}
  {
    if s != [] && key(s[|s| - 1]) > key(x) {
      assert s == s[..|s| - 1] + [s[|s| - 1]];
      InsertAdds(s[..|s| - 1], x, key);
    }
  }

  lemma {:induction false} InsertKeepsSorted<T>(s: seq<T>, x: T, key: T -> real)
    requires Sorted(s, key)
    ensures Sorted(Insert(s, x, key), key)
  {
    if s != [] && key(s[|s| - 1]) > key(x) {
      var init, last := s[..|s| - 1], s[|s| - 1];
      InsertKeepsSorted(init, x, key);
      InsertAdds(init, x, key);
      var r := Insert(init, x, key);
      forall i | 0 <= i < |r|
        ensures key(r[i]) <= key(last)
      {
        assert r[i] in multiset(init) + multiset{x};
      }
    }
  }

  lemma {:induction false} SortSorts<T>(s: seq<T>, key: T -> real)
    ensures Sorted(StableSort(s, key), key)
    ensures multiset(StableSort(s, key)) == multiset(s)
  {
    if s != [] {
      var init := s[..|s| - 1];
      assert s == init + [s[|s| - 1]];
      SortSorts(init, key);
      InsertKeepsSorted(StableSort(init, key), s[|s| - 1], key);
      InsertAdds(StableSort(init, key), s[|s| - 1], key);
    }
  }

  lemma {:induction false} FilterInsert<T>(s: seq<T>, x: T, key: T -> real, p: T -> bool)
    requires Sorted(s, key)
    ensures Filter(Insert(s, x, key), p) == if p(x) then Insert(Filter(s, p), x, key) else Filter(s, p)
  {
    if s == [] || key(s[|s| - 1]) <= key(x) {
      assert (s + [x])[..|s|] == s;
    } else {
      FilterInsert(s[..|s| - 1], x, key, p);
      var r := Insert(s[..|s| - 1], x, key);
      assert (r + [s[|s| - 1]])[..|r|] == r;
    }
  }

  /** Deleting elements before sorting or after it makes no difference, so nobody's rank depends on the
      losers that are left out. */
  lemma {:induction false} FilterCommutesWithSort<T>(s: seq<T>, key: T -> real, p: T -> bool)
    ensures Filter(StableSort(s, key), p) == StableSort(Filter(s, p), key)
  {
    if s != [] {
      var init, x := s[..|s| - 1], s[|s| - 1];
      FilterCommutesWithSort(init, key, p);
      SortSorts(init, key);
      FilterInsert(StableSort(init, key), x, key, p);
      if p(x) {
        assert (Filter(init, p) + [x])[..|Filter(init, p)|] == Filter(init, p);
      }
    }
  }

  lemma {:induction false} SortOfEqualKeys<T>(s: seq<T>, key: T -> real, v: real)
    requires forall i :: 0 <= i < |s| ==> key(s[i]) == v
    ensures StableSort(s, key) == s
  {
    if s != [] {
      SortOfEqualKeys(s[..|s| - 1], key, v);
    }
  }

  function SameKey<T>(key: T -> real, v: real): T -> bool {
    x => key(x) == v
  }

  /** Elements with equal keys keep the order they came in. */
  lemma SortIsStable<T>(s: seq<T>, key: T -> real, v: real)
    ensures Filter(StableSort(s, key), SameKey(key, v)) == Filter(s, SameKey(key, v))
  {
    FilterCommutesWithSort(s, key, SameKey(key, v));
    var f := Filter(s, SameKey(key, v));
    forall i | 0 <= i < |f|
      ensures key(f[i]) == v
    {
      assert f[i] in f;
    }
    SortOfEqualKeys(f, key, v);
  }

  ghost predicate SameByKey<T>(r: seq<T>, t: seq<T>, key: T -> real) {
    forall v: real :: Filter(r, SameKey(key, v)) == Filter(t, SameKey(key, v))
  }

  lemma LastIsLastOfItsKey<T>(r: seq<T>, key: T -> real)
    requires r != []
    ensures var f := Filter(r, SameKey(key, key(r[|r| - 1])));
            f != [] && f[|f| - 1] == r[|r| - 1]
  {
  }

  lemma LastsAgree<T>(r: seq<T>, t: seq<T>, key: T -> real)
    requires Sorted(r, key) && Sorted(t, key) && SameByKey(r, t, key) && r != [] && t != []
    ensures r[|r| - 1] == t[|t| - 1]
  {
    var x, y := r[|r| - 1], t[|t| - 1];
    LastIsLastOfItsKey(r, key);
    LastIsLastOfItsKey(t, key);
    var p, q := SameKey(key, key(x)), SameKey(key, key(y));
    assert Filter(r, p) == Filter(t, p) && Filter(r, q) == Filter(t, q);
    assert key(x) <= key(y) by {
      assert Filter(t, p)[0] in t;
    }
    assert key(y) <= key(x) by {
      assert Filter(r, q)[0] in r;
    }
  }

  lemma DropLastSameByKey<T>(r: seq<T>, t: seq<T>, key: T -> real)
    requires r != [] && t != [] && r[|r| - 1] == t[|t| - 1] && SameByKey(r, t, key)
    ensures SameByKey(r[..|r| - 1], t[..|t| - 1], key)
  {
    var r', t' := r[..|r| - 1], t[..|t| - 1];
    forall v: real
      ensures Filter(r', SameKey(key, v)) == Filter(t', SameKey(key, v))
    {
      var p := SameKey(key, v);
      assert Filter(r, p) == Filter(t, p);
      if p(r[|r| - 1]) {
        assert Filter(r', p) == Filter(r, p)[..|Filter(r, p)| - 1];
        assert Filter(t', p) == Filter(t, p)[..|Filter(t, p)| - 1];
      }
    }
  }

  lemma NothingToFilter<T>(p: T -> bool)
    ensures Filter([], p) == []
  {
  }

  lemma EmptySameByKey<T>(t: seq<T>, key: T -> real)
    requires SameByKey([], t, key)
    ensures t == []
  {
    if t != [] {
      NothingToFilter(SameKey(key, key(t[|t| - 1])));
      LastIsLastOfItsKey(t, key);
    }
  }

  /** Sorted and stable leaves only one possible result. */
  lemma {:induction false} SortedStableIsUnique<T>(r: seq<T>, t: seq<T>, key: T -> real)
    requires Sorted(r, key) && Sorted(t, key) && SameByKey(r, t, key)
    ensures r == t
    decreases |r|
  {
    if r == [] {
      EmptySameByKey(t, key);
    } else if t == [] {
      EmptySameByKey(r, key);
    } else {
      LastsAgree(r, t, key);
      DropLastSameByKey(r, t, key);
      SortedStableIsUnique(r[..|r| - 1], t[..|t| - 1], key);
    }
  }

  /** The result is the only sorted sequence that holds the same elements in the same order per key. */
  lemma StableSortIsTheOne<T>(s: seq<T>, r: seq<T>, key: T -> real)
    ensures r == StableSort(s, key) <==> Sorted(r, key) && SameByKey(r, s, key)
  {
    var t := StableSort(s, key);
    SortSorts(s, key);
    forall v: real
      ensures Filter(t, SameKey(key, v)) == Filter(s, SameKey(key, v))
    {
      SortIsStable(s, key, v);
    }
    if Sorted(r, key) && SameByKey(r, s, key) {
      SortedStableIsUnique(r, t, key);
    }
  }
}
