/** Array.prototype.filter and find, and summation over sequences; filter
    and sum are defined from the back so that appending one element unfolds
    one step. */
module Seqs {
  import opened Wrappers

  /** `s.filter(p)`: the elements of `s` satisfying `p`, in their order. */
  function Filter<T>(s: seq<T>, p: T -> bool): (r: seq<T>)
    ensures |r| <= |s|
    ensures forall x :: x in r ==> x in s && p(x)
  {
    if s == [] then []
    else
      var init, last := s[..|s| - 1], s[|s| - 1];
      assert s == init + [last];
      Filter(init, p) + (if p(last) then [last] else [])
  }

  /** Filtering keeps each element satisfying `p` as often as it occurs,
      and drops every other one. */
  lemma {:induction false} FilterCount<T>(s: seq<T>, p: T -> bool, x: T)
    ensures multiset(Filter(s, p))[x] == if p(x) then multiset(s)[x] else 0
  {
    if s != [] {
      var init, last := s[..|s| - 1], s[|s| - 1];
      assert s == init + [last];
      FilterCount(init, p, x);
    }
  }

  /** Every element of `s` that satisfies `p` is kept. */
  lemma FilterKeeps<T>(s: seq<T>, p: T -> bool, x: T)
    requires x in s && p(x)
    ensures x in Filter(s, p)
  {
    FilterCount(s, p, x);
    assert multiset(Filter(s, p))[x] > 0;
  }

  /** Filtering distributes over concatenation, which together with the
      one-element case fixes the order of the result. */
  lemma {:induction false} FilterConcat<T>(a: seq<T>, b: seq<T>, p: T -> bool)
    ensures Filter(a + b, p) == Filter(a, p) + Filter(b, p)
    decreases |b|
  {
    if b == [] {
      assert a + b == a;
    } else {
      var init, last := b[..|b| - 1], b[|b| - 1];
      assert (a + b)[..|a + b| - 1] == a + init;
      assert (a + b)[|a + b| - 1] == last;
      FilterConcat(a, init, p);
    }
  }

  lemma FilterSingle<T>(x: T, p: T -> bool)
    ensures Filter([x], p) == if p(x) then [x] else []
  {
    assert [x][..0] == [];
  }

  /** `idx` is an increasing choice of positions of `s` that reads `r`. */
  ghost predicate Picks<T>(idx: seq<nat>, r: seq<T>, s: seq<T>)
  {
    && |idx| == |r|
    && (forall i :: 0 <= i < |idx| ==> idx[i] < |s| && s[idx[i]] == r[i])
    && (forall i, j :: 0 <= i < j < |idx| ==> idx[i] < idx[j])
  }

  /** `r` is `s` with some elements left out and the rest in their order. */
  ghost predicate Subsequence<T>(r: seq<T>, s: seq<T>)
  {
    exists idx :: Picks(idx, r, s)
  }

  /** The positions a filter keeps. */
  lemma {:induction false} FilterPicks<T>(s: seq<T>, p: T -> bool) returns (idx: seq<nat>)
    ensures Picks(idx, Filter(s, p), s)
  {
    if s == [] {
      idx := [];
    } else {
      var init, last := s[..|s| - 1], s[|s| - 1];
      var prev := FilterPicks(init, p);
      idx := prev + if p(last) then [|s| - 1] else [];
    }
  }

  /** `r` holds exactly the elements of `s` satisfying `p`, each as often
      as in `s`, and in their order in `s`. */
  ghost predicate Selects<T(!new)>(r: seq<T>, s: seq<T>, p: T -> bool)
  {
    && Subsequence(r, s)
    && forall x :: multiset(r)[x] == if p(x) then multiset(s)[x] else 0
  }

  lemma FilterSelects<T(!new)>(s: seq<T>, p: T -> bool)
    ensures Selects(Filter(s, p), s, p)
    ensures forall x :: x in Filter(s, p) <==> x in s && p(x)
    ensures multiset(Filter(s, p)) <= multiset(s)
  {
    var idx := FilterPicks(s, p);
    forall x
      ensures multiset(Filter(s, p))[x] == if p(x) then multiset(s)[x] else 0
    {
      FilterCount(s, p, x);
      assert x in Filter(s, p) <==> multiset(Filter(s, p))[x] > 0;
    }
  }

  /** `x` is the first element of `s` that satisfies `p`. */
  ghost predicate FirstMatch<T>(s: seq<T>, p: T -> bool, x: T)
    decreases |s|
  {
    s != [] && if p(s[0]) then x == s[0] else FirstMatch(s[1..], p, x)
  }

  /** The first match is the element at the first index where `p` holds. */
  lemma {:induction false} FirstMatchAt<T>(s: seq<T>, p: T -> bool, x: T)
    ensures FirstMatch(s, p, x) <==>
      exists i :: 0 <= i < |s| && s[i] == x && p(x) && forall j :: 0 <= j < i ==> !p(s[j])
    decreases |s|
  {
    if s != [] && !p(s[0]) {
      FirstMatchAt(s[1..], p, x);
      if FirstMatch(s, p, x) {
        var i :| 0 <= i < |s[1..]| && s[1..][i] == x && p(x) && forall j :: 0 <= j < i ==> !p(s[1..][j]);
        assert s[i + 1] == x;
        forall j | 0 <= j < i + 1 ensures !p(s[j]) {
          if j > 0 { assert s[j] == s[1..][j - 1]; }
        }
      } else if exists i :: 0 <= i < |s| && s[i] == x && p(x) && forall j :: 0 <= j < i ==> !p(s[j]) {
        var i :| 0 <= i < |s| && s[i] == x && p(x) && forall j :: 0 <= j < i ==> !p(s[j]);
        assert i > 0 && s[1..][i - 1] == x;
        forall j | 0 <= j < i - 1 ensures !p(s[1..][j]) {
          assert s[1..][j] == s[j + 1];
        }
        assert false;
      }
    } else if s != [] && FirstMatch(s, p, x) {
      assert s[0] == x;
    }
  }

  /** `s.find(p)`: the first element satisfying `p`, if any. */
  function Find<T>(s: seq<T>, p: T -> bool): (r: Option<T>)
    ensures r.None? <==> forall x :: x in s ==> !p(x)
    ensures r.Some? ==> r.value in s && p(r.value)
    ensures r.Some? ==> FirstMatch(s, p, r.value)
  {
    if s == [] then None
    else if p(s[0]) then Some(s[0])
    else
      assert s == [s[0]] + s[1..];
      Find(s[1..], p)
  }

  /** Σ f(x) over `s`, from the left. */
  function SumOf<T>(s: seq<T>, f: T -> real): real
  {
    if s == [] then 0.0 else SumOf(s[..|s| - 1], f) + f(s[|s| - 1])
  }

  lemma {:induction false} SumOfConcat<T>(a: seq<T>, b: seq<T>, f: T -> real)
    ensures SumOf(a + b, f) == SumOf(a, f) + SumOf(b, f)
    decreases |b|
  {
    if b == [] {
      assert a + b == a;
    } else {
      assert (a + b)[..|a + b| - 1] == a + b[..|b| - 1];
      SumOfConcat(a, b[..|b| - 1], f);
    }
  }

  /** Splitting `s` by `p` splits its sum. */
  lemma {:induction false} SumOfPartition<T>(s: seq<T>, p: T -> bool, q: T -> bool, f: T -> real)
    requires forall x :: q(x) == !p(x)
    ensures SumOf(Filter(s, p), f) + SumOf(Filter(s, q), f) == SumOf(s, f)
  {
    if s != [] {
      var init, last := s[..|s| - 1], s[|s| - 1];
      SumOfPartition(init, p, q, f);
      SumOfConcat(Filter(init, p), if p(last) then [last] else [], f);
      SumOfConcat(Filter(init, q), if q(last) then [last] else [], f);
      assert SumOf([last], f) == f(last) by {
        assert [last][..0] == [];
      }
    }
  }

  /** Filtering twice with compatible predicates is filtering once. */
  lemma {:induction false} FilterFilter<T>(s: seq<T>, p: T -> bool, q: T -> bool)
    requires forall x :: q(x) ==> p(x)
    ensures Filter(Filter(s, p), q) == Filter(s, q)
  {
    if s != [] {
      var init, last := s[..|s| - 1], s[|s| - 1];
      FilterFilter(init, p, q);
      FilterConcat(Filter(init, p), if p(last) then [last] else [], q);
      if p(last) {
        assert Filter([last], q) == if q(last) then [last] else [] by {
          assert [last][..0] == [];
        }
      }
    }
  }
}

/** Array.prototype.sort with a numeric comparator, which the language
    guarantees to be stable; modelled as insertion sort on a real key. */
module Sorting {
  import opened Seqs

  /** Non-decreasing by `key`. */
  ghost predicate SortedBy<T>(s: seq<T>, key: T -> real)
  {
    forall i, j :: 0 <= i < j < |s| ==> key(s[i]) <= key(s[j])
  }

  /** Places `x` before the first element whose key is at least its own. */
  function Insert<T>(x: T, s: seq<T>, key: T -> real): (r: seq<T>)
    ensures multiset(r) == multiset(s) + multiset{x}
    ensures |r| == |s| + 1
  {
    if s == [] || key(x) <= key(s[0]) then [x] + s
    else
      assert s == [s[0]] + s[1..];
      [s[0]] + Insert(x, s[1..], key)
  }

  lemma {:induction false} InsertSorted<T>(x: T, s: seq<T>, key: T -> real)
    requires SortedBy(s, key)
    ensures SortedBy(Insert(x, s, key), key)
  {
    if s != [] && key(x) > key(s[0]) {
      var tail := s[1..];
      var rest := Insert(x, tail, key);
      InsertSorted(x, tail, key);
      forall y | y in rest
        ensures key(s[0]) <= key(y)
      {
        assert y in multiset(tail) + multiset{x};
        if y != x {
          var j :| 0 <= j < |tail| && tail[j] == y;
          assert s[j + 1] == y;
        }
      }
      assert Insert(x, s, key) == [s[0]] + rest;
    }
  }

  /** The stable sort of `s` by ascending key. */
  function SortBy<T>(s: seq<T>, key: T -> real): (r: seq<T>)
    ensures multiset(r) == multiset(s)
    ensures |r| == |s|
    ensures SortedBy(r, key)
  {
    if s == [] then [] else
      assert s == [s[0]] + s[1..];
      var rest := SortBy(s[1..], key);
      InsertSorted(s[0], rest, key);
      Insert(s[0], rest, key)
  }

  lemma {:induction false} InsertStable<T>(x: T, s: seq<T>, key: T -> real, k: real, p: T -> bool)
    requires forall y :: p(y) ==> key(y) == k
    ensures Filter(Insert(x, s, key), p) == Filter([x], p) + Filter(s, p)
    decreases |s|
  {
    if s == [] || key(x) <= key(s[0]) {
      assert Insert(x, s, key) == [x] + s;
      FilterConcat([x], s, p);
    } else {
      var s0, tail := s[0], s[1..];
      var fs0, fx, ft := Filter([s0], p), Filter([x], p), Filter(tail, p);
      assert Filter(Insert(x, s, key), p) == fs0 + (fx + ft) by {
        assert Insert(x, s, key) == [s0] + Insert(x, tail, key);
        InsertStable(x, tail, key, k, p);
        FilterConcat([s0], Insert(x, tail, key), p);
      }
      assert Filter(s, p) == fs0 + ft by {
        assert s == [s0] + tail;
        FilterConcat([s0], tail, p);
      }
      assert fs0 == [] || fx == [] by {
        FilterSingle(s0, p);
        FilterSingle(x, p);
      }
      ConcatEitherEmpty(fs0, fx, ft);
    }
  }

  lemma ConcatEitherEmpty<T>(a: seq<T>, b: seq<T>, c: seq<T>)
    requires a == [] || b == []
    ensures a + (b + c) == b + (a + c)
  {
    if a == [] {
      assert a + (b + c) == b + c;
    } else {
      assert b + (a + c) == a + c;
    }
  }

  /** Stability: elements that share one key value `k` (any selection `p`
      of them) keep their input order in the sorted result. */
  lemma {:induction false} SortByStable<T>(s: seq<T>, key: T -> real, k: real, p: T -> bool)
    requires forall y :: p(y) ==> key(y) == k
    ensures Filter(SortBy(s, key), p) == Filter(s, p)
  {
    if s != [] {
      var s0, tail := s[0], s[1..];
      assert s == [s0] + tail;
      SortByStable(tail, key, k, p);
      InsertStable(s0, SortBy(tail, key), key, k, p);
      FilterConcat([s0], tail, p);
    }
  }

  /** A filter of a sorted sequence is sorted. */
  lemma {:induction false} FilterSorted<T>(s: seq<T>, p: T -> bool, key: T -> real)
    requires SortedBy(s, key)
    ensures SortedBy(Filter(s, p), key)
  {
    if s != [] {
      var init, last := s[..|s| - 1], s[|s| - 1];
      FilterSorted(init, p, key);
      forall y | y in Filter(init, p)
        ensures key(y) <= key(last)
      {
        var j :| 0 <= j < |init| && init[j] == y;
        assert s[j] == y;
      }
    }
  }

  lemma SortedSplit<T>(r: seq<T>, key: T -> real, n: nat)
    requires SortedBy(r, key) && n <= |r|
    ensures forall x, y :: x in r[n..] && y in r[..n] ==> key(y) <= key(x)
  {
    forall x, y | x in r[n..] && y in r[..n]
      ensures key(y) <= key(x)
    {
      var j :| 0 <= j < |r[n..]| && r[n..][j] == x;
      var i :| 0 <= i < n && r[..n][i] == y;
      assert r[i] == y && r[n + j] == x;
    }
  }

  /** `r` is a sorted choice from `s` that nothing left out undercuts:
      the `|r|` smallest keys of `s`, smallest first. */
  ghost predicate SmallestBy<T(!new)>(r: seq<T>, s: seq<T>, key: T -> real)
  {
    && multiset(r) <= multiset(s)
    && SortedBy(r, key)
    && forall x, y :: x in multiset(s) - multiset(r) && y in r ==> key(y) <= key(x)
  }

  lemma PrefixDominates<T(!new)>(s: seq<T>, r: seq<T>, key: T -> real, n: nat)
    requires multiset(r) == multiset(s) && SortedBy(r, key) && n <= |r|
    ensures multiset(r[..n]) <= multiset(s)
    ensures SortedBy(r[..n], key)
    ensures forall x, y :: x in multiset(s) - multiset(r[..n]) && y in r[..n] ==> key(y) <= key(x)
    ensures SmallestBy(r[..n], s, key)
  {
    assert r == r[..n] + r[n..];
    assert multiset(s) - multiset(r[..n]) == multiset(r[n..]);
    SortedSplit(r, key, n);
  }
}
