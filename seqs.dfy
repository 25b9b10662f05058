/** Sequence operations the source uses through JavaScript's array library
    and the database's query builder: `filter`, `Array.from(new Set(xs))`,
    `order(..., { ascending: false })` and `limit`. */
module Seqs {

  /** `s.filter(p)`: the elements satisfying `p`, each as often as in `s`. */
  function Filter<T(!new)>(s: seq<T>, p: T -> bool): (r: seq<T>)
    ensures |r| <= |s|
    ensures forall i :: 0 <= i < |r| ==> p(r[i]) && r[i] in s
  {
    if s == [] then []
    else (if p(s[0]) then [s[0]] else []) + Filter(s[1..], p)
  }

  /** Filtering drops exactly the occurrences of the elements failing `p`
      and keeps every occurrence of the others. */
  lemma {:induction false} FilterCount<T(!new)>(s: seq<T>, p: T -> bool)
    ensures forall x :: multiset(Filter(s, p))[x] == if p(x) then multiset(s)[x] else 0
    decreases |s|
  {
    if s != [] {
      FilterCount(s[1..], p);
      assert s == [s[0]] + s[1..];
      assert multiset(s) == multiset{s[0]} + multiset(s[1..]);
    }
  }

  /** Filtering keeps the original relative order: it distributes over concatenation. */
  lemma {:induction false} FilterAppend<T(!new)>(a: seq<T>, b: seq<T>, p: T -> bool)
    ensures Filter(a + b, p) == Filter(a, p) + Filter(b, p)
    decreases |a|
  {
    if a != [] {
      assert (a + b)[0] == a[0];
      assert (a + b)[1..] == a[1..] + b;
      FilterAppend(a[1..], b, p);
      var h := if p(a[0]) then [a[0]] else [];
      calc {
        Filter(a + b, p);
        h + Filter(a[1..] + b, p);
        h + (Filter(a[1..], p) + Filter(b, p));
        (h + Filter(a[1..], p)) + Filter(b, p);
        Filter(a, p) + Filter(b, p);
      }
    } else {
      assert a + b == b;
    }
  }

  /** Filtering a sequence every element of which passes changes nothing. */
  lemma {:induction false} FilterKeepsAll<T(!new)>(s: seq<T>, p: T -> bool)
    requires forall i :: 0 <= i < |s| ==> p(s[i])
    ensures Filter(s, p) == s
    decreases |s|
  {
    if s != [] {
      FilterKeepsAll(s[1..], p);
    }
  }

  /** Filtering a sequence no element of which passes leaves nothing. */
  lemma {:induction false} FilterKeepsNone<T(!new)>(s: seq<T>, p: T -> bool)
    requires forall i :: 0 <= i < |s| ==> !p(s[i])
    ensures Filter(s, p) == []
    decreases |s|
  {
    if s != [] {
      FilterKeepsNone(s[1..], p);
    }
  }

  /** `s.map(f)`. */
  function Map<T, U>(s: seq<T>, f: T -> U): (r: seq<U>)
    ensures |r| == |s|
    ensures forall i :: 0 <= i < |s| ==> r[i] == f(s[i])
  {
    seq(|s|, i requires 0 <= i < |s| => f(s[i]))
  }

  /** Mapping distributes over concatenation. */
  lemma MapAppend<T, U>(a: seq<T>, b: seq<T>, f: T -> U)
    ensures Map(a + b, f) == Map(a, f) + Map(b, f)
  {
  }

  /** `Array.from(new Set(xs))`: the distinct elements in the order of their
      first occurrence (a Set iterates in insertion order). */
  function Distinct<T(==,!new)>(xs: seq<T>): (r: seq<T>)
    ensures forall x :: x in r <==> x in xs
    ensures forall i, j :: 0 <= i < j < |r| ==> r[i] != r[j]
    ensures forall i, j :: 0 <= i < j < |r| ==>
              exists k :: 0 <= k < |xs| && xs[k] == r[i] && r[j] !in xs[..k + 1]
    decreases |xs|
  {
    if xs == [] then []
    else
      var init := xs[..|xs| - 1];
      var last := xs[|xs| - 1];
      var r := Distinct(init);
      assert xs == init + [last];
      if last in r then r
      else
        var r' := r + [last];
        assert forall i :: 0 <= i < |r| ==> r'[i] == r[i];
        forall i, j | 0 <= i < j < |r'|
          ensures exists k :: 0 <= k < |xs| && xs[k] == r'[i] && r'[j] !in xs[..k + 1]
        {
          if j < |r| {
            var k :| 0 <= k < |init| && init[k] == r[i] && r[j] !in init[..k + 1];
            assert xs[..k + 1] == init[..k + 1];
            assert xs[k] == r'[i] && r'[j] !in xs[..k + 1];
          } else {
            assert r'[i] in init;
            var k :| 0 <= k < |init| && init[k] == r'[i];
            assert xs[..k + 1] == init[..k + 1];
            assert r'[j] == last;
            assert last !in init[..k + 1];
            assert xs[k] == r'[i] && r'[j] !in xs[..k + 1];
          }
        }
        r'
  }

  /** The ordering of `order(key, { ascending: false })`. */
  ghost predicate SortedDesc<T>(s: seq<T>, key: T -> int)
  {
    forall i, j :: 0 <= i < j < |s| ==> key(s[i]) >= key(s[j])
  }

  /** Inserts `x` into a sequence after the leading elements whose key is
      at least `key(x)`: its place in a descending sequence. */
  function InsertDesc<T>(x: T, s: seq<T>, key: T -> int): (r: seq<T>)
    ensures multiset(r) == multiset(s) + multiset{x}
    ensures |r| == |s| + 1
    decreases |s|
  {
    if s == [] then [x]
    else if key(s[0]) >= key(x) then
      assert s == [s[0]] + s[1..];
      [s[0]] + InsertDesc(x, s[1..], key)
    else
      [x] + s
  }

  /** Insertion adds no key above a bound that `x` and `s` respect. */
  lemma {:induction false} InsertDescBound<T>(x: T, s: seq<T>, key: T -> int, bound: int)
    requires key(x) <= bound
    requires forall i :: 0 <= i < |s| ==> key(s[i]) <= bound
    ensures forall i :: 0 <= i < |InsertDesc(x, s, key)| ==> key(InsertDesc(x, s, key)[i]) <= bound
    decreases |s|
  {
    if s != [] && key(s[0]) >= key(x) {
      InsertDescBound(x, s[1..], key, bound);
    }
  }

  /** Insertion keeps a descending sequence descending. */
  lemma {:induction false} InsertDescSorted<T>(x: T, s: seq<T>, key: T -> int)
    requires SortedDesc(s, key)
    ensures SortedDesc(InsertDesc(x, s, key), key)
    decreases |s|
  {
    if s != [] && key(s[0]) >= key(x) {
      var t := InsertDesc(x, s[1..], key);
      InsertDescSorted(x, s[1..], key);
      InsertDescBound(x, s[1..], key, key(s[0]));
      var r := [s[0]] + t;
      assert r == InsertDesc(x, s, key);
      forall i, j | 0 <= i < j < |r| ensures key(r[i]) >= key(r[j]) {
        assert r[j] == t[j - 1];
        if i > 0 { assert r[i] == t[i - 1]; }
      }
    } else if s != [] {
      var r := [x] + s;
      forall i, j | 0 <= i < j < |r| ensures key(r[i]) >= key(r[j]) {
        assert r[j] == s[j - 1];
        if i > 0 { assert r[i] == s[i - 1]; }
      }
    }
  }

  /** The rows ordered newest first. Rows with equal keys keep their
      relative order, one of the orders the database may return. */
  function SortDesc<T>(s: seq<T>, key: T -> int): (r: seq<T>)
    ensures SortedDesc(r, key)
    ensures multiset(r) == multiset(s)
    ensures |r| == |s|
    decreases |s|
  {
    if s == [] then []
    else
      assert s == s[..|s| - 1] + [s[|s| - 1]];
      var sorted := SortDesc(s[..|s| - 1], key);
      InsertDescSorted(s[|s| - 1], sorted, key);
      InsertDesc(s[|s| - 1], sorted, key)
  }

  /** `limit(n)`: the first `n` elements, or all of them when fewer. */
  function Limit<T>(s: seq<T>, n: nat): (r: seq<T>)
    ensures |r| == if |s| <= n then |s| else n
    ensures r <= s
  {
    if |s| <= n then s else s[..n]
  }
}
