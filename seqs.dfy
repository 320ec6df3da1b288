/** The list idioms the app's logic is built from, once each: `Array.filter`,
    `reduce` to a sum, the stable `Array.sort` with a numeric comparator, and the
    "`acc[key] = (acc[key] || 0) + value`" grouping into a record, whose entries
    keep the order their keys were first seen in. */
module Seqs {

  // ---------------------------------------------------------------------------
  // filter
  // ---------------------------------------------------------------------------

  /** `s.filter(p)`. */
  function Filter<T(!new)>(s: seq<T>, p: T -> bool): (r: seq<T>)
    ensures |r| <= |s|
    ensures forall x :: x in r <==> x in s && p(x)
  {
    if s == [] then []
    else Filter(s[..|s| - 1], p) + (if p(s[|s| - 1]) then [s[|s| - 1]] else [])
  }

  /** Filtering works element by element and keeps the original order. */
  lemma {:induction false} FilterConcat<T(!new)>(a: seq<T>, b: seq<T>, p: T -> bool)
    ensures Filter(a + b, p) == Filter(a, p) + Filter(b, p)
  {
    if b == [] {
      assert a + b == a;
    } else {
      var b' := b[..|b| - 1];
      assert (a + b)[..|a + b| - 1] == a + b';
      FilterConcat(a, b', p);
    }
  }

  /** A filter that keeps everything is the identity. */
  lemma {:induction false} FilterAll<T(!new)>(s: seq<T>, p: T -> bool)
    requires forall x :: x in s ==> p(x)
    ensures Filter(s, p) == s
  {
    if s != [] {
      FilterAll(s[..|s| - 1], p);
      assert s == s[..|s| - 1] + [s[|s| - 1]];
    }
  }

  /** Filtering by a predicate no element meets leaves nothing. */
  lemma {:induction false} FilterNone<T(!new)>(s: seq<T>, p: T -> bool)
    requires forall x :: x in s ==> !p(x)
    ensures Filter(s, p) == []
  {
    if s != [] {
      FilterNone(s[..|s| - 1], p);
    }
  }

  /** Two predicates that agree on every element filter alike. */
  lemma {:induction false} FilterPointwise<T(!new)>(s: seq<T>, p: T -> bool, q: T -> bool)
    requires forall x :: x in s ==> p(x) == q(x)
    ensures Filter(s, p) == Filter(s, q)
  {
    if s != [] {
      FilterPointwise(s[..|s| - 1], p, q);
    }
  }

  /** Filtering keeps the multiplicity of every kept element. */
  lemma {:induction false} FilterMultiset<T(!new)>(s: seq<T>, p: T -> bool, x: T)
    ensures multiset(Filter(s, p))[x] == if p(x) then multiset(s)[x] else 0
  {
    if s != [] {
      var s' := s[..|s| - 1];
      FilterMultiset(s', p, x);
      assert s == s' + [s[|s| - 1]];
    }
  }

  // ---------------------------------------------------------------------------
  // sums
  // ---------------------------------------------------------------------------

  /** `s.reduce((sum, x) => sum + f(x), 0)`. */
  function SumBy<T>(s: seq<T>, f: T -> real): real {
    if s == [] then 0.0 else SumBy(s[..|s| - 1], f) + f(s[|s| - 1])
  }

  lemma {:induction false} SumConcat<T>(a: seq<T>, b: seq<T>, f: T -> real)
    ensures SumBy(a + b, f) == SumBy(a, f) + SumBy(b, f)
  {
    if b == [] {
      assert a + b == a;
    } else {
      var b' := b[..|b| - 1];
      assert (a + b)[..|a + b| - 1] == a + b';
      SumConcat(a, b', f);
    }
  }

  lemma SumSingle<T>(x: T, f: T -> real)
    ensures SumBy([x], f) == f(x)
  {
    assert [x][..0] == [];
  }

  /** Summing the kept elements is summing all of them with the others counted as 0. */
  lemma {:induction false} SumFilter<T(!new)>(s: seq<T>, p: T -> bool, f: T -> real, g: T -> real)
    requires forall x :: g(x) == if p(x) then f(x) else 0.0
    ensures SumBy(Filter(s, p), f) == SumBy(s, g)
  {
    if s != [] {
      var s' := s[..|s| - 1];
      var x := s[|s| - 1];
      SumFilter(s', p, f, g);
      SumConcat(Filter(s', p), if p(x) then [x] else [], f);
      if p(x) { SumSingle(x, f); }
    }
  }

  lemma {:induction false} SumNonNegative<T>(s: seq<T>, f: T -> real)
    requires forall x :: x in s ==> f(x) >= 0.0
    ensures SumBy(s, f) >= 0.0
  {
    if s != [] {
      SumNonNegative(s[..|s| - 1], f);
    }
  }

  /** Two sums that agree element by element agree. */
  lemma {:induction false} SumPointwise<T>(s: seq<T>, f: T -> real, g: T -> real)
    requires forall x :: x in s ==> f(x) == g(x)
    ensures SumBy(s, f) == SumBy(s, g)
  {
    if s != [] {
      SumPointwise(s[..|s| - 1], f, g);
    }
  }

  /** The sum of `f + g` is the sum of `f` plus the sum of `g`. */
  lemma {:induction false} SumAdd<T>(s: seq<T>, f: T -> real, g: T -> real, h: T -> real)
    requires forall x :: h(x) == f(x) + g(x)
    ensures SumBy(s, h) == SumBy(s, f) + SumBy(s, g)
  {
    if s != [] {
      SumAdd(s[..|s| - 1], f, g, h);
    }
  }

  /** A constant factor comes out of the sum. */
  lemma {:induction false} SumScale<T>(s: seq<T>, f: T -> real, g: T -> real, c: real)
    requires forall x :: x in s ==> g(x) == c * f(x)
    ensures SumBy(s, g) == c * SumBy(s, f)
  {
    if s != [] {
      SumScale(s[..|s| - 1], f, g, c);
    }
  }

  /** The sum does not depend on the order of the elements. */
  lemma {:induction false} SumPermutation<T>(a: seq<T>, b: seq<T>, f: T -> real)
    requires multiset(a) == multiset(b)
    ensures SumBy(a, f) == SumBy(b, f)
    decreases |a|
  {
    if a != [] {
      var x := a[|a| - 1];
      var a' := a[..|a| - 1];
      assert a == a' + [x];
      assert x in multiset(b);
      var j :| 0 <= j < |b| && b[j] == x;
      var b' := b[..j] + b[j + 1..];
      assert b == b[..j] + [x] + b[j + 1..];
      assert multiset(b) == multiset(b[..j]) + multiset{x} + multiset(b[j + 1..]);
      assert multiset(b') == multiset(b[..j]) + multiset(b[j + 1..]);
      assert multiset(a) == multiset(a') + multiset{x};
      assert multiset(a') == multiset(a) - multiset{x};
      assert multiset(b') == multiset(b) - multiset{x};
      SumPermutation(a', b', f);
      SumConcat(b[..j], b[j + 1..], f);
      SumConcat(b[..j] + [x], b[j + 1..], f);
      SumConcat(b[..j], [x], f);
      SumSingle(x, f);
    }
  }

  // ---------------------------------------------------------------------------
  // stable sort by a numeric key
  // ---------------------------------------------------------------------------

  predicate SortedBy<T>(s: seq<T>, key: T -> int) {
    forall i, j :: 0 <= i < j < |s| ==> key(s[i]) <= key(s[j])
  }

  /** Filtering keeps a sorted sequence sorted. */
  lemma {:induction false} FilterSortedBy<T(!new)>(s: seq<T>, p: T -> bool, key: T -> int)
    requires SortedBy(s, key)
    ensures SortedBy(Filter(s, p), key)
  {
    if s != [] {
      var s', x := s[..|s| - 1], s[|s| - 1];
      FilterSortedBy(s', p, key);
      var a := Filter(s', p);
      forall y | y in a ensures key(y) <= key(x) {
        var i :| 0 <= i < |s'| && s'[i] == y;
      }
      if p(x) {
        var r := a + [x];
        forall i, j | 0 <= i < j < |r| ensures key(r[i]) <= key(r[j]) {
          if j == |a| {
            assert r[i] in a;
          }
        }
      }
    }
  }

  /** Where a stable insertion puts `x`: after every element whose key is not larger. */
  function InsertPos<T>(x: T, s: seq<T>, key: T -> int): (k: nat)
    ensures k <= |s|
    ensures forall i :: k <= i < |s| ==> key(s[i]) > key(x)
    ensures k > 0 ==> key(s[k - 1]) <= key(x)
  {
    if s == [] then 0
    else if key(s[|s| - 1]) <= key(x) then |s|
    else InsertPos(x, s[..|s| - 1], key)
  }

  function Insert<T>(x: T, s: seq<T>, key: T -> int): seq<T> {
    var k := InsertPos(x, s, key);
    s[..k] + [x] + s[k..]
  }

  /** `s.sort((a, b) => key(a) - key(b))`: JavaScript's `Array.prototype.sort` is
      stable, and so is this insertion sort. */
  function SortBy<T>(s: seq<T>, key: T -> int): seq<T> {
    if s == [] then [] else Insert(s[|s| - 1], SortBy(s[..|s| - 1], key), key)
  }

  lemma InsertMultiset<T>(x: T, s: seq<T>, key: T -> int)
    ensures multiset(Insert(x, s, key)) == multiset(s) + multiset{x}
  {
    var k := InsertPos(x, s, key);
    assert s == s[..k] + s[k..];
  }

  lemma InsertSorted<T>(x: T, s: seq<T>, key: T -> int)
    requires SortedBy(s, key)
    ensures SortedBy(Insert(x, s, key), key)
  {
    var k := InsertPos(x, s, key);
    var r := Insert(x, s, key);
    forall i | 0 <= i < k ensures key(s[i]) <= key(x) {
      assert key(s[i]) <= key(s[k - 1]);
    }
    forall i | 0 <= i < |r|
      ensures i < k ==> r[i] == s[i]
      ensures i == k ==> r[i] == x
      ensures i > k ==> r[i] == s[i - 1]
    {
    }
    forall i, j | 0 <= i < j < |r| ensures key(r[i]) <= key(r[j]) {
      if j <= k {
      } else if i <= k {
        assert key(s[j - 1]) > key(x);
      } else {
        assert key(s[i - 1]) <= key(s[j - 1]);
      }
    }
  }

  /** The sort returns the same elements, ordered by key. */
  lemma {:induction false} SortByCorrect<T>(s: seq<T>, key: T -> int)
    ensures SortedBy(SortBy(s, key), key)
    ensures multiset(SortBy(s, key)) == multiset(s)
    ensures |SortBy(s, key)| == |s|
  {
    if s != [] {
      var s' := s[..|s| - 1];
      SortByCorrect(s', key);
      InsertSorted(s[|s| - 1], SortBy(s', key), key);
      InsertMultiset(s[|s| - 1], SortBy(s', key), key);
      assert s == s' + [s[|s| - 1]];
    }
    assert |multiset(SortBy(s, key))| == |multiset(s)|;
  }

  /** Sorting what is already in order changes nothing. */
  lemma {:induction false} SortBySorted<T>(s: seq<T>, key: T -> int)
    requires SortedBy(s, key)
    ensures SortBy(s, key) == s
  {
    if s != [] {
      var s' := s[..|s| - 1];
      assert SortedBy(s', key);
      SortBySorted(s', key);
      assert s == s' + [s[|s| - 1]];
    }
  }

  /** Sorting keeps exactly the elements it was given. */
  lemma SortByMembers<T>(s: seq<T>, key: T -> int)
    ensures forall x :: x in SortBy(s, key) <==> x in s
  {
    SortByCorrect(s, key);
    forall x ensures x in SortBy(s, key) <==> x in s {
      assert x in SortBy(s, key) <==> x in multiset(SortBy(s, key));
      assert x in s <==> x in multiset(s);
    }
  }

  // ---------------------------------------------------------------------------
  // distinct identifiers
  // ---------------------------------------------------------------------------

  /** No identifier appears twice. */
  predicate UniqueBy<T>(s: seq<T>, id: T -> string) {
    forall i, j :: 0 <= i < j < |s| ==> id(s[i]) != id(s[j])
  }

  /** A stable insertion keeps identifiers distinct when the new one is fresh. */
  lemma InsertUnique<T>(x: T, s: seq<T>, key: T -> int, id: T -> string)
    requires UniqueBy(s, id)
    requires forall y :: y in s ==> id(y) != id(x)
    ensures UniqueBy(Insert(x, s, key), id)
  {
    var k := InsertPos(x, s, key);
    var r := Insert(x, s, key);
    forall i, j | 0 <= i < j < |r| ensures id(r[i]) != id(r[j]) {
      if j < k {
        assert r[i] == s[i] && r[j] == s[j];
      } else if j == k {
        assert r[i] == s[i] && r[j] == x;
      } else if i < k {
        assert r[i] == s[i] && r[j] == s[j - 1];
      } else if i == k {
        assert r[i] == x && r[j] == s[j - 1];
        assert s[j - 1] in s;
      } else {
        assert r[i] == s[i - 1] && r[j] == s[j - 1];
      }
    }
  }

  /** Sorting keeps identifiers distinct. */
  lemma {:induction false} SortByUnique<T>(s: seq<T>, key: T -> int, id: T -> string)
    requires UniqueBy(s, id)
    ensures UniqueBy(SortBy(s, key), id)
  {
    if s != [] {
      var s' := s[..|s| - 1];
      var x := s[|s| - 1];
      assert UniqueBy(s', id);
      SortByUnique(s', key, id);
      var sorted := SortBy(s', key);
      SortByCorrect(s', key);
      assert multiset(sorted) == multiset(s');
      forall y | y in sorted ensures id(y) != id(x) {
        assert y in multiset(sorted);
        assert y in multiset(s');
        assert y in s';
        var i :| 0 <= i < |s'| && s'[i] == y;
        assert s[i] == y;
      }
      InsertUnique(x, sorted, key, id);
    }
  }

  /** Appending fresh, distinct identifiers to distinct identifiers keeps them distinct. */
  lemma ConcatUnique<T>(a: seq<T>, b: seq<T>, id: T -> string)
    requires UniqueBy(a, id) && UniqueBy(b, id)
    requires forall x, y :: x in a && y in b ==> id(x) != id(y)
    ensures UniqueBy(a + b, id)
  {
    var r := a + b;
    forall i, j | 0 <= i < j < |r| ensures id(r[i]) != id(r[j]) {
      if j < |a| {
        assert r[i] == a[i] && r[j] == a[j];
      } else if i < |a| {
        assert r[i] == a[i] && r[j] == b[j - |a|];
        assert a[i] in a && b[j - |a|] in b;
      } else {
        assert r[i] == b[i - |a|] && r[j] == b[j - |a|];
      }
    }
  }

  /** A filter keeps identifiers distinct. */
  lemma {:induction false} FilterUnique<T(!new)>(s: seq<T>, p: T -> bool, id: T -> string)
    requires UniqueBy(s, id)
    ensures UniqueBy(Filter(s, p), id)
  {
    if s != [] {
      var s' := s[..|s| - 1];
      var x := s[|s| - 1];
      assert UniqueBy(s', id);
      FilterUnique(s', p, id);
      if p(x) {
        forall y | y in Filter(s', p) ensures id(y) != id(x) {
          var i :| 0 <= i < |s'| && s'[i] == y;
          assert s[i] == y;
        }
        ConcatUnique(Filter(s', p), [x], id);
      }
    }
  }

  // ---------------------------------------------------------------------------
  // distinct values
  // ---------------------------------------------------------------------------

  predicate Distinct<T(==)>(s: seq<T>) {
    forall i, j :: 0 <= i < j < |s| ==> s[i] != s[j]
  }

  lemma {:induction false} DistinctCounts<T>(s: seq<T>, x: T)
    requires Distinct(s)
    ensures multiset(s)[x] <= 1
  {
    if s != [] {
      var s' := s[..|s| - 1];
      DistinctCounts(s', x);
      assert s == s' + [s[|s| - 1]];
      if s[|s| - 1] == x {
        assert x !in s';
      }
    }
  }

  lemma CountsDistinct<T>(s: seq<T>)
    requires forall x :: multiset(s)[x] <= 1
    ensures Distinct(s)
  {
    forall i, j | 0 <= i < j < |s| ensures s[i] != s[j] {
      if s[i] == s[j] {
        TwoCopies(s, i, j);
      }
    }
  }

  lemma TwoCopies<T>(s: seq<T>, i: int, j: int)
    requires 0 <= i < j < |s| && s[i] == s[j]
    ensures multiset(s)[s[i]] >= 2
  {
    var a, b, c := s[..i], s[i + 1..j], s[j + 1..];
    assert s == a + [s[i]] + b + [s[j]] + c;
    assert multiset(s) == multiset(a) + multiset{s[i]} + multiset(b) + multiset{s[j]} + multiset(c);
  }

  /** Sorting keeps distinct values distinct. */
  lemma SortByDistinct<T>(s: seq<T>, key: T -> int)
    requires Distinct(s)
    ensures Distinct(SortBy(s, key))
  {
    SortByCorrect(s, key);
    forall x ensures multiset(SortBy(s, key))[x] <= 1 {
      DistinctCounts(s, x);
    }
    CountsDistinct(SortBy(s, key));
  }

  // ---------------------------------------------------------------------------
  // distinct values in first-seen order
  // ---------------------------------------------------------------------------

  /** `Array.from(new Set(s))`: each value once, where it first occurs. */
  function Dedup<T(==,!new)>(s: seq<T>): (r: seq<T>)
    ensures forall x :: x in r <==> x in s
    ensures Distinct(r)
  {
    if s == [] then []
    else
      var r := Dedup(s[..|s| - 1]);
      assert s == s[..|s| - 1] + [s[|s| - 1]];
      if s[|s| - 1] in r then r else r + [s[|s| - 1]]
  }

  // ---------------------------------------------------------------------------
  // grouping into a record with insertion-ordered keys
  // ---------------------------------------------------------------------------

  /** `Object.keys(m)`, in entry order. */
  function Keys<K, V>(m: seq<(K, V)>): seq<K> {
    if m == [] then [] else [m[0].0] + Keys(m[1..])
  }

  /** Keys of a record are distinct. */
  predicate DistinctKeys<K(==), V>(m: seq<(K, V)>) {
    m == [] || (m[0].0 !in Keys(m[1..]) && DistinctKeys(m[1..]))
  }

  /** `m[k] || 0` for a record of sums. */
  function Lookup<K(==)>(m: seq<(K, real)>, k: K): real {
    if m == [] then 0.0
    else if m[0].0 == k then m[0].1
    else Lookup(m[1..], k)
  }

  function SumValues<K>(m: seq<(K, real)>): real {
    if m == [] then 0.0 else m[0].1 + SumValues(m[1..])
  }

  /** `m[k] = (m[k] || 0) + v`: an existing key keeps its place, a new key goes last. */
  function Accumulate<K(==,!new)>(m: seq<(K, real)>, k: K, v: real): (r: seq<(K, real)>)
    ensures |r| == |m| || |r| == |m| + 1
    ensures forall j :: j in Keys(r) <==> j in Keys(m) || j == k
    ensures SumValues(r) == SumValues(m) + v
    ensures DistinctKeys(m) ==> DistinctKeys(r)
    ensures DistinctKeys(m) ==> forall j :: Lookup(r, j) == Lookup(m, j) + (if j == k then v else 0.0)
  {
    if m == [] then
      [(k, v)]
    else if m[0].0 == k then
      var r := [(k, m[0].1 + v)] + m[1..];
      assert r[1..] == m[1..];
      r
    else
      var tail := Accumulate(m[1..], k, v);
      var r := [m[0]] + tail;
      assert r[1..] == tail;
      r
  }

  /** `s.reduce((acc, x) => { acc[key(x)] = (acc[key(x)] || 0) + f(x); return acc; }, {})`. */
  function Group<T, K(==,!new)>(s: seq<T>, key: T -> K, f: T -> real): seq<(K, real)> {
    if s == [] then [] else Accumulate(Group(s[..|s| - 1], key, f), key(s[|s| - 1]), f(s[|s| - 1]))
  }

  /** `f` on the elements with key `k`, nothing on the others. */
  function Only<T, K(==)>(key: T -> K, f: T -> real, k: K): T -> real {
    x => if key(x) == k then f(x) else 0.0
  }

  /** The groups are keyed by distinct keys, one per key that occurs, each holding
      the total of its elements, and together they hold the total of all elements. */
  lemma {:induction false} GroupCorrect<T, K(!new)>(s: seq<T>, key: T -> K, f: T -> real)
    ensures DistinctKeys(Group(s, key, f))
    ensures forall k :: k in Keys(Group(s, key, f)) <==> exists x :: x in s && key(x) == k
    ensures SumValues(Group(s, key, f)) == SumBy(s, f)
    ensures forall k :: Lookup(Group(s, key, f), k) == SumBy(s, Only(key, f, k))
  {
    if s != [] {
      var s' := s[..|s| - 1];
      var x := s[|s| - 1];
      GroupCorrect(s', key, f);
      forall k ensures k in Keys(Group(s, key, f)) <==> exists y :: y in s && key(y) == k {
        if k in Keys(Group(s', key, f)) {
          var y :| y in s' && key(y) == k;
          assert y in s;
        }
        if exists y :: y in s && key(y) == k {
          var y :| y in s && key(y) == k;
          if y != x {
            assert y in s';
          }
        }
      }
    }
  }
}
