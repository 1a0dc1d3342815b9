/** Generic list operations behind the pages' queries and folds: filtering
    (`where`, `.filter`), ordering (`orderBy`, `.sort`), truncation
    (`take`, `.slice(0, n)`) and summing (`.reduce((sum, x) => sum + …, 0)`).

    An ordering is given as a relation `before(a, b)`: "a may be listed
    ahead of b". The orderings the pages use are total preorders (ties are
    allowed; the database leaves their order unspecified). */
module Listing {

  function Min(a: int, b: int): int {
    if a <= b then a else b
  }

  /** `before` can compare any two values and chains transitively. */
  ghost predicate TotalPreorder<T(!new)>(before: (T, T) -> bool) {
    && (forall a, b :: before(a, b) || before(b, a))
    && (forall a, b, c :: before(a, b) && before(b, c) ==> before(a, c))
  }

  /** Every element of `s` may be listed ahead of every later one. */
  ghost predicate Sorted<T>(s: seq<T>, before: (T, T) -> bool) {
    forall i, j :: 0 <= i < j < |s| ==> before(s[i], s[j])
  }

  /** `x` placed into `s` ahead of the first element it may precede. */
  function Insert<T(==,!new)>(x: T, s: seq<T>, before: (T, T) -> bool): (r: seq<T>)
    ensures multiset(r) == multiset(s) + multiset{x}
    ensures TotalPreorder(before) && Sorted(s, before) ==> Sorted(r, before)
  {
    if |s| == 0 then [x]
    else if before(x, s[0]) then
      InsertFrontSorted(x, s, before);
      [x] + s
    else
      var rest := Insert(x, s[1..], before);
      InsertLaterSorted(x, s, before, rest);
      assert s == [s[0]] + s[1..];
      [s[0]] + rest
  }

  lemma InsertFrontSorted<T(!new)>(x: T, s: seq<T>, before: (T, T) -> bool)
    requires |s| > 0 && before(x, s[0])
    ensures TotalPreorder(before) && Sorted(s, before) ==> Sorted([x] + s, before)
  {
    var r := [x] + s;
    if TotalPreorder(before) && Sorted(s, before) {
      forall i, j | 0 <= i < j < |r|
        ensures before(r[i], r[j])
      {
        if i == 0 && j > 1 {
          assert before(x, s[0]) && before(s[0], s[j - 1]);
        }
      }
    }
  }

  lemma InsertLaterSorted<T(!new)>(x: T, s: seq<T>, before: (T, T) -> bool, rest: seq<T>)
    requires |s| > 0 && !before(x, s[0])
    requires multiset(rest) == multiset(s[1..]) + multiset{x}
    requires TotalPreorder(before) && Sorted(s[1..], before) ==> Sorted(rest, before)
    ensures TotalPreorder(before) && Sorted(s, before) ==> Sorted([s[0]] + rest, before)
  {
    var r := [s[0]] + rest;
    if TotalPreorder(before) && Sorted(s, before) {
      assert Sorted(s[1..], before);
      assert before(s[0], x);
      forall i, j | 0 <= i < j < |r|
        ensures before(r[i], r[j])
      {
        if i == 0 {
          var y := r[j];
          assert y in multiset(rest);
          if y != x {
            assert y in multiset(s[1..]);
            var k :| 0 <= k < |s[1..]| && s[1..][k] == y;
            assert s[k + 1] == y;
          }
        }
      }
    }
  }

  /** A stable insertion sort: the elements of `s`, reordered by `before`. */
  function SortBy<T(==,!new)>(s: seq<T>, before: (T, T) -> bool): (r: seq<T>)
    ensures multiset(r) == multiset(s)
    ensures |r| == |s|
    ensures TotalPreorder(before) ==> Sorted(r, before)
  {
    if |s| == 0 then []
    else
      assert s == [s[0]] + s[1..];
      Insert(s[0], SortBy(s[1..], before), before)
  }

  /** The elements of `s` satisfying `p`, in their original order. */
  function Filter<T>(s: seq<T>, p: T -> bool): (r: seq<T>)
    ensures |r| <= |s|
    ensures forall i :: 0 <= i < |r| ==> p(r[i])
    ensures forall x :: x in r ==> x in s
    ensures multiset(r) <= multiset(s)
  {
    if |s| == 0 then []
    else
      assert s == [s[0]] + s[1..];
      (if p(s[0]) then [s[0]] else []) + Filter(s[1..], p)
  }

  /** Filtering keeps exactly the occurrences that satisfy `p`. */
  lemma {:induction false} FilterCounts<T>(s: seq<T>, p: T -> bool, x: T)
    ensures multiset(Filter(s, p))[x] == if p(x) then multiset(s)[x] else 0
  {
    if |s| > 0 {
      FilterCounts(s[1..], p, x);
      assert s == [s[0]] + s[1..];
    }
  }

  /** An element survives filtering exactly when it occurs and satisfies
      `p`. */
  lemma FilterMembership<T>(s: seq<T>, p: T -> bool, x: T)
    ensures x in Filter(s, p) <==> x in s && p(x)
  {
    FilterCounts(s, p, x);
    assert x in Filter(s, p) <==> x in multiset(Filter(s, p));
    assert x in s <==> x in multiset(s);
  }

  /** The same, for every element at once. */
  lemma FilterExact<T>(s: seq<T>, p: T -> bool)
    ensures forall x :: x in Filter(s, p) <==> x in s && p(x)
  {
    forall x
      ensures x in Filter(s, p) <==> x in s && p(x)
    {
      FilterMembership(s, p, x);
    }
  }

  /** Filtering a concatenation filters each part. */
  lemma {:induction false} FilterAppend<T>(a: seq<T>, b: seq<T>, p: T -> bool)
    ensures Filter(a + b, p) == Filter(a, p) + Filter(b, p)
  {
    if |a| > 0 {
      FilterAppend(a[1..], b, p);
      assert (a + b)[1..] == a[1..] + b;
    } else {
      assert a + b == b;
    }
  }

  /** Filtering depends only on which elements are present, not their order. */
  lemma FilterOfPermutation<T>(s: seq<T>, t: seq<T>, p: T -> bool)
    requires multiset(s) == multiset(t)
    ensures multiset(Filter(s, p)) == multiset(Filter(t, p))
  {
    var fs, ft := multiset(Filter(s, p)), multiset(Filter(t, p));
    forall x
      ensures fs[x] == ft[x]
    {
      FilterCounts(s, p, x);
      FilterCounts(t, p, x);
    }
    MultisetsAgreeing(fs, ft);
  }

  /** Two multisets that agree on every multiplicity are equal. */
  lemma MultisetsAgreeing<T>(a: multiset<T>, b: multiset<T>)
    requires forall x :: a[x] == b[x]
    ensures a == b
  {
  }

  /** Filtering a sorted list leaves it sorted. */
  lemma {:induction false} FilterKeepsSorted<T>(s: seq<T>, p: T -> bool, before: (T, T) -> bool)
    requires Sorted(s, before)
    ensures Sorted(Filter(s, p), before)
  {
    if |s| > 0 {
      FilterKeepsSorted(s[1..], p, before);
      var rest := Filter(s[1..], p);
      forall y | y in rest
        ensures before(s[0], y)
      {
        var k :| 0 <= k < |s[1..]| && s[1..][k] == y;
        assert s[k + 1] == y;
      }
    }
  }

  /** The first `n` elements (`take: n`, `.slice(0, n)`). */
  function Take<T>(s: seq<T>, n: nat): (r: seq<T>)
    ensures |r| == Min(n, |s|)
    ensures r <= s
  {
    s[..Min(n, |s|)]
  }

  /** The first `k` elements of `s` in `before` order: a query's `orderBy`
      followed by `take: k`. Nothing left out may be listed ahead of
      anything kept. */
  function Top<T(==,!new)>(s: seq<T>, before: (T, T) -> bool, k: nat): (r: seq<T>)
    ensures multiset(r) <= multiset(s)
    ensures |r| == Min(k, |s|)
    ensures TotalPreorder(before) ==> Sorted(r, before)
    ensures TotalPreorder(before) ==>
              forall x, y :: x in r && y in multiset(s) - multiset(r) ==> before(x, y)
    ensures |s| <= k ==> multiset(r) == multiset(s)
  {
    var sorted := SortBy(s, before);
    PrefixOfSorted(sorted, before, Min(k, |s|));
    sorted[..Min(k, |s|)]
  }

  /** `orderBy: {k: "desc"}, take: n` in plain terms: what is kept comes
      from `s`, its key never increases, and nothing left out has a larger
      key than anything kept. */
  lemma TopByKey<T(!new)>(s: seq<T>, k: T -> int, n: nat)
    ensures var r := Top(s, Desc([k]), n);
            && (forall x :: x in r ==> x in s)
            && (forall i, j :: 0 <= i < j < |r| ==> k(r[i]) >= k(r[j]))
            && (forall x, y :: x in r && y in multiset(s) - multiset(r) ==> k(x) >= k(y))
  {
    var r := Top(s, Desc([k]), n);
    DescIsTotalPreorder([k]);
    SortedDescLeadingKey(r, [k]);
    forall x | x in r
      ensures x in s
    {
      assert x in multiset(r);
    }
    forall x, y | x in r && y in multiset(s) - multiset(r)
      ensures k(x) >= k(y)
    {
      assert Desc([k])(x, y);
    }
  }

  /** `orderBy: {k: "desc"}, take: n`, stated by its key alone: the first
      `n` elements (all of them when there are fewer), drawn from `s`, the
      key never increasing, and nothing left out with a larger key than
      anything kept. */
  function TopDesc<T(==,!new)>(s: seq<T>, k: T -> int, n: nat): (r: seq<T>)
    ensures |r| == Min(n, |s|)
    ensures multiset(r) <= multiset(s)
    ensures forall x :: x in r ==> x in s
    ensures forall i, j :: 0 <= i < j < |r| ==> k(r[i]) >= k(r[j])
    ensures forall x, y :: x in r && y in multiset(s) - multiset(r) ==> k(x) >= k(y)
    ensures |s| <= n ==> multiset(r) == multiset(s)
  {
    TopByKey(s, k, n);
    TopKeepsAllWhenFew(s, Desc([k]), n);
    Top(s, Desc([k]), n)
  }

  /** When at most `n` elements are there, `take: n` keeps them all. */
  lemma TopKeepsAllWhenFew<T(!new)>(s: seq<T>, before: (T, T) -> bool, n: nat)
    ensures |s| <= n ==> multiset(Top(s, before, n)) == multiset(s)
  {
    if |s| <= n {
      var r := Top(s, before, n);
      var d := multiset(s) - multiset(r);
      assert multiset(s) == multiset(r) + d;
      assert |multiset(r)| == |r| == |s| == |multiset(s)|;
      assert |d| == 0;
    }
  }

  /** Splitting a list after `m` elements: the prefix's elements and the
      rest's make up the whole, and in a sorted list every prefix element may
      precede every element of the rest. */
  lemma PrefixOfSorted<T(!new)>(sorted: seq<T>, before: (T, T) -> bool, m: nat)
    requires m <= |sorted|
    ensures multiset(sorted) == multiset(sorted[..m]) + multiset(sorted[m..])
    ensures Sorted(sorted, before) ==> Sorted(sorted[..m], before)
    ensures Sorted(sorted, before) ==>
              forall x, y :: x in sorted[..m] && y in multiset(sorted) - multiset(sorted[..m]) ==> before(x, y)
  {
    var r := sorted[..m];
    assert sorted == r + sorted[m..];
    if Sorted(sorted, before) {
      forall x, y | x in r && y in multiset(sorted) - multiset(r)
        ensures before(x, y)
      {
        var i :| 0 <= i < |r| && r[i] == x;
        assert y in multiset(sorted[m..]);
        var j :| 0 <= j < |sorted[m..]| && sorted[m..][j] == y;
        assert sorted[i] == x && sorted[m + j] == y;
      }
    }
  }

  /** `s.reduce((sum, x) => sum + f(x), 0)`. */
  function Sum<T>(s: seq<T>, f: T -> int): int {
    if |s| == 0 then 0 else f(s[0]) + Sum(s[1..], f)
  }

  /** A one-element sum is that element's value. */
  lemma SumOfOne<T>(s: seq<T>, f: T -> int)
    ensures |s| == 1 ==> Sum(s, f) == f(s[0])
  {
    if |s| == 1 {
      assert s[1..] == [];
    }
  }

  /** A sum over a concatenation is the sum of the parts. */
  lemma {:induction false} SumAppend<T>(a: seq<T>, b: seq<T>, f: T -> int)
    ensures Sum(a + b, f) == Sum(a, f) + Sum(b, f)
  {
    if |a| > 0 {
      assert (a + b)[0] == a[0];
      assert (a + b)[1..] == a[1..] + b;
      SumAppend(a[1..], b, f);
    } else {
      assert a + b == b;
    }
  }

  /** Reordering does not change a sum. */
  lemma {:induction false} SumOfPermutation<T>(a: seq<T>, b: seq<T>, f: T -> int)
    requires multiset(a) == multiset(b)
    ensures Sum(a, f) == Sum(b, f)
    decreases |a|
  {
    if |a| > 0 {
      assert a[0] in multiset(b);
      var i :| 0 <= i < |b| && b[i] == a[0];
      RestIsPermutation(a, b, i);
      SumOfPermutation(a[1..], b[..i] + b[i + 1..], f);
      SumWithout(b, i, f);
    } else {
      assert b == [];
    }
  }

  /** Taking the same element out of two permutations of each other leaves
      permutations of each other. */
  lemma RestIsPermutation<T>(a: seq<T>, b: seq<T>, i: nat)
    requires multiset(a) == multiset(b) && |a| > 0 && i < |b| && b[i] == a[0]
    ensures multiset(a[1..]) == multiset(b[..i] + b[i + 1..])
  {
    var l, m := b[..i], b[i + 1..];
    assert b == l + [b[i]] + m;
    assert a == [a[0]] + a[1..];
    assert multiset(b) == multiset(l) + multiset{b[i]} + multiset(m);
    assert multiset(a) == multiset{a[0]} + multiset(a[1..]);
    assert multiset(l + m) == multiset(l) + multiset(m);
    assert multiset(a[1..]) == multiset(a) - multiset{a[0]};
    assert multiset(l) + multiset(m) == multiset(b) - multiset{b[i]};
  }

  /** A sum is one term plus the sum of the others. */
  lemma {:induction false} SumWithout<T>(b: seq<T>, i: nat, f: T -> int)
    requires i < |b|
    ensures Sum(b, f) == f(b[i]) + Sum(b[..i] + b[i + 1..], f)
  {
    if i == 0 {
      assert b[..0] + b[1..] == b[1..];
    } else {
      var t := b[1..];
      SumWithout(t, i - 1, f);
      var rest := t[..i - 1] + t[i..];
      var w := b[..i] + b[i + 1..];
      assert w == [b[0]] + rest;
      assert w[0] == b[0] && w[1..] == rest;
    }
  }

  /** A sum of non-negative terms is non-negative. */
  lemma {:induction false} SumNonNegative<T>(s: seq<T>, f: T -> int)
    requires forall i :: 0 <= i < |s| ==> f(s[i]) >= 0
    ensures Sum(s, f) >= 0
  {
    if |s| > 0 {
      SumNonNegative(s[1..], f);
    }
  }

  /** Summing over the elements that pass a filter is summing `g` over all
      of them, where `g` counts the others as zero. */
  lemma {:induction false} SumOfFilter<T>(s: seq<T>, p: T -> bool, f: T -> int, g: T -> int)
    requires forall x :: g(x) == if p(x) then f(x) else 0
    ensures Sum(Filter(s, p), f) == Sum(s, g)
  {
    if |s| > 0 {
      SumOfFilter(s[1..], p, f, g);
      SumAppend(if p(s[0]) then [s[0]] else [], Filter(s[1..], p), f);
    }
  }

  /** Sums agree when their summands agree on every element. */
  lemma {:induction false} SumAgrees<T>(s: seq<T>, f: T -> int, g: T -> int)
    requires forall i :: 0 <= i < |s| ==> f(s[i]) == g(s[i])
    ensures Sum(s, f) == Sum(s, g)
  {
    if |s| > 0 {
      SumAgrees(s[1..], f, g);
    }
  }

  /** Summing `f` over a mapped list is summing its composition `g`. */
  lemma {:induction false} SumOfMap<T, U>(s: seq<T>, m: T -> U, f: U -> int, g: T -> int)
    requires forall x :: g(x) == f(m(x))
    ensures Sum(Map(s, m), f) == Sum(s, g)
  {
    if |s| > 0 {
      assert Map(s, m)[1..] == Map(s[1..], m);
      SumOfMap(s[1..], m, f, g);
    }
  }

  /** A sum of non-negative terms is zero only when every term is. */
  lemma {:induction false} SumZero<T>(s: seq<T>, f: T -> int, i: int)
    requires forall k :: 0 <= k < |s| ==> f(s[k]) >= 0
    requires Sum(s, f) == 0 && 0 <= i < |s|
    ensures f(s[i]) == 0
  {
    SumNonNegative(s[1..], f);
    if i > 0 {
      SumZero(s[1..], f, i - 1);
    }
  }

  /** `s.filter(p).length`. */
  function Count<T>(s: seq<T>, p: T -> bool): nat {
    |Filter(s, p)|
  }

  /** Counting a non-empty list: its head, then the rest. */
  lemma CountCons<T>(s: seq<T>, p: T -> bool)
    requires |s| > 0
    ensures Count(s, p) == (if p(s[0]) then 1 else 0) + Count(s[1..], p)
  {
  }

  /** A one-element count is 1 or 0 as the element satisfies `p` or not. */
  lemma CountOfOne<T>(s: seq<T>, p: T -> bool)
    ensures |s| == 1 ==> Count(s, p) == if p(s[0]) then 1 else 0
  {
    if |s| == 1 {
      assert s[1..] == [];
    }
  }

  /** Counting is summing ones. */
  lemma {:induction false} CountIsSumOfOnes<T>(s: seq<T>, p: T -> bool)
    ensures Count(s, p) == Sum(s, x => if p(x) then 1 else 0)
  {
    if |s| > 0 {
      CountIsSumOfOnes(s[1..], p);
    }
  }

  /** A pointwise sum of summands sums to the sum of the sums. */
  lemma {:induction false} SumSplit<T>(s: seq<T>, f: T -> int, g: T -> int, h: T -> int)
    requires forall x :: f(x) == g(x) + h(x)
    ensures Sum(s, f) == Sum(s, g) + Sum(s, h)
  {
    if |s| > 0 {
      SumSplit(s[1..], f, g, h);
    }
  }

  /** Counting the elements passing one of two exclusive tests is adding the
      two counts. */
  lemma {:induction false} CountUnion<T>(s: seq<T>, p: T -> bool, q: T -> bool, pq: T -> bool)
    requires forall x :: pq(x) == (p(x) || q(x)) && !(p(x) && q(x))
    ensures Count(s, pq) == Count(s, p) + Count(s, q)
  {
    if |s| > 0 {
      CountUnion(s[1..], p, q, pq);
    }
  }

  /** A sum of non-negative terms is positive exactly when some term is. */
  lemma {:induction false} SumPositive<T>(s: seq<T>, f: T -> int)
    requires forall k :: 0 <= k < |s| ==> f(s[k]) >= 0
    ensures Sum(s, f) > 0 <==> exists i :: 0 <= i < |s| && f(s[i]) > 0
  {
    if |s| > 0 {
      SumPositive(s[1..], f);
      SumNonNegative(s[1..], f);
      if exists i :: 0 <= i < |s| && f(s[i]) > 0 {
        var i :| 0 <= i < |s| && f(s[i]) > 0;
        if i > 0 {
          assert s[1..][i - 1] == s[i];
        }
      }
      if exists i :: 0 <= i < |s[1..]| && f(s[1..][i]) > 0 {
        var i :| 0 <= i < |s[1..]| && f(s[1..][i]) > 0;
        assert s[i + 1] == s[1..][i];
      }
    }
  }

  /** A count is positive exactly when some element passes. */
  lemma {:induction false} CountPositive<T>(s: seq<T>, p: T -> bool)
    ensures Count(s, p) > 0 <==> exists x :: x in s && p(x)
  {
    if x :| x in s && p(x) {
      FilterMembership(s, p, x);
    }
    if Count(s, p) > 0 {
      var r := Filter(s, p);
      assert r[0] in s && p(r[0]);
    }
  }

  /** `s.map(f)`. */
  function Map<T, U>(s: seq<T>, f: T -> U): (r: seq<U>)
    ensures |r| == |s|
    ensures forall i :: 0 <= i < |s| ==> r[i] == f(s[i])
  {
    seq(|s|, i requires 0 <= i < |s| => f(s[i]))
  }

  /** A value occurs in a mapped list exactly when it is the image of an
      element of the original. */
  lemma MapMembership<T, U>(s: seq<T>, f: T -> U, y: U)
    ensures y in Map(s, f) <==> exists x :: x in s && f(x) == y
  {
    if x :| x in s && f(x) == y {
      var i :| 0 <= i < |s| && s[i] == x;
      assert Map(s, f)[i] == y;
    }
  }

  /** `a` may be listed ahead of `b` under `orderBy: [{k1: "desc"}, {k2:
      "desc"}, …]`: compare the first key, and fall through to the next
      keys only on a tie. */
  predicate KeysDesc<T>(a: T, b: T, keys: seq<T -> int>)
    decreases |keys|
  {
    |keys| == 0 || keys[0](a) > keys[0](b) || (keys[0](a) == keys[0](b) && KeysDesc(a, b, keys[1..]))
  }

  /** The descending multi-key ordering as a relation. */
  function Desc<T>(keys: seq<T -> int>): (T, T) -> bool {
    (a, b) => KeysDesc(a, b, keys)
  }

  /** Any two values are comparable under a descending multi-key order. */
  lemma {:induction false} KeysDescTotal<T>(a: T, b: T, keys: seq<T -> int>)
    ensures KeysDesc(a, b, keys) || KeysDesc(b, a, keys)
    decreases |keys|
  {
    if |keys| > 0 && keys[0](a) == keys[0](b) {
      KeysDescTotal(a, b, keys[1..]);
    }
  }

  /** A descending multi-key order chains. */
  lemma {:induction false} KeysDescTransitive<T>(a: T, b: T, c: T, keys: seq<T -> int>)
    requires KeysDesc(a, b, keys) && KeysDesc(b, c, keys)
    ensures KeysDesc(a, c, keys)
    decreases |keys|
  {
    if |keys| > 0 && keys[0](a) == keys[0](b) == keys[0](c) {
      KeysDescTransitive(a, b, c, keys[1..]);
    }
  }

  /** Every descending multi-key order is a total preorder, so sorting by it
      yields a sorted list. */
  lemma DescIsTotalPreorder<T(!new)>(keys: seq<T -> int>)
    ensures TotalPreorder(Desc(keys))
  {
    forall a, b
      ensures Desc(keys)(a, b) || Desc(keys)(b, a)
    {
      KeysDescTotal(a, b, keys);
    }
    forall a, b, c | Desc(keys)(a, b) && Desc(keys)(b, c)
      ensures Desc(keys)(a, c)
    {
      KeysDescTransitive(a, b, c, keys);
    }
  }

  /** Two keys: the first decides unless it ties, then the second. */
  lemma KeysDescTwo<T>(a: T, b: T, k1: T -> int, k2: T -> int)
    requires KeysDesc(a, b, [k1, k2])
    ensures k1(a) > k1(b) || (k1(a) == k1(b) && k2(a) >= k2(b))
  {
    assert [k1, k2][1..] == [k2];
    assert [k2][1..] == [];
  }

  /** In a list sorted by two descending keys, the pair never increases
      lexicographically. */
  lemma SortedDescTwoKeys<T>(s: seq<T>, k1: T -> int, k2: T -> int)
    requires Sorted(s, Desc([k1, k2]))
    ensures forall i, j :: 0 <= i < j < |s| ==> k1(s[i]) > k1(s[j]) || (k1(s[i]) == k1(s[j]) && k2(s[i]) >= k2(s[j]))
  {
    forall i, j | 0 <= i < j < |s|
      ensures k1(s[i]) > k1(s[j]) || (k1(s[i]) == k1(s[j]) && k2(s[i]) >= k2(s[j]))
    {
      assert Desc([k1, k2])(s[i], s[j]);
      KeysDescTwo(s[i], s[j], k1, k2);
    }
  }

  /** In a list sorted by a descending multi-key order, the first key never
      increases. */
  lemma SortedDescLeadingKey<T>(s: seq<T>, keys: seq<T -> int>)
    requires |keys| > 0
    requires Sorted(s, Desc(keys))
    ensures forall i, j :: 0 <= i < j < |s| ==> keys[0](s[i]) >= keys[0](s[j])
  {
    forall i, j | 0 <= i < j < |s|
      ensures keys[0](s[i]) >= keys[0](s[j])
    {
      assert Desc(keys)(s[i], s[j]);
    }
  }
}
