/**
 * Python's `sorted` (a stable sort) and string ordering, as used by the
 * catalog, match-id and aggregation code: the result is ordered, a
 * permutation of the input, and keeps equal keys in input order.
 */
module Sorting {

  /** Python `a <= b` on `str`: lexicographic by code point. */
  predicate StrLe(a: string, b: string)
  {
    if |a| == 0 then true
    else if |b| == 0 then false
    else if a[0] != b[0] then a[0] < b[0]
    else StrLe(a[1..], b[1..])
  }

  lemma {:induction false} StrLeTotal(a: string, b: string)
    ensures StrLe(a, b) || StrLe(b, a)
  {
    if |a| > 0 && |b| > 0 && a[0] == b[0] { StrLeTotal(a[1..], b[1..]); }
  }

  lemma {:induction false} StrLeTrans(a: string, b: string, c: string)
    requires StrLe(a, b) && StrLe(b, c)
    ensures StrLe(a, c)
  {
    if |a| > 0 && |b| > 0 && |c| > 0 && a[0] == b[0] && b[0] == c[0] {
      StrLeTrans(a[1..], b[1..], c[1..]);
    }
  }

  lemma {:induction false} StrLeAntisym(a: string, b: string)
    requires StrLe(a, b) && StrLe(b, a)
    ensures a == b
  {
    if |a| > 0 && |b| > 0 {
      StrLeAntisym(a[1..], b[1..]);
      assert a == [a[0]] + a[1..] && b == [b[0]] + b[1..];
    }
  }

  ghost predicate TotalPreorder<T(!new)>(le: (T, T) -> bool)
  {
    (forall a, b :: le(a, b) || le(b, a)) && (forall a, b, c :: le(a, b) && le(b, c) ==> le(a, c))
  }

  lemma StrLeTotalPreorder()
    ensures TotalPreorder((a: string, b: string) => StrLe(a, b))
  {
    forall a: string, b: string ensures StrLe(a, b) || StrLe(b, a) { StrLeTotal(a, b); }
    forall a: string, b: string, c: string | StrLe(a, b) && StrLe(b, c) ensures StrLe(a, c) { StrLeTrans(a, b, c); }
  }

  predicate SortedBy<T>(s: seq<T>, le: (T, T) -> bool)
  {
    forall i, j :: 0 <= i < j < |s| ==> le(s[i], s[j])
  }

  /** Places `x` after every leading element that is not greater than it. */
  function Insert<T>(x: T, s: seq<T>, le: (T, T) -> bool): (r: seq<T>)
    ensures |r| == |s| + 1
  {
    if |s| == 0 then [x] else if le(s[0], x) then [s[0]] + Insert(x, s[1..], le) else [x] + s
  }

  /** `sorted(s, key=...)`: stable insertion sort. */
  function SortBy<T>(s: seq<T>, le: (T, T) -> bool): (r: seq<T>)
    ensures |r| == |s|
  {
    if |s| == 0 then [] else Insert(s[|s| - 1], SortBy(s[..|s| - 1], le), le)
  }

  lemma {:induction false} InsertPerm<T>(x: T, s: seq<T>, le: (T, T) -> bool)
    ensures multiset(Insert(x, s, le)) == multiset(s) + multiset{x}
  {
    if |s| > 0 && le(s[0], x) {
      InsertPerm(x, s[1..], le);
      assert s == [s[0]] + s[1..];
    }
  }

  lemma {:induction false} SortByPerm<T>(s: seq<T>, le: (T, T) -> bool)
    ensures multiset(SortBy(s, le)) == multiset(s)
  {
    if |s| > 0 {
      SortByPerm(s[..|s| - 1], le);
      InsertPerm(s[|s| - 1], SortBy(s[..|s| - 1], le), le);
      assert s == s[..|s| - 1] + [s[|s| - 1]];
    }
  }

  lemma {:induction false} InsertSorted<T(!new)>(x: T, s: seq<T>, le: (T, T) -> bool)
    requires TotalPreorder(le) && SortedBy(s, le)
    ensures SortedBy(Insert(x, s, le), le)
    ensures multiset(Insert(x, s, le)) == multiset(s) + multiset{x}
  {
    InsertPerm(x, s, le);
    if |s| > 0 && le(s[0], x) {
      InsertSorted(x, s[1..], le);
      var r := Insert(x, s, le);
      var t := Insert(x, s[1..], le);
      InsertPerm(x, s[1..], le);
      forall j | 0 <= j < |t| ensures le(s[0], t[j]) {
        assert t[j] in multiset(s[1..]) + multiset{x};
        if t[j] != x {
          assert t[j] in s[1..];
          var k :| 0 <= k < |s[1..]| && s[1..][k] == t[j];
          assert s[k + 1] == t[j];
        }
      }
      assert r == [s[0]] + t;
    }
  }

  lemma {:induction false} SortBySorted<T(!new)>(s: seq<T>, le: (T, T) -> bool)
    requires TotalPreorder(le)
    ensures SortedBy(SortBy(s, le), le)
  {
    if |s| > 0 {
      SortBySorted(s[..|s| - 1], le);
      InsertSorted(s[|s| - 1], SortBy(s[..|s| - 1], le), le);
    }
  }

  /** The elements of `s` equivalent to `x` under `le`, in order. */
  function Class<T>(s: seq<T>, x: T, le: (T, T) -> bool): (r: seq<T>)
    ensures |r| <= |s|
  {
    if |s| == 0 then []
    else (if le(s[0], x) && le(x, s[0]) then [s[0]] else []) + Class(s[1..], x, le)
  }

  lemma {:induction false} ClassAppend<T>(s: seq<T>, t: seq<T>, x: T, le: (T, T) -> bool)
    ensures Class(s + t, x, le) == Class(s, x, le) + Class(t, x, le)
  {
    if |s| > 0 {
      ClassAppend(s[1..], t, x, le);
      assert (s + t)[1..] == s[1..] + t;
    } else {
      assert s + t == t;
    }
  }

  /** Every element of a sorted `s` that is not `<= x` is outside `x`'s class. */
  lemma {:induction false} ClassOfGreater<T(!new)>(s: seq<T>, x: T, y: T, le: (T, T) -> bool)
    requires TotalPreorder(le) && SortedBy(s, le)
    requires |s| > 0 && !le(s[0], y)
    requires le(x, y) && le(y, x)
    ensures Class(s, x, le) == []
  {
    assert !le(s[0], x);
    if |s| > 1 {
      assert le(s[0], s[1]);
      assert !le(s[1], y);
      ClassOfGreater(s[1..], x, y, le);
    }
  }

  lemma {:induction false} InsertClass<T(!new)>(e: T, s: seq<T>, x: T, le: (T, T) -> bool)
    requires TotalPreorder(le) && SortedBy(s, le)
    ensures Class(Insert(e, s, le), x, le)
         == Class(s, x, le) + (if le(e, x) && le(x, e) then [e] else [])
  {
    var tail := if le(e, x) && le(x, e) then [e] else [];
    if |s| == 0 {
    } else if le(s[0], e) {
      InsertClass(e, s[1..], x, le);
      assert Insert(e, s, le) == [s[0]] + Insert(e, s[1..], le);
    } else {
      if le(e, x) && le(x, e) {
        ClassOfGreater(s, x, e, le);
      } else {
        ClassAppend([e], s, x, le);
      }
      assert Insert(e, s, le) == [e] + s;
      ClassAppend([e], s, x, le);
    }
  }

  /** Stability: for every key class, the sorted output lists its members in input order. */
  lemma {:induction false} SortByStable<T(!new)>(s: seq<T>, x: T, le: (T, T) -> bool)
    requires TotalPreorder(le)
    ensures Class(SortBy(s, le), x, le) == Class(s, x, le)
  {
    if |s| > 0 {
      var init := s[..|s| - 1];
      SortByStable(init, x, le);
      SortBySorted(init, le);
      InsertClass(s[|s| - 1], SortBy(init, le), x, le);
      assert s == init + [s[|s| - 1]];
      ClassAppend(init, [s[|s| - 1]], x, le);
    }
  }

  /** The first occurrence of every element, in order (`dict.fromkeys`). */
  function Dedup<T(==,!new)>(s: seq<T>): (r: seq<T>)
    ensures forall i, j :: 0 <= i < j < |r| ==> r[i] != r[j]
    ensures forall x :: x in r <==> x in s
  {
    if |s| == 0 then [] else
    var init := Dedup(s[..|s| - 1]);
    assert s == s[..|s| - 1] + [s[|s| - 1]];
    if s[|s| - 1] in init then init else init + [s[|s| - 1]]
  }

  predicate StrictlyIncreasing(s: seq<string>)
  {
    forall i, j :: 0 <= i < j < |s| ==> StrLe(s[i], s[j]) && s[i] != s[j]
  }

  /** `sorted(set(s))` for strings. */
  function SortedDistinct(s: seq<string>): seq<string>
  {
    SortBy(Dedup(s), (a: string, b: string) => StrLe(a, b))
  }

  lemma SortedDistinctSpec(s: seq<string>)
    ensures StrictlyIncreasing(SortedDistinct(s))
    ensures forall x :: x in SortedDistinct(s) <==> x in s
  {
    var le := (a: string, b: string) => StrLe(a, b);
    var d := Dedup(s);
    var r := SortedDistinct(s);
    StrLeTotalPreorder();
    SortBySorted(d, le);
    SortByPerm(d, le);
    DistinctPerm(d, r);
    assert forall x :: x in r <==> x in multiset(r);
    assert forall x :: x in d <==> x in multiset(d);
  }

  predicate Distinct<T(==)>(s: seq<T>) { forall i, j :: 0 <= i < j < |s| ==> s[i] != s[j] }

  /** A permutation of a duplicate-free sequence is duplicate-free. */
  lemma DistinctPerm<T>(d: seq<T>, r: seq<T>)
    requires Distinct(d) && multiset(r) == multiset(d)
    ensures Distinct(r)
  {
    forall i, j | 0 <= i < j < |r| ensures r[i] != r[j] {
      if r[i] == r[j] {
        TwoOccurrences(r, i, j);
        DistinctCount(d, r[i]);
      }
    }
  }

  lemma TwoOccurrences<T>(r: seq<T>, i: int, j: int)
    requires 0 <= i < j < |r| && r[i] == r[j]
    ensures multiset(r)[r[i]] >= 2
  {
    assert r == r[..i] + [r[i]] + r[i + 1..j] + [r[j]] + r[j + 1..];
  }

  lemma {:induction false} DistinctCount<T>(s: seq<T>, x: T)
    requires forall i, j :: 0 <= i < j < |s| ==> s[i] != s[j]
    ensures multiset(s)[x] <= 1
  {
    if |s| > 0 {
      DistinctCount(s[1..], x);
      assert s == [s[0]] + s[1..];
      if s[0] == x { assert x !in s[1..]; }
    }
  }

  /** The sum of `f` over `s`. */
  function SumOf<T>(s: seq<T>, f: T -> nat): nat
  {
    if |s| == 0 then 0 else SumOf(s[..|s| - 1], f) + f(s[|s| - 1])
  }

  lemma {:induction false} SumOfAppend<T>(a: seq<T>, b: seq<T>, f: T -> nat)
    ensures SumOf(a + b, f) == SumOf(a, f) + SumOf(b, f)
  {
    if |b| == 0 {
      assert a + b == a;
    } else {
      assert (a + b)[..|a + b| - 1] == a + b[..|b| - 1];
      SumOfAppend(a, b[..|b| - 1], f);
    }
  }

  /** A sum of naturals is zero exactly when every term is. */
  lemma {:induction false} SumOfZero<T>(s: seq<T>, f: T -> nat)
    ensures SumOf(s, f) == 0 <==> forall i :: 0 <= i < |s| ==> f(s[i]) == 0
  {
    if |s| > 0 {
      var init := s[..|s| - 1];
      SumOfZero(init, f);
      assert forall i :: 0 <= i < |init| ==> init[i] == s[i];
    }
  }

  /** Reordering a sequence does not change its sum. */
  lemma {:induction false} SumOfPerm<T>(s: seq<T>, t: seq<T>, f: T -> nat)
    requires multiset(s) == multiset(t)
    ensures SumOf(s, f) == SumOf(t, f)
    decreases |s|
  {
    if |s| == 0 {
      assert |t| == |multiset(t)|;
    } else {
      var x := s[|s| - 1];
      assert s == s[..|s| - 1] + [x];
      assert x in multiset(t);
      var j :| 0 <= j < |t| && t[j] == x;
      var rest := t[..j] + t[j + 1..];
      assert t == t[..j] + ([x] + t[j + 1..]);
      assert multiset(t) == multiset(t[..j]) + multiset{x} + multiset(t[j + 1..]);
      assert multiset(s) == multiset(s[..|s| - 1]) + multiset{x};
      assert multiset(rest) == multiset(t[..j]) + multiset(t[j + 1..]);
      assert multiset(s[..|s| - 1]) == multiset(s) - multiset{x};
      assert multiset(rest) == multiset(t) - multiset{x};
      SumOfPerm(s[..|s| - 1], rest, f);
      SumOfAppend(t[..j], [x] + t[j + 1..], f);
      SumOfAppend([x], t[j + 1..], f);
      SumOfAppend(t[..j], t[j + 1..], f);
      assert SumOf([x], f) == f(x) by { assert [x][..0] == []; }
    }
  }

  /** How many elements of `xs` have key `k`. */
  function CountKey<T, K(==)>(xs: seq<T>, key: T -> K, k: K): (n: nat)
    ensures n <= |xs|
  {
    if |xs| == 0 then 0 else CountKey(xs[..|xs| - 1], key, k) + (if key(xs[|xs| - 1]) == k then 1 else 0)
  }

  /** The counts of the keys `ks`, added up. */
  function SumCounts<T, K(==)>(xs: seq<T>, key: T -> K, ks: seq<K>): nat
  {
    if |ks| == 0 then 0 else SumCounts(xs, key, ks[..|ks| - 1]) + CountKey(xs, key, ks[|ks| - 1])
  }

  lemma {:induction false} SumCountsSnoc<T, K>(xs: seq<T>, x: T, key: T -> K, ks: seq<K>)
    requires Distinct(ks)
    ensures SumCounts(xs + [x], key, ks) == SumCounts(xs, key, ks) + (if key(x) in ks then 1 else 0)
  {
    if |ks| > 0 {
      var init := ks[..|ks| - 1];
      var k := ks[|ks| - 1];
      assert Distinct(init);
      SumCountsSnoc(xs, x, key, init);
      assert (xs + [x])[..|xs + [x]| - 1] == xs;
      assert key(x) in ks <==> key(x) in init || key(x) == k;
      assert k !in init;
    }
  }

  /** Distinct keys count every element at most once. */
  lemma {:induction false} SumCountsBound<T, K>(xs: seq<T>, key: T -> K, ks: seq<K>)
    requires Distinct(ks)
    ensures SumCounts(xs, key, ks) <= |xs|
  {
    if |xs| > 0 {
      var init := xs[..|xs| - 1];
      assert xs == init + [xs[|xs| - 1]];
      SumCountsBound(init, key, ks);
      SumCountsSnoc(init, xs[|xs| - 1], key, ks);
    } else {
      SumCountsEmpty(xs, key, ks);
    }
  }

  lemma {:induction false} SumCountsEmpty<T, K>(xs: seq<T>, key: T -> K, ks: seq<K>)
    requires |xs| == 0
    ensures SumCounts(xs, key, ks) == 0
  {
    if |ks| > 0 {
      SumCountsEmpty(xs, key, ks[..|ks| - 1]);
    }
  }

  // ------------------------------------------------------- slicing facts

  /** Kept as lemmas over an arbitrary element type: sequence equality on large records is costly in context. */
  lemma TakeNext<T>(s: seq<T>, i: int)
    requires 0 <= i < |s|
    ensures s[..i + 1] == s[..i] + [s[i]]
  {
  }

  lemma HeadTail<T>(s: seq<T>)
    requires |s| > 0
    ensures s == [s[0]] + s[1..]
  {
  }

  lemma TakeAll<T>(s: seq<T>)
    ensures s[..|s|] == s
  {
  }

  lemma SnocPrefix<T>(s: seq<T>, x: T)
    ensures (s + [x])[..|s|] == s
  {
  }

  /** Growing both halves of a concatenation grows its multiset by both amounts. */
  lemma AppendMultisets<T>(a: seq<T>, b: seq<T>, a': seq<T>, b': seq<T>, ea: multiset<T>, eb: multiset<T>)
    requires multiset(a') == multiset(a) + ea && multiset(b') == multiset(b) + eb
    ensures multiset(a' + b') == multiset(a + b) + ea + eb
  {
  }

  /** The members of a non-empty sequence: those of its prefix and its last element. */
  lemma SnocMembers<T>(s: seq<T>)
    requires |s| > 0
    ensures forall k :: k in s <==> k in s[..|s| - 1] || k == s[|s| - 1]
  {
    assert s == s[..|s| - 1] + [s[|s| - 1]];
  }

  lemma SnocMap<T, U>(s: seq<T>, i: nat, f: T -> U)
    requires i < |s|
    ensures Map(s[..i + 1], f) == Map(s[..i], f) + [f(s[i])]
  {
    assert s[..i + 1][..i] == s[..i];
  }

  /** `f` applied to every element, in order. */
  function Map<T, U>(s: seq<T>, f: T -> U): seq<U>
  {
    if |s| == 0 then [] else Map(s[..|s| - 1], f) + [f(s[|s| - 1])]
  }

  lemma {:induction false} MapSpec<T, U>(s: seq<T>, f: T -> U)
    ensures |Map(s, f)| == |s| && forall i :: 0 <= i < |s| ==> Map(s, f)[i] == f(s[i])
  {
    if |s| > 0 {
      var init := s[..|s| - 1];
      MapSpec(init, f);
      forall i | 0 <= i < |init| ensures Map(s, f)[i] == f(s[i]) {
        assert init[i] == s[i];
      }
    }
  }

  /** The index of the first element that satisfies `p`, or `|s|` when none does. */
  function FirstWhere<T>(s: seq<T>, p: T -> bool): (k: nat)
    ensures k <= |s| && (k < |s| ==> p(s[k]))
    ensures forall j :: 0 <= j < k ==> !p(s[j])
  {
    if |s| == 0 then 0
    else if p(s[0]) then 0
    else 1 + FirstWhere(s[1..], p)
  }
}
