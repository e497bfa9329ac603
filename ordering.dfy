/** Orderings and sorting as Python provides them: `<` on strings, `sorted(set(xs))`,
    and the stable `list.sort` / `sorted` by a key (also with `reverse=True`, which Python
    keeps stable). */
module Ordering {

  /** Python's `a < b` on strings: lexicographic by code point. */
  predicate StrLess(a: string, b: string)
    decreases |a|
  {
    if a == [] then b != []
    else b != [] && (a[0] < b[0] || (a[0] == b[0] && StrLess(a[1..], b[1..])))
  }

  lemma {:induction false} StrLessIrreflexive(a: string)
    ensures !StrLess(a, a)
  {
    if a != [] {
      StrLessIrreflexive(a[1..]);
    }
  }

  lemma {:induction false} StrLessTransitive(a: string, b: string, c: string)
    requires StrLess(a, b) && StrLess(b, c)
    ensures StrLess(a, c)
    decreases |a|
  {
    if a != [] && a[0] == b[0] && b[0] == c[0] {
      StrLessTransitive(a[1..], b[1..], c[1..]);
    }
  }

  lemma {:induction false} StrLessTotal(a: string, b: string)
    ensures a == b || StrLess(a, b) || StrLess(b, a)
    decreases |a|
  {
    if a != [] && b != [] && a[0] == b[0] {
      StrLessTotal(a[1..], b[1..]);
      if a[1..] == b[1..] {
        assert a == [a[0]] + a[1..] && b == [b[0]] + b[1..];
      }
    }
  }

  /** `less` is a strict total order on keys. */
  ghost predicate StrictTotalOrder<K(!new)>(less: (K, K) -> bool) {
    && (forall a :: !less(a, a))
    && (forall a, b, c :: less(a, b) && less(b, c) ==> less(a, c))
    && (forall a, b :: a == b || less(a, b) || less(b, a))
  }

  /** The key order of `sorted(..., key=<a string>)`. */
  const StringLess: (string, string) -> bool := (a: string, b: string) => StrLess(a, b)

  lemma {:induction false} StrLessIsStrictTotalOrder()
    ensures StrictTotalOrder(StringLess)
  {
    forall a: string { StrLessIrreflexive(a); }
    forall a: string, b: string, c: string | StrLess(a, b) && StrLess(b, c) ensures StrLess(a, c) {
      StrLessTransitive(a, b, c);
    }
    forall a: string, b: string { StrLessTotal(a, b); }
  }

  /** The key order of `sorted(..., reverse=True)` on integer keys. */
  const Greater: (int, int) -> bool := (a: int, b: int) => a > b

  lemma {:induction false} GreaterIsStrictTotalOrder()
    ensures StrictTotalOrder(Greater)
  {
  }

  /** Every entry is ordered by its key: no later key is `less` than an earlier one. */
  ghost predicate SortedBy<K, T>(xs: seq<(K, T)>, less: (K, K) -> bool) {
    forall i, j :: 0 <= i < j < |xs| ==> !less(xs[j].0, xs[i].0)
  }

  /** The entries of `xs` whose key is `k`, in their order in `xs`. */
  function KeyRun<K(==), T>(xs: seq<(K, T)>, k: K): seq<(K, T)> {
    if xs == [] then [] else (if xs[0].0 == k then [xs[0]] else []) + KeyRun(xs[1..], k)
  }

  lemma {:induction false} KeyRunAppend<K, T>(xs: seq<(K, T)>, ys: seq<(K, T)>, k: K)
    ensures KeyRun(xs + ys, k) == KeyRun(xs, k) + KeyRun(ys, k)
  {
    if xs == [] {
      assert xs + ys == ys;
    } else {
      var head := if xs[0].0 == k then [xs[0]] else [];
      assert (xs + ys)[0] == xs[0];
      assert (xs + ys)[1..] == xs[1..] + ys;
      calc {
        KeyRun(xs + ys, k);
        head + KeyRun(xs[1..] + ys, k);
        { KeyRunAppend(xs[1..], ys, k); }
        head + (KeyRun(xs[1..], k) + KeyRun(ys, k));
        (head + KeyRun(xs[1..], k)) + KeyRun(ys, k);
        KeyRun(xs, k) + KeyRun(ys, k);
      }
    }
  }

  /** Insert `x` after every entry whose key is not greater than its own. */
  function Insert<K, T>(s: seq<(K, T)>, x: (K, T), less: (K, K) -> bool): seq<(K, T)> {
    if s == [] then [x]
    else if !less(x.0, s[0].0) then [s[0]] + Insert(s[1..], x, less)
    else [x] + s
  }

  /** Stable insertion sort by key: Python's `sorted(xs, key=...)`. */
  function StableSort<K, T>(xs: seq<(K, T)>, less: (K, K) -> bool): seq<(K, T)>
    decreases |xs|
  {
    if xs == [] then [] else Insert(StableSort(xs[..|xs| - 1], less), xs[|xs| - 1], less)
  }

  lemma {:induction false} InsertPermutes<K, T>(s: seq<(K, T)>, x: (K, T), less: (K, K) -> bool)
    ensures multiset(Insert(s, x, less)) == multiset(s) + multiset{x}
  {
    if s != [] && !less(x.0, s[0].0) {
      InsertPermutes(s[1..], x, less);
      assert s == [s[0]] + s[1..];
    }
  }

  lemma {:induction false} InsertSorted<K(!new), T>(s: seq<(K, T)>, x: (K, T), less: (K, K) -> bool)
    requires StrictTotalOrder(less) && SortedBy(s, less)
    ensures SortedBy(Insert(s, x, less), less)
  {
    if s == [] {
      SortedCons(x, [], less);
    } else if !less(x.0, s[0].0) {
      var rest := Insert(s[1..], x, less);
      InsertSorted(s[1..], x, less);
      InsertPermutes(s[1..], x, less);
      forall j | 0 <= j < |rest| ensures !less(rest[j].0, s[0].0) {
        assert rest[j] in multiset(rest);
        assert rest[j] in multiset(s[1..]) || rest[j] == x;
        if rest[j] != x {
          var m :| 0 <= m < |s[1..]| && s[1..][m] == rest[j];
          assert s[m + 1] == rest[j];
        }
      }
      SortedCons(s[0], rest, less);
    } else {
      forall j | 0 <= j < |s| ensures !less(s[j].0, x.0) {
        assert !less(s[j].0, s[0].0) || j == 0;
      }
      SortedCons(x, s, less);
    }
  }

  /** An entry whose key no later key undercuts can go in front of a sorted sequence. */
  lemma {:induction false} SortedCons<K, T>(h: (K, T), rest: seq<(K, T)>, less: (K, K) -> bool)
    requires SortedBy(rest, less) && forall j :: 0 <= j < |rest| ==> !less(rest[j].0, h.0)
    ensures SortedBy([h] + rest, less)
  {
    var xs := [h] + rest;
    forall i, j | 0 <= i < j < |xs| ensures !less(xs[j].0, xs[i].0) {
      assert xs[j] == rest[j - 1];
      if i > 0 {
        assert xs[i] == rest[i - 1];
      }
    }
  }

  lemma {:induction false} InsertKeyRun<K(!new), T>(s: seq<(K, T)>, x: (K, T), less: (K, K) -> bool, k: K)
    requires StrictTotalOrder(less) && SortedBy(s, less)
    ensures KeyRun(Insert(s, x, less), k) == KeyRun(s, k) + (if x.0 == k then [x] else [])
  {
    var tail := if x.0 == k then [x] else [];
    if s == [] {
      assert KeyRun([x], k) == tail + KeyRun([x][1..], k);
    } else if !less(x.0, s[0].0) {
      var head := if s[0].0 == k then [s[0]] else [];
      var rest := Insert(s[1..], x, less);
      assert ([s[0]] + rest)[0] == s[0] && ([s[0]] + rest)[1..] == rest;
      calc {
        KeyRun(Insert(s, x, less), k);
        KeyRun([s[0]] + rest, k);
        head + KeyRun(rest, k);
        { InsertKeyRun(s[1..], x, less, k); }
        head + (KeyRun(s[1..], k) + tail);
        (head + KeyRun(s[1..], k)) + tail;
        KeyRun(s, k) + tail;
      }
    } else {
      assert ([x] + s)[0] == x && ([x] + s)[1..] == s;
      assert KeyRun([x] + s, k) == tail + KeyRun(s, k);
      if x.0 == k {
        NoKeyRun(s, x.0, less);
      }
    }
  }

  /** In a sorted run that starts above key `k`, no entry has key `k`. */
  lemma {:induction false} NoKeyRun<K(!new), T>(s: seq<(K, T)>, k: K, less: (K, K) -> bool)
    requires StrictTotalOrder(less) && SortedBy(s, less)
    requires s != [] && less(k, s[0].0)
    ensures KeyRun(s, k) == []
  {
    if |s| > 1 {
      assert !less(s[1].0, s[0].0);
      NoKeyRun(s[1..], k, less);
    }
  }

  /** The stable sort is ordered, a permutation, and keeps the original order of equal keys. */
  lemma {:induction false} StableSortCorrect<K(!new), T>(xs: seq<(K, T)>, less: (K, K) -> bool)
    requires StrictTotalOrder(less)
    ensures SortedBy(StableSort(xs, less), less)
    ensures multiset(StableSort(xs, less)) == multiset(xs)
    ensures forall k :: KeyRun(StableSort(xs, less), k) == KeyRun(xs, k)
    decreases |xs|
  {
    if xs != [] {
      var init, last := xs[..|xs| - 1], xs[|xs| - 1];
      StableSortCorrect(init, less);
      var s := StableSort(init, less);
      InsertSorted(s, last, less);
      InsertPermutes(s, last, less);
      assert xs == init + [last];
      forall k ensures KeyRun(StableSort(xs, less), k) == KeyRun(xs, k) {
        InsertKeyRun(s, last, less, k);
        KeyRunAppend(init, [last], k);
      }
    }
  }

  lemma {:induction false} StableSortLength<K, T>(xs: seq<(K, T)>, less: (K, K) -> bool)
    ensures |StableSort(xs, less)| == |xs|
    decreases |xs|
  {
    if xs != [] {
      StableSortLength(xs[..|xs| - 1], less);
      InsertPermutes(StableSort(xs[..|xs| - 1], less), xs[|xs| - 1], less);
      assert |multiset(StableSort(xs, less))| == |StableSort(xs, less)|;
    }
  }

  /** Strictly increasing under Python's string order (sorted and without duplicates). */
  ghost predicate StrictlyIncreasing(s: seq<string>) {
    forall i, j :: 0 <= i < j < |s| ==> StrLess(s[i], s[j])
  }

  function InsertUnique(s: seq<string>, x: string): seq<string> {
    if s == [] then [x]
    else if x == s[0] then s
    else if StrLess(x, s[0]) then [x] + s
    else [s[0]] + InsertUnique(s[1..], x)
  }

  /** Python's `sorted(set(xs))`. */
  function SortedSet(xs: seq<string>): seq<string>
    decreases |xs|
  {
    if xs == [] then [] else InsertUnique(SortedSet(xs[..|xs| - 1]), xs[|xs| - 1])
  }

  lemma {:induction false} InsertUniqueElements(s: seq<string>, x: string)
    ensures forall e :: e in InsertUnique(s, x) <==> e in s || e == x
  {
    if s != [] && x != s[0] && !StrLess(x, s[0]) {
      InsertUniqueElements(s[1..], x);
      assert s == [s[0]] + s[1..];
    }
  }

  lemma {:induction false} InsertUniqueIncreasing(s: seq<string>, x: string)
    requires StrictlyIncreasing(s)
    ensures StrictlyIncreasing(InsertUnique(s, x))
  {
    if s != [] && x != s[0] {
      if StrLess(x, s[0]) {
        forall j | 0 <= j < |s| ensures StrLess(x, s[j]) {
          if j > 0 { StrLessTransitive(x, s[0], s[j]); }
        }
      } else {
        StrLessTotal(x, s[0]);
        var rest := InsertUnique(s[1..], x);
        InsertUniqueIncreasing(s[1..], x);
        InsertUniqueElements(s[1..], x);
        forall j | 0 <= j < |rest| ensures StrLess(s[0], rest[j]) {
          assert rest[j] in rest;
          if rest[j] != x {
            var m :| 0 <= m < |s[1..]| && s[1..][m] == rest[j];
            assert s[m + 1] == rest[j];
          }
        }
      }
    }
  }

  /** `sorted(set(xs))` is strictly increasing and holds exactly the elements of `xs`. */
  lemma {:induction false} SortedSetCorrect(xs: seq<string>)
    ensures StrictlyIncreasing(SortedSet(xs))
    ensures forall e :: e in SortedSet(xs) <==> e in xs
    decreases |xs|
  {
    if xs != [] {
      var init := xs[..|xs| - 1];
      SortedSetCorrect(init);
      InsertUniqueIncreasing(SortedSet(init), xs[|xs| - 1]);
      InsertUniqueElements(SortedSet(init), xs[|xs| - 1]);
      assert xs == init + [xs[|xs| - 1]];
    }
  }

  /** `xs[:n]` */
  function Take<T>(xs: seq<T>, n: nat): (r: seq<T>)
    ensures |r| == if |xs| < n then |xs| else n
    ensures r == xs[..|r|]
  {
    if |xs| <= n then xs else xs[..n]
  }

  /** The first `m` entries of a descending arrangement `sorted` of `es`. */
  lemma {:induction false} TopEntries<T>(es: seq<(int, T)>, sorted: seq<(int, T)>, m: nat)
    requires |sorted| == |es| && multiset(sorted) == multiset(es)
    requires SortedBy(sorted, Greater)
    requires forall c :: KeyRun(sorted, c) == KeyRun(es, c)
    ensures forall t :: t in Take(sorted, m) ==> t in es
    ensures forall i, j :: 0 <= i < j < |Take(sorted, m)| ==> Take(sorted, m)[i].0 >= Take(sorted, m)[j].0
    ensures forall e :: e in es ==> e in Take(sorted, m) || forall t :: t in Take(sorted, m) ==> t.0 >= e.0
    ensures forall c :: KeyRun(Take(sorted, m), c) <= KeyRun(es, c)
  {
    var top := Take(sorted, m);
    forall t | t in top ensures t in es {
      assert t in multiset(sorted);
    }
    forall i, j | 0 <= i < j < |top| ensures top[i].0 >= top[j].0 {
      assert !Greater(sorted[j].0, sorted[i].0);
    }
    forall e | e in es ensures e in top || forall t :: t in top ==> t.0 >= e.0 {
      LaterEntriesNoLarger(es, sorted, m, e);
    }
    forall c ensures KeyRun(top, c) <= KeyRun(es, c) {
      assert sorted == top + sorted[|top|..];
      KeyRunAppend(top, sorted[|top|..], c);
    }
  }

  lemma {:induction false} LaterEntriesNoLarger<T>(es: seq<(int, T)>, sorted: seq<(int, T)>, m: nat, e: (int, T))
    requires multiset(sorted) == multiset(es) && SortedBy(sorted, Greater)
    requires e in es
    ensures e in Take(sorted, m) || forall t :: t in Take(sorted, m) ==> t.0 >= e.0
  {
    var top := Take(sorted, m);
    assert e in multiset(sorted);
    var k :| 0 <= k < |sorted| && sorted[k] == e;
    if k >= |top| {
      forall t | t in top ensures t.0 >= e.0 {
        var i :| 0 <= i < |top| && top[i] == t;
        assert !Greater(sorted[k].0, sorted[i].0);
      }
    }
  }
}
