/** Sums, repetitions, stable sorting and slices of sequences, and lexicographic order on strings. */
module Sequences {
  // ----- Sums -----

  function Sum<T>(s: seq<T>, f: T -> int): int {
    if s == [] then 0 else f(s[0]) + Sum(s[1..], f)
  }

  lemma {:induction false} SumConcat<T>(a: seq<T>, b: seq<T>, f: T -> int)
    ensures Sum(a + b, f) == Sum(a, f) + Sum(b, f)
  {
    if a == [] {
      assert a + b == b;
    } else {
      SumConcat(a[1..], b, f);
      assert (a + b)[1..] == a[1..] + b;
    }
  }

  lemma RemoveAt<T>(s: seq<T>, i: nat)
    requires i < |s|
    ensures multiset(s[..i] + s[i + 1..]) == multiset(s) - multiset{s[i]}
  {
    assert s == s[..i] + [s[i]] + s[i + 1..];
  }

  lemma RemoveFirst<T>(s: seq<T>)
    requires s != []
    ensures multiset(s[1..]) == multiset(s) - multiset{s[0]}
  {
    RemoveAt(s, 0);
    assert s[..0] + s[1..] == s[1..];
  }

  lemma {:induction false} SumRemoveAt<T>(s: seq<T>, i: nat, f: T -> int)
    requires i < |s|
    ensures Sum(s, f) == f(s[i]) + Sum(s[..i] + s[i + 1..], f)
  {
    var tail := s[i..];
    assert s == s[..i] + tail && tail[1..] == s[i + 1..];
    SumConcat(s[..i], tail, f);
    SumConcat(s[..i], s[i + 1..], f);
  }

  /** A sum does not depend on the order of its terms. */
  lemma {:induction false} SumPermutation<T>(a: seq<T>, b: seq<T>, f: T -> int)
    requires multiset(a) == multiset(b)
    ensures Sum(a, f) == Sum(b, f)
  {
    if a == [] {
      assert |multiset(b)| == 0;
    } else {
      assert a[0] in multiset(b);
      var i :| 0 <= i < |b| && b[i] == a[0];
      RemoveFirst(a);
      RemoveAt(b, i);
      SumPermutation(a[1..], b[..i] + b[i + 1..], f);
      SumRemoveAt(b, i, f);
    }
  }

  // ----- Repetitions and sizes -----

  ghost predicate Distinct<T>(s: seq<T>) {
    forall i, j | 0 <= i < j < |s| :: s[i] != s[j]
  }

  lemma OccursTwice<T>(s: seq<T>, i: nat, j: nat)
    requires i < j < |s| && s[i] == s[j]
    ensures multiset(s)[s[i]] >= 2
  {
    assert s == s[..i] + [s[i]] + s[i + 1..j] + [s[j]] + s[j + 1..];
  }

  lemma {:induction false} DistinctSize<K>(keys: seq<K>)
    requires Distinct(keys)
    ensures |set k | k in keys| == |keys|
  {
    if keys != [] {
      var n := |keys| - 1;
      DistinctSize(keys[..n]);
      assert (set k | k in keys) == (set k | k in keys[..n]) + {keys[n]};
      assert keys[n] !in keys[..n];
    }
  }

  lemma SubsetSize<T>(a: set<T>, b: set<T>)
    requires a <= b
    ensures |a| <= |b|
  {
    assert b == a + (b - a);
  }

  // ----- Sorting -----

  /** A total preorder, given as "a may stand before b". */
  ghost predicate TotalPreorder<T(!new)>(before: (T, T) -> bool) {
    (forall a, b :: before(a, b) || before(b, a)) &&
    (forall a, b, c :: before(a, b) && before(b, c) ==> before(a, c))
  }

  ghost predicate SortedBy<T>(s: seq<T>, before: (T, T) -> bool) {
    forall i, j | 0 <= i < j < |s| :: before(s[i], s[j])
  }

  function Insert<T>(x: T, s: seq<T>, before: (T, T) -> bool): (r: seq<T>)
    ensures multiset(r) == multiset(s) + multiset{x}
  {
    if s == [] then [x]
    else if before(x, s[0]) then [x] + s
    else
      assert s == [s[0]] + s[1..];
      [s[0]] + Insert(x, s[1..], before)
  }

  /** A stable sort. */
  function Sort<T>(s: seq<T>, before: (T, T) -> bool): (r: seq<T>)
    ensures multiset(r) == multiset(s)
    ensures |r| == |s|
  {
    if s == [] then []
    else
      assert s == [s[0]] + s[1..];
      var r := Insert(s[0], Sort(s[1..], before), before);
      assert |multiset(r)| == |multiset(s)|;
      r
  }

  lemma InMultiset<T>(a: seq<T>, b: seq<T>)
    requires multiset(a) == multiset(b)
    ensures |a| == |b|
    ensures forall x :: x in a <==> x in b
  {
    assert |multiset(a)| == |multiset(b)|;
    forall x
      ensures x in a <==> x in b
    {
      assert x in a <==> x in multiset(a);
    }
  }

  lemma {:induction false} InsertSorts<T(!new)>(x: T, s: seq<T>, before: (T, T) -> bool)
    requires TotalPreorder(before) && SortedBy(s, before)
    ensures SortedBy(Insert(x, s, before), before)
  {
    if s != [] && !before(x, s[0]) {
      InsertSorts(x, s[1..], before);
      var rest := Insert(x, s[1..], before);
      InMultiset(rest, s[1..] + [x]);
      forall y | y in rest
        ensures before(s[0], y)
      {
        assert y in s[1..] + [x];
      }
    }
  }

  lemma {:induction false} SortSorts<T(!new)>(s: seq<T>, before: (T, T) -> bool)
    requires TotalPreorder(before)
    ensures SortedBy(Sort(s, before), before)
  {
    if s != [] {
      SortSorts(s[1..], before);
      InsertSorts(s[0], Sort(s[1..], before), before);
    }
  }

  lemma InsertFirst<T>(x: T, s: seq<T>, before: (T, T) -> bool)
    ensures s == [] || before(x, s[0]) ==> Insert(x, s, before) == [x] + s
  {}

  lemma InsertLater<T>(x: T, s: seq<T>, before: (T, T) -> bool)
    requires s != [] && !before(x, s[0])
    ensures var r, later := Insert(x, s, before), Insert(x, s[1..], before);
            |r| == |later| + 1 && r[0] == s[0] && forall m | 0 < m < |r| :: r[m] == later[m - 1]
  {}

  /** Where the new element goes: behind those that have to stand before it, and no others. */
  lemma {:induction false} InsertAt<T>(x: T, s: seq<T>, before: (T, T) -> bool) returns (k: nat)
    ensures var r := Insert(x, s, before);
            |r| == |s| + 1 && k <= |s| && r[k] == x &&
            (forall m | 0 <= m < k :: r[m] == s[m] && !before(x, s[m])) &&
            forall m | k < m < |r| :: r[m] == s[m - 1]
  {
    hide Insert;
    k := 0;
    InsertFirst(x, s, before);
    if s != [] && !before(x, s[0]) {
      var n := InsertAt(x, s[1..], before);
      k := n + 1;
      InsertLater(x, s, before);
    }
  }

  /** Somewhere in `s` an `x` stands before a `y`. */
  ghost predicate Precedes<T>(s: seq<T>, x: T, y: T) {
    exists i, j | 0 <= i < j < |s| :: s[i] == x && s[j] == y
  }

  lemma PrecedesFirst<T>(s: seq<T>, y: T)
    requires s != [] && y in s[1..]
    ensures Precedes(s, s[0], y)
  {
    var j :| 0 <= j < |s| - 1 && s[1..][j] == y;
    assert s[j + 1] == y;
  }

  lemma PrecedesLater<T>(s: seq<T>, x: T, y: T)
    requires s != [] && Precedes(s[1..], x, y)
    ensures Precedes(s, x, y)
  {
    var i, j :| 0 <= i < j < |s| - 1 && s[1..][i] == x && s[1..][j] == y;
    assert s[i + 1] == x && s[j + 1] == y;
  }

  /** Sorting keeps the order of ties. */
  lemma {:induction false} SortIsStable<T(!new)>(s: seq<T>, before: (T, T) -> bool, i: nat, j: nat)
    requires i < j < |s| && before(Sort(s, before)[j], Sort(s, before)[i])
    ensures Precedes(s, Sort(s, before)[i], Sort(s, before)[j])
  {
    hide Precedes, Insert;
    var rest, sorted := Sort(s[1..], before), Sort(s, before);
    var k := InsertAt(s[0], rest, before);
    InMultiset(rest, s[1..]);
    assert j != k;
    if i == k {
      assert rest[j - 1] in rest;
      PrecedesFirst(s, sorted[j]);
    } else {
      var p, q := if i < k then i else i - 1, if j < k then j else j - 1;
      SortIsStable(s[1..], before, p, q);
      PrecedesLater(s, sorted[i], sorted[j]);
    }
  }

  /** Where ties are impossible, there is only one sorted arrangement. */
  lemma {:induction false} SortedUnique<T>(a: seq<T>, b: seq<T>, before: (T, T) -> bool)
    requires multiset(a) == multiset(b) && SortedBy(a, before) && SortedBy(b, before)
    requires forall x, y | x in a && y in a && before(x, y) && before(y, x) :: x == y
    ensures a == b
  {
    InMultiset(a, b);
    if a != [] {
      FirstIsUnique(a, b, before);
      RemoveFirst(a);
      RemoveFirst(b);
      SortedUnique(a[1..], b[1..], before);
    }
  }

  lemma FirstIsUnique<T>(a: seq<T>, b: seq<T>, before: (T, T) -> bool)
    requires a != [] && b != [] && a[0] in b && b[0] in a
    requires SortedBy(a, before) && SortedBy(b, before)
    requires forall x, y | x in a && y in a && before(x, y) && before(y, x) :: x == y
    ensures a[0] == b[0]
  {}

  // ----- Strings -----

  /** Code-point order, as Python compares strings. */
  predicate StringLeq(a: string, b: string) {
    a == [] || (b != [] && (a[0] < b[0] || (a[0] == b[0] && StringLeq(a[1..], b[1..]))))
  }

  lemma {:induction false} StringLeqTotal(a: string, b: string)
    ensures StringLeq(a, b) || StringLeq(b, a)
  {
    if a != [] && b != [] {
      StringLeqTotal(a[1..], b[1..]);
    }
  }

  lemma {:induction false} StringLeqTransitive(a: string, b: string, c: string)
    requires StringLeq(a, b) && StringLeq(b, c)
    ensures StringLeq(a, c)
  {
    if a != [] && a[0] == b[0] == c[0] {
      StringLeqTransitive(a[1..], b[1..], c[1..]);
    }
  }

  lemma {:induction false} StringLeqAntisymmetric(a: string, b: string)
    requires StringLeq(a, b) && StringLeq(b, a)
    ensures a == b
  {
    if a != [] {
      StringLeqAntisymmetric(a[1..], b[1..]);
      assert a == [a[0]] + a[1..] && b == [b[0]] + b[1..];
    }
  }

  /** The strings agree up to some place; there the first one ends, or has the smaller character. */
  ghost predicate Alphabetical(a: string, b: string) {
    exists n: nat :: DecidesAt(a, b, n)
  }

  /** The strings agree before place `n`, and it decides. */
  predicate DecidesAt(a: string, b: string, n: nat) {
    n <= |a| && n <= |b| && a[..n] == b[..n] && (n == |a| || (n < |b| && a[n] < b[n]))
  }

  lemma DecidesLater(a: string, b: string, n: nat)
    requires a != [] && b != [] && a[0] == b[0]
    ensures DecidesAt(a, b, n + 1) <==> DecidesAt(a[1..], b[1..], n)
    ensures !DecidesAt(a, b, 0)
  {
    if n < |a| && n < |b| {
      assert a[..n + 1] == [a[0]] + a[1..][..n] && b[..n + 1] == [b[0]] + b[1..][..n];
      assert a[1..][..n] == a[..n + 1][1..] && b[1..][..n] == b[..n + 1][1..];
    }
  }

  lemma AlphabeticalLater(a: string, b: string)
    requires a != [] && b != [] && a[0] == b[0]
    ensures Alphabetical(a, b) <==> Alphabetical(a[1..], b[1..])
  {
    hide DecidesAt;
    if n: nat :| DecidesAt(a[1..], b[1..], n) {
      DecidesLater(a, b, n);
      assert DecidesAt(a, b, n + 1);
    }
    if n: nat :| DecidesAt(a, b, n) {
      DecidesLater(a, b, if n > 0 then n - 1 else 0);
      assert DecidesAt(a[1..], b[1..], n - 1);
    }
  }

  lemma AlphabeticalFirst(a: string, b: string)
    requires a != [] && b != [] && a[0] != b[0]
    ensures Alphabetical(a, b) <==> a[0] < b[0]
  {
    assert DecidesAt(a, b, 0) <==> a[0] < b[0];
    forall n: nat | n > 0
      ensures !DecidesAt(a, b, n)
    {
      assert n <= |a| && n <= |b| ==> a[..n][0] != b[..n][0];
    }
  }

  lemma {:induction false} StringLeqIff(a: string, b: string)
    ensures StringLeq(a, b) <==> Alphabetical(a, b)
  {
    if a == [] {
      assert DecidesAt(a, b, 0);
    } else if b != [] {
      if a[0] == b[0] {
        AlphabeticalLater(a, b);
        StringLeqIff(a[1..], b[1..]);
      } else {
        AlphabeticalFirst(a, b);
      }
    }
  }

  // ----- Slices -----

  /** Python's s[:n], which counts from the end when n is negative. */
  function Prefix<T>(s: seq<T>, n: int): seq<T> {
    if n >= |s| then s
    else if n >= 0 then s[..n]
    else if |s| + n >= 0 then s[..|s| + n]
    else []
  }

  /** The last `n` elements, or all of them when there are fewer. */
  function Suffix<T>(s: seq<T>, n: int): seq<T> {
    if n <= 0 then [] else if |s| <= n then s else s[|s| - n..]
  }
}
