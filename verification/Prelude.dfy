/** Shared value types, and the two query primitives that the database offers: WHERE and ORDER BY. */
module Prelude {

  datatype Option<+T> = None | Some(value: T)

  datatype Result<+T, +E> = Ok(value: T) | Err(error: E)

  /** A UUID. Postgres and Python order UUIDs the same way, which a natural number captures. */
  type Uuid = nat

  /** Microseconds since an epoch, in UTC. */
  type Time = int

  function Lookup<K, V>(m: map<K, V>, k: K): Option<V> {
    if k in m then Some(m[k]) else None
  }

  ghost predicate Distinct<T>(s: seq<T>) {
    forall i, j :: 0 <= i < j < |s| ==> s[i] != s[j]
  }

  lemma {:induction false} SubsetCardinality<T>(a: set<T>, b: set<T>)
    requires a <= b
    ensures |a| <= |b|
  {
    if a != {} {
      var x :| x in a;
      SubsetCardinality(a - {x}, b - {x});
    }
  }

  /** The next element of an iteration whose order is not known. */
  method AnyMember<T(==)>(s: set<T>) returns (x: T)
    requires s != {}
    ensures x in s
  {
    x :| x in s;
  }

  // ---------------------------------------------------------------- WHERE

  function Filter<T>(s: seq<T>, p: T -> bool): seq<T> {
    if s == [] then []
    else
      var rest := Filter(s[..|s| - 1], p);
      if p(s[|s| - 1]) then rest + [s[|s| - 1]] else rest
  }

  lemma {:induction false} FilterMembers<T(!new)>(s: seq<T>, p: T -> bool)
    ensures |Filter(s, p)| <= |s|
    ensures forall x :: x in Filter(s, p) <==> x in s && p(x)
  {
    if s == [] {
    } else {
      FilterMembers(s[..|s| - 1], p);
      assert s == s[..|s| - 1] + [s[|s| - 1]];
    }
  }

  lemma {:induction false} FilterAppend<T>(a: seq<T>, b: seq<T>, p: T -> bool)
    ensures Filter(a + b, p) == Filter(a, p) + Filter(b, p)
  {
    if b == [] {
      assert a + b == a;
    } else {
      var last := b[|b| - 1];
      assert (a + b)[..|a + b| - 1] == a + b[..|b| - 1];
      FilterAppend(a, b[..|b| - 1], p);
    }
  }

  lemma {:induction false} FilterDistinct<T(!new)>(s: seq<T>, p: T -> bool)
    requires Distinct(s)
    ensures Distinct(Filter(s, p))
  {
    if s == [] {
    } else {
      var init, last := s[..|s| - 1], s[|s| - 1];
      FilterDistinct(init, p);
      FilterMembers(init, p);
      assert last !in init;
    }
  }

  /** A filter keeps every row that satisfies it as often as it occurs. */
  lemma {:induction false} FilterCounts<T>(s: seq<T>, p: T -> bool, x: T)
    ensures multiset(Filter(s, p))[x] == if p(x) then multiset(s)[x] else 0
  {
    if s == [] {
    } else {
      FilterCounts(s[..|s| - 1], p, x);
      assert s == s[..|s| - 1] + [s[|s| - 1]];
    }
  }

  /** Rows on which two filters agree are selected alike. */
  lemma {:induction false} FilterPointwise<T>(a: seq<T>, b: seq<T>, p: T -> bool)
    requires |a| == |b|
    requires forall i :: 0 <= i < |a| ==> p(a[i]) == p(b[i]) && (p(a[i]) ==> a[i] == b[i])
    ensures Filter(a, p) == Filter(b, p)
  {
    if a == [] {
    } else {
      FilterPointwise(a[..|a| - 1], b[..|b| - 1], p);
    }
  }

  /** The sequences are related position by position. */
  ghost predicate Related<T>(a: seq<T>, b: seq<T>, r: (T, T) -> bool) {
    |a| == |b| && forall i :: 0 <= i < |a| ==> r(a[i], b[i])
  }

  /** A filter that does not tell related rows apart selects related rows. */
  lemma {:induction false} FilterRelated<T(!new)>(a: seq<T>, b: seq<T>, r: (T, T) -> bool, p: T -> bool)
    requires Related(a, b, r) && forall x, y :: r(x, y) ==> p(x) == p(y)
    ensures Related(Filter(a, p), Filter(b, p), r)
  {
    if a == [] {
    } else {
      var n := |a| - 1;
      FilterRelated(a[..n], b[..n], r, p);
      assert r(a[n], b[n]) && p(a[n]) == p(b[n]);
      RelatedGrows(Filter(a[..n], p), Filter(b[..n], p), a[n], b[n], r);
    }
  }

  lemma RelatedGrows<T>(a: seq<T>, b: seq<T>, x: T, y: T, r: (T, T) -> bool)
    requires Related(a, b, r) && r(x, y)
    ensures Related(a + [x], b + [y], r)
  {
  }

  lemma {:induction false} FilterNone<T>(a: seq<T>, p: T -> bool)
    requires forall i :: 0 <= i < |a| ==> !p(a[i])
    ensures Filter(a, p) == []
  {
    if a == [] {
    } else {
      FilterNone(a[..|a| - 1], p);
    }
  }

  /** One row starts to satisfy the filter; the others keep their answer. */
  lemma {:induction false} FilterFlip<T>(a: seq<T>, b: seq<T>, p: T -> bool, k: nat)
    requires |a| == |b| && k < |a|
    requires forall i :: 0 <= i < |a| && i != k ==> p(a[i]) == p(b[i])
    requires !p(a[k]) && p(b[k])
    ensures |Filter(b, p)| == |Filter(a, p)| + 1
  {
    var n := |a| - 1;
    if k == n {
      FilterCount(a[..n], b[..n], p);
    } else {
      FilterFlip(a[..n], b[..n], p, k);
    }
  }

  lemma {:induction false} FilterOnly<T>(s: seq<T>, p: T -> bool, i: nat)
    requires i < |s| && p(s[i])
    requires forall j :: 0 <= j < |s| && j != i ==> !p(s[j])
    ensures |Filter(s, p)| == 1
  {
    var n := |s| - 1;
    if i == n {
      FilterNone(s[..n], p);
    } else {
      FilterOnly(s[..n], p, i);
    }
  }

  lemma {:induction false} FilterCount<T>(a: seq<T>, b: seq<T>, p: T -> bool)
    requires |a| == |b|
    requires forall i :: 0 <= i < |a| ==> p(a[i]) == p(b[i])
    ensures |Filter(b, p)| == |Filter(a, p)|
  {
    if a == [] {
    } else {
      FilterCount(a[..|a| - 1], b[..|b| - 1], p);
    }
  }

  // ------------------------------------------------------------- ORDER BY

  /** A total preorder: what an ORDER BY clause or a Python sort key induces. */
  ghost predicate TotalPreorder<T(!new)>(le: (T, T) -> bool) {
    && (forall x, y :: le(x, y) || le(y, x))
    && (forall x, y, z :: le(x, y) && le(y, z) ==> le(x, z))
  }

  ghost predicate Sorted<T>(s: seq<T>, le: (T, T) -> bool) {
    forall i, j :: 0 <= i < j < |s| ==> le(s[i], s[j])
  }

  function Insert<T>(x: T, s: seq<T>, le: (T, T) -> bool): (r: seq<T>)
    ensures |r| == |s| + 1
  {
    if s == [] then [x]
    else if le(x, s[0]) then [x] + s
    else [s[0]] + Insert(x, s[1..], le)
  }

  /** A stable sort. */
  function Sort<T>(s: seq<T>, le: (T, T) -> bool): (r: seq<T>)
    ensures |r| == |s|
  {
    if s == [] then [] else Insert(s[0], Sort(s[1..], le), le)
  }

  lemma {:induction false} InsertPermutes<T>(x: T, s: seq<T>, le: (T, T) -> bool)
    ensures multiset(Insert(x, s, le)) == multiset(s) + multiset{x}
  {
    if s != [] && !le(x, s[0]) {
      InsertPermutes(x, s[1..], le);
      assert s == [s[0]] + s[1..];
    }
  }

  /** An order that does not tell related rows apart. */
  ghost predicate OrdersAlike<T(!new)>(r: (T, T) -> bool, le: (T, T) -> bool) {
    forall x, x', y, y' :: r(x, x') && r(y, y') ==> le(x, y) == le(x', y')
  }

  lemma {:induction false} InsertRelated<T(!new)>(
    x: T, y: T, a: seq<T>, b: seq<T>, r: (T, T) -> bool, le: (T, T) -> bool)
    requires r(x, y) && Related(a, b, r) && OrdersAlike(r, le)
    ensures Related(Insert(x, a, le), Insert(y, b, le), r)
  {
    if a == [] {
    } else {
      assert r(a[0], b[0]) && le(x, a[0]) == le(y, b[0]);
      InsertRelated(x, y, a[1..], b[1..], r, le);
    }
  }

  lemma {:induction false} SortRelated<T(!new)>(a: seq<T>, b: seq<T>, r: (T, T) -> bool, le: (T, T) -> bool)
    requires Related(a, b, r) && OrdersAlike(r, le)
    ensures Related(Sort(a, le), Sort(b, le), r)
  {
    if a == [] {
    } else {
      SortRelated(a[1..], b[1..], r, le);
      assert r(a[0], b[0]);
      InsertRelated(a[0], b[0], Sort(a[1..], le), Sort(b[1..], le), r, le);
    }
  }

  lemma {:induction false} SortPermutes<T>(s: seq<T>, le: (T, T) -> bool)
    ensures multiset(Sort(s, le)) == multiset(s)
  {
    if s == [] {
    } else {
      SortPermutes(s[1..], le);
      InsertPermutes(s[0], Sort(s[1..], le), le);
      assert s == [s[0]] + s[1..];
    }
  }

  lemma MultisetMembers<T>(a: seq<T>, b: seq<T>)
    requires multiset(a) == multiset(b)
    ensures |a| == |b|
    ensures forall x :: x in a <==> x in b
  {
    assert |multiset(a)| == |a| && |multiset(b)| == |b|;
    forall x ensures x in a <==> x in b {
      assert x in a <==> x in multiset(a);
      assert x in b <==> x in multiset(b);
    }
  }

  lemma {:induction false} InsertSorted<T(!new)>(x: T, s: seq<T>, le: (T, T) -> bool)
    requires TotalPreorder(le) && Sorted(s, le)
    ensures Sorted(Insert(x, s, le), le)
  {
    if s != [] && !le(x, s[0]) {
      InsertSorted(x, s[1..], le);
      InsertPermutes(x, s[1..], le);
      var tail := Insert(x, s[1..], le);
      assert multiset(tail) == multiset([x] + s[1..]);
      MultisetMembers(tail, [x] + s[1..]);
      forall k | 0 <= k < |tail| ensures le(s[0], tail[k]) {
        assert tail[k] in tail;
        assert tail[k] in [x] + s[1..];
      }
    }
  }

  lemma {:induction false} SortSorts<T(!new)>(s: seq<T>, le: (T, T) -> bool)
    requires TotalPreorder(le)
    ensures Sorted(Sort(s, le), le)
  {
    if s == [] {
    } else {
      SortSorts(s[1..], le);
      InsertSorted(s[0], Sort(s[1..], le), le);
    }
  }

  /** No two different rows compare equal. */
  ghost predicate NoTies<T>(s: seq<T>, le: (T, T) -> bool) {
    forall i, j :: 0 <= i < |s| && 0 <= j < |s| && le(s[i], s[j]) && le(s[j], s[i]) ==> s[i] == s[j]
  }

  lemma SortedHeads<T>(a: seq<T>, b: seq<T>, le: (T, T) -> bool)
    requires a != [] && Sorted(a, le) && Sorted(b, le) && NoTies(a, le)
    requires multiset(a) == multiset(b)
    ensures |a| == |b| && a[0] == b[0]
  {
    MultisetMembers(a, b);
    assert a[0] in b && b[0] in a;
    var i :| 0 <= i < |b| && b[i] == a[0];
    var j :| 0 <= j < |a| && a[j] == b[0];
    if i != 0 && j != 0 {
      assert le(b[0], b[i]);
      assert le(a[0], a[j]);
    }
  }

  lemma Tails<T>(a: seq<T>, le: (T, T) -> bool)
    requires a != [] && Sorted(a, le) && NoTies(a, le)
    ensures Sorted(a[1..], le) && NoTies(a[1..], le)
    ensures multiset(a[1..]) == multiset(a) - multiset{a[0]}
  {
    assert a == [a[0]] + a[1..];
    assert multiset(a) == multiset{a[0]} + multiset(a[1..]);
  }

  /** Two arrangements of the same rows that are both in order are the same arrangement,
      when no two different rows tie. */
  lemma {:induction false} SortedUnique<T>(a: seq<T>, b: seq<T>, le: (T, T) -> bool)
    requires Sorted(a, le) && Sorted(b, le) && NoTies(a, le)
    requires multiset(a) == multiset(b)
    ensures a == b
  {
    MultisetMembers(a, b);
    if a != [] {
      SortedHeads(a, b, le);
      NoTiesTransfer(a, b, le);
      Tails(a, le);
      Tails(b, le);
      SortedUnique(a[1..], b[1..], le);
      assert a == [a[0]] + a[1..] && b == [b[0]] + b[1..];
    }
  }

  lemma NoTiesTransfer<T>(a: seq<T>, b: seq<T>, le: (T, T) -> bool)
    requires NoTies(a, le)
    requires multiset(a) == multiset(b)
    ensures NoTies(b, le)
  {
    MultisetMembers(a, b);
    forall i, j | 0 <= i < |b| && 0 <= j < |b| && le(b[i], b[j]) && le(b[j], b[i])
      ensures b[i] == b[j]
    {
      assert b[i] in a && b[j] in a;
      var m :| 0 <= m < |a| && a[m] == b[i];
      var n :| 0 <= n < |a| && a[n] == b[j];
    }
  }

  lemma SortOfSorted<T(!new)>(s: seq<T>, le: (T, T) -> bool)
    requires TotalPreorder(le) && Sorted(s, le) && NoTies(s, le)
    ensures Sort(s, le) == s
  {
    SortSorts(s, le);
    SortPermutes(s, le);
    SortedUnique(s, Sort(s, le), le);
  }

  /** Sorting forgets the order the rows came in. */
  lemma SortOfPermutation<T(!new)>(a: seq<T>, b: seq<T>, le: (T, T) -> bool)
    requires TotalPreorder(le) && NoTies(a, le)
    requires multiset(a) == multiset(b)
    ensures Sort(a, le) == Sort(b, le)
  {
    SortSorts(a, le);
    SortSorts(b, le);
    SortPermutes(a, le);
    SortPermutes(b, le);
    NoTiesTransfer(a, Sort(a, le), le);
    SortedUnique(Sort(a, le), Sort(b, le), le);
  }

  lemma MultisetOfDistinct<T>(a: seq<T>, b: seq<T>)
    requires Distinct(a) && Distinct(b)
    requires forall x :: x in a <==> x in b
    ensures multiset(a) == multiset(b)
  {
    DistinctCounts(a);
    DistinctCounts(b);
    forall x ensures multiset(a)[x] == multiset(b)[x] {
      assert x in multiset(a) <==> x in a;
      assert x in multiset(b) <==> x in b;
    }
  }

  lemma {:induction false} DistinctCounts<T>(a: seq<T>)
    requires Distinct(a)
    ensures forall x :: x in a ==> multiset(a)[x] == 1
  {
    if a == [] {
    } else {
      var init, last := a[..|a| - 1], a[|a| - 1];
      assert a == init + [last];
      assert last !in init;
      DistinctCounts(init);
      assert multiset(a) == multiset(init) + multiset{last};
      assert last !in multiset(init);
      forall x | x in a ensures multiset(a)[x] == 1 {
        if x != last { assert x in init; }
      }
    }
  }

  // ------------------------------------------------------------------ SUM

  function SumOver<T>(s: seq<T>, f: T -> int): int {
    if s == [] then 0 else SumOver(s[..|s| - 1], f) + f(s[|s| - 1])
  }

  lemma {:induction false} SumAppend<T>(a: seq<T>, b: seq<T>, f: T -> int)
    ensures SumOver(a + b, f) == SumOver(a, f) + SumOver(b, f)
  {
    if b == [] {
      assert a + b == a;
    } else {
      assert (a + b)[..|a + b| - 1] == a + b[..|b| - 1];
      SumAppend(a, b[..|b| - 1], f);
    }
  }

  lemma SumOne<T>(s: seq<T>, x: T, f: T -> int)
    ensures SumOver(s + [x], f) == SumOver(s, f) + f(x)
  {
    assert (s + [x])[..|s|] == s;
  }

  /** Taking one term out, wherever it stands. */
  lemma SumWithout<T>(b: seq<T>, i: nat, f: T -> int)
    requires i < |b|
    ensures SumOver(b, f) == SumOver(b[..i] + b[i + 1..], f) + f(b[i])
  {
    SplitAround(b, i);
    SumOfParts(b[..i], b[i], b[i + 1..], f);
  }

  lemma SplitAround<T>(b: seq<T>, i: nat)
    requires i < |b|
    ensures b == b[..i] + [b[i]] + b[i + 1..]
  {
  }

  lemma SumOfParts<T>(left: seq<T>, x: T, right: seq<T>, f: T -> int)
    ensures SumOver(left + [x] + right, f) == SumOver(left + right, f) + f(x)
  {
    SumAppend(left + [x], right, f);
    SumOne(left, x, f);
    SumAppend(left, right, f);
  }

  lemma MultisetWithout<T>(b: seq<T>, i: nat)
    requires i < |b|
    ensures multiset(b[..i] + b[i + 1..]) == multiset(b) - multiset{b[i]}
  {
    SplitAround(b, i);
  }

  /** A sum does not depend on the order of its terms. */
  lemma {:induction false} SumOfPermutation<T>(a: seq<T>, b: seq<T>, f: T -> int)
    requires multiset(a) == multiset(b)
    ensures SumOver(a, f) == SumOver(b, f)
  {
    MultisetMembers(a, b);
    if a == [] {
    } else {
      var n := |a| - 1;
      assert a[n] in b;
      var i: nat :| i < |b| && b[i] == a[n];
      MultisetWithout(a, n);
      assert a[..n] + a[n + 1..] == a[..n];
      MultisetWithout(b, i);
      SumOfPermutation(a[..n], b[..i] + b[i + 1..], f);
      SumWithout(b, i, f);
    }
  }

  lemma {:induction false} SumMonotone<T>(s: seq<T>, f: T -> int, g: T -> int)
    requires forall i :: 0 <= i < |s| ==> f(s[i]) <= g(s[i])
    ensures SumOver(s, f) <= SumOver(s, g)
  {
    if s == [] {
    } else {
      SumMonotone(s[..|s| - 1], f, g);
    }
  }

  // ----------------------------------------------------------------- TEXT

  /** Python's str.isspace for one character. */
  predicate IsSpace(c: char) {
    var code := c as int;
    || 0x09 <= code <= 0x0d || 0x1c <= code <= 0x20 || code == 0x85 || code == 0xa0 || code == 0x1680
    || 0x2000 <= code <= 0x200a || code == 0x2028 || code == 0x2029 || code == 0x202f || code == 0x205f
    || code == 0x3000
  }

  function StripLeft(s: string): string {
    if s != "" && IsSpace(s[0]) then StripLeft(s[1..]) else s
  }

  function StripRight(s: string): string {
    if s != "" && IsSpace(s[|s| - 1]) then StripRight(s[..|s| - 1]) else s
  }

  function Strip(s: string): string {
    StripRight(StripLeft(s))
  }

  lemma {:induction false} StripLeftStrips(s: string)
    ensures var t := StripLeft(s);
            && (t != "" ==> !IsSpace(t[0]))
            && |t| <= |s| && t == s[|s| - |t|..]
            && forall i :: 0 <= i < |s| - |t| ==> IsSpace(s[i])
  {
    if s != "" && IsSpace(s[0]) {
      StripLeftStrips(s[1..]);
    }
  }

  lemma {:induction false} StripRightStrips(s: string)
    ensures var t := StripRight(s);
            && (t != "" ==> !IsSpace(t[|t| - 1]))
            && |t| <= |s| && t == s[..|t|]
            && forall i :: |t| <= i < |s| ==> IsSpace(s[i])
  {
    if s != "" && IsSpace(s[|s| - 1]) {
      StripRightStrips(s[..|s| - 1]);
    }
  }
}
