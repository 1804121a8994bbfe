/** Sequence helpers standing in for Python list operations and for the SQL
    clauses the queries use: WHERE (Filter), LIMIT (Take), ORDER BY (SortBy)
    and Python's `max(iterable, key=...)` (FirstMaxIndex). */
module Seqs {
  import opened Common

  function Last<T>(s: seq<T>): T
    requires |s| > 0
  {
    s[|s| - 1]
  }

  function DropLast<T>(s: seq<T>): seq<T>
    requires |s| > 0
  {
    s[..|s| - 1]
  }

  /** The elements of `s` that satisfy `p`, in their order (a list
      comprehension with an `if`, or a SQL WHERE over a table). */
  function Filter<T>(s: seq<T>, p: T -> bool): (r: seq<T>)
    ensures |r| <= |s|
  {
    if s == [] then []
    else
      var init := Filter(DropLast(s), p);
      if p(Last(s)) then init + [Last(s)] else init
  }

  /** Filter keeps exactly the elements that satisfy `p`. */
  lemma {:induction false} FilterMembers<T>(s: seq<T>, p: T -> bool)
    ensures forall i :: 0 <= i < |Filter(s, p)| ==> p(Filter(s, p)[i]) && Filter(s, p)[i] in s
    ensures forall i :: 0 <= i < |s| && p(s[i]) ==> s[i] in Filter(s, p)
  {
    if s != [] {
      FilterMembers(DropLast(s), p);
      assert forall i :: 0 <= i < |s| - 1 ==> s[i] == DropLast(s)[i];
    }
  }

  lemma FilterContains<T>(s: seq<T>, p: T -> bool)
    ensures forall x :: x in Filter(s, p) <==> x in s && p(x)
  {
    FilterMembers(s, p);
    forall x | x in s && p(x) ensures x in Filter(s, p) {
      var i :| 0 <= i < |s| && s[i] == x;
    }
  }

  lemma FilterEmpty<T>(s: seq<T>, p: T -> bool)
    ensures Filter(s, p) == [] <==> forall i :: 0 <= i < |s| ==> !p(s[i])
  {
    FilterMembers(s, p);
  }

  lemma FilterAppend<T>(s: seq<T>, x: T, p: T -> bool)
    ensures Filter(s + [x], p) == if p(x) then Filter(s, p) + [x] else Filter(s, p)
  {
    assert DropLast(s + [x]) == s;
  }

  /** Some element satisfies `p` exactly when one before the last does or
      the last does. */
  lemma ExistsLast<T>(s: seq<T>, p: T -> bool)
    requires s != []
    ensures (exists i :: 0 <= i < |s| && p(s[i]))
        <==> (exists i :: 0 <= i < |DropLast(s)| && p(DropLast(s)[i])) || p(Last(s))
  {
    var init := DropLast(s);
    if exists i :: 0 <= i < |s| && p(s[i]) {
      var i :| 0 <= i < |s| && p(s[i]);
      if i < |init| {
        assert init[i] == s[i];
      }
    }
    if exists i :: 0 <= i < |init| && p(init[i]) {
      var i :| 0 <= i < |init| && p(init[i]);
      assert s[i] == init[i];
    }
  }

  /** The filter of a non-empty sequence ends with its last element when
      that element passes, and is the filter of the rest otherwise. */
  lemma FilterLast<T>(s: seq<T>, p: T -> bool)
    requires s != []
    ensures p(Last(s)) ==>
              Filter(s, p) != [] && DropLast(Filter(s, p)) == Filter(DropLast(s), p) && Last(Filter(s, p)) == Last(s)
    ensures !p(Last(s)) ==> Filter(s, p) == Filter(DropLast(s), p)
  {
    var kept := Filter(DropLast(s), p);
    if p(Last(s)) {
      assert DropLast(kept + [Last(s)]) == kept;
    }
  }

  /** Filtering by `p` then by `q` is filtering once by a condition `both`
      that holds exactly when both do. */
  lemma {:induction false} FilterFilter<T>(s: seq<T>, p: T -> bool, q: T -> bool, both: T -> bool)
    requires forall i :: 0 <= i < |s| ==> both(s[i]) == (p(s[i]) && q(s[i]))
    ensures Filter(Filter(s, p), q) == Filter(s, both)
  {
    if s != [] {
      assert forall i :: 0 <= i < |s| - 1 ==> DropLast(s)[i] == s[i];
      FilterFilter(DropLast(s), p, q, both);
      var x := Last(s);
      if p(x) {
        FilterAppend(Filter(DropLast(s), p), x, q);
      }
    }
  }

  /** A weaker condition keeps at least as many elements. */
  lemma {:induction false} FilterWeaker<T>(s: seq<T>, p: T -> bool, q: T -> bool)
    requires forall i :: 0 <= i < |s| && p(s[i]) ==> q(s[i])
    ensures |Filter(s, p)| <= |Filter(s, q)|
  {
    if s != [] {
      assert forall i :: 0 <= i < |s| - 1 ==> s[i] == DropLast(s)[i];
      FilterWeaker(DropLast(s), p, q);
    }
  }

  /** Predicates that agree on every element of `s` keep the same
      elements. */
  lemma {:induction false} FilterSame<T>(s: seq<T>, p: T -> bool, q: T -> bool)
    requires forall i :: 0 <= i < |s| ==> p(s[i]) == q(s[i])
    ensures Filter(s, p) == Filter(s, q)
  {
    if s != [] {
      assert forall i :: 0 <= i < |s| - 1 ==> DropLast(s)[i] == s[i];
      FilterSame(DropLast(s), p, q);
    }
  }

  /** A condition that holds everywhere keeps everything. */
  lemma {:induction false} FilterAll<T>(s: seq<T>, p: T -> bool)
    requires forall i :: 0 <= i < |s| ==> p(s[i])
    ensures Filter(s, p) == s
  {
    if s != [] {
      assert forall i :: 0 <= i < |s| - 1 ==> DropLast(s)[i] == s[i];
      FilterAll(DropLast(s), p);
    }
  }

  /** Every element is kept by exactly one of `p` and its negation `notP`. */
  lemma {:induction false} FilterComplement<T>(s: seq<T>, p: T -> bool, notP: T -> bool)
    requires forall i :: 0 <= i < |s| ==> notP(s[i]) == !p(s[i])
    ensures |Filter(s, p)| + |Filter(s, notP)| == |s|
  {
    if s != [] {
      assert forall i :: 0 <= i < |s| - 1 ==> DropLast(s)[i] == s[i];
      FilterComplement(DropLast(s), p, notP);
    }
  }

  /** Keys strictly increasing along `s`: an autoincrement id column in
      insertion order. */
  predicate IncreasingBy<T>(s: seq<T>, key: T -> int)
  {
    forall i, j :: 0 <= i < j < |s| ==> key(s[i]) < key(s[j])
  }

  /** Filtering keeps the order. */
  lemma {:induction false} FilterIncreasing<T>(s: seq<T>, p: T -> bool, key: T -> int)
    requires IncreasingBy(s, key)
    ensures IncreasingBy(Filter(s, p), key)
  {
    if s != [] {
      var init := DropLast(s);
      assert forall i :: 0 <= i < |init| ==> init[i] == s[i];
      FilterIncreasing(init, p, key);
      FilterMembers(init, p);
      var f := Filter(init, p);
      forall i | 0 <= i < |f| ensures key(f[i]) < key(Last(s)) {
        var j :| 0 <= j < |init| && init[j] == f[i];
      }
    }
  }

  /** The elements whose key is `k`. */
  function KeyIs<T, K(==)>(key: T -> K, k: K): T -> bool
  {
    (x: T) => key(x) == k
  }

  /** Position of the first element satisfying `p`, or `|s|` when there is
      none. */
  function IndexWhere<T>(s: seq<T>, p: T -> bool): (k: nat)
    ensures k <= |s|
    ensures k < |s| ==> p(s[k])
    ensures forall j :: 0 <= j < k ==> !p(s[j])
  {
    if s == [] || p(s[0]) then 0
    else
      var k := IndexWhere(s[1..], p);
      assert forall j :: 1 <= j < |s| ==> s[j] == s[1..][j - 1];
      1 + k
  }

  /** SQL `filter(...).first()`: the first element satisfying `p`. */
  function FirstWhere<T>(s: seq<T>, p: T -> bool): (r: Option<T>)
    ensures r.Some? ==> r.value in s && p(r.value)
    ensures r.None? <==> forall i :: 0 <= i < |s| ==> !p(s[i])
  {
    var k := IndexWhere(s, p);
    if k == |s| then None else Some(s[k])
  }

  /** In a table whose key strictly increases, looking a key up finds the
      one row with that key. */
  lemma FirstWhereUnique<T>(s: seq<T>, key: T -> int, k: int, x: T)
    requires IncreasingBy(s, key)
    ensures FirstWhere(s, KeyIs(key, k)) == Some(x) <==> x in s && key(x) == k
  {
    var r := FirstWhere(s, KeyIs(key, k));
    if x in s && key(x) == k {
      var i :| 0 <= i < |s| && s[i] == x;
      var j :| 0 <= j < |s| && s[j] == r.value;
    }
  }

  /** Python's `reversed` / a descending ORDER BY over an ascending
      sequence. */
  function Reverse<T>(s: seq<T>): (r: seq<T>)
    ensures |r| == |s|
    ensures forall i :: 0 <= i < |s| ==> r[i] == s[|s| - 1 - i]
  {
    if s == [] then [] else [Last(s)] + Reverse(DropLast(s))
  }

  lemma ReverseMembers<T>(s: seq<T>)
    ensures forall x :: x in Reverse(s) <==> x in s
  {
    var r := Reverse(s);
    forall x ensures x in r <==> x in s {
      if x in s {
        var i :| 0 <= i < |s| && s[i] == x;
        assert r[|s| - 1 - i] == x;
      }
    }
  }

  /** No element occurs twice. */
  predicate Distinct<T(==)>(s: seq<T>)
  {
    forall i, j :: 0 <= i < j < |s| ==> s[i] != s[j]
  }

  /** `list.index(x)`: the position of the first occurrence. */
  function IndexOf<T(==)>(s: seq<T>, x: T): (k: nat)
    requires x in s
    ensures k < |s| && s[k] == x
    ensures forall j :: 0 <= j < k ==> s[j] != x
  {
    if s[0] == x then 0 else 1 + IndexOf(s[1..], x)
  }

  /** Python's `list.remove(x)` when `x in list`: the first occurrence goes,
      everything else keeps its order. */
  function RemoveFirst<T(==)>(s: seq<T>, x: T): (r: seq<T>)
    requires x in s
    ensures |r| == |s| - 1
    ensures multiset(r) == multiset(s) - multiset{x}
    ensures forall i :: 0 <= i < |r| ==> r[i] == if i < IndexOf(s, x) then s[i] else s[i + 1]
  {
    var k := IndexOf(s, x);
    CutMultiset(s, k);
    s[..k] + s[k + 1..]
  }

  /** Cutting out position `k` takes one copy of `s[k]` out of the multiset. */
  lemma CutMultiset<T>(s: seq<T>, k: int)
    requires 0 <= k < |s|
    ensures multiset(s[..k] + s[k + 1..]) == multiset(s) - multiset{s[k]}
  {
    assert s == s[..k] + [s[k]] + s[k + 1..];
  }

  /** From a list without duplicates `remove` takes out `x` altogether and
      keeps every other element. */
  lemma RemoveFirstDistinct<T>(s: seq<T>, x: T)
    requires x in s && Distinct(s)
    ensures Distinct(RemoveFirst(s, x))
    ensures x !in RemoveFirst(s, x)
    ensures forall y :: y != x ==> (y in RemoveFirst(s, x) <==> y in s)
  {
    var r := RemoveFirst(s, x);
    var k := IndexOf(s, x);
    forall y | y != x ensures y in r <==> y in s {
      if y in s {
        var j :| 0 <= j < |s| && s[j] == y;
        assert r[if j < k then j else j - 1] == y;
      }
    }
  }

  /** SQL LIMIT n. */
  function Take<T>(s: seq<T>, n: nat): (r: seq<T>)
    ensures |r| == if n < |s| then n else |s|
    ensures r == s[..|r|]
  {
    if n < |s| then s[..n] else s
  }

  /** Number of elements satisfying `p`. */
  function CountWhere<T>(s: seq<T>, p: T -> bool): nat
  {
    |Filter(s, p)|
  }

  predicate SortedBy<T>(s: seq<T>, key: T -> int)
  {
    forall i, j :: 0 <= i < j < |s| ==> key(s[i]) <= key(s[j])
  }

  /** Number of leading elements of the sorted `s` whose key is not larger
      than that of `x`: where a stable insertion puts `x`. */
  function InsertPosition<T>(x: T, s: seq<T>, key: T -> int): (k: nat)
    requires SortedBy(s, key)
    ensures k <= |s|
    ensures forall i :: 0 <= i < k ==> key(s[i]) <= key(x)
    ensures forall i :: k <= i < |s| ==> key(x) < key(s[i])
  {
    if s == [] || key(x) < key(s[0]) then 0
    else 1 + InsertPosition(x, s[1..], key)
  }

  /** Inserts `x` after every element whose key is not larger, so that
      elements with equal keys keep their order. */
  function InsertBy<T>(x: T, s: seq<T>, key: T -> int): (r: seq<T>)
    requires SortedBy(s, key)
    ensures SortedBy(r, key)
    ensures multiset(r) == multiset(s) + multiset{x}
    ensures |r| == |s| + 1
  {
    var k := InsertPosition(x, s, key);
    InsertAtSorted(x, s, key, k);
    assert s == s[..k] + s[k..];
    s[..k] + [x] + s[k..]
  }

  /** Putting `x` between the elements whose key is not larger and those
      whose key is larger keeps a sorted sequence sorted. */
  lemma InsertAtSorted<T>(x: T, s: seq<T>, key: T -> int, k: nat)
    requires SortedBy(s, key) && k <= |s|
    requires forall i :: 0 <= i < k ==> key(s[i]) <= key(x)
    requires forall i :: k <= i < |s| ==> key(x) < key(s[i])
    ensures SortedBy(s[..k] + [x] + s[k..], key)
  {
    var r := s[..k] + [x] + s[k..];
    forall i, j | 0 <= i < j < |r| ensures key(r[i]) <= key(r[j]) {
      var a := if i < k then i else if i == k then -1 else i - 1;
      var b := if j < k then j else if j == k then -1 else j - 1;
      if a >= 0 && b >= 0 {
        assert r[i] == s[a] && r[j] == s[b];
      } else if a < 0 {
        assert r[i] == x && r[j] == s[b];
      } else {
        assert r[i] == s[a] && r[j] == x;
      }
    }
  }

  /** A stable sort by an integer key: ascending ORDER BY; a descending
      ORDER BY sorts by the negated key. */
  function SortBy<T>(s: seq<T>, key: T -> int): (r: seq<T>)
    ensures SortedBy(r, key)
    ensures multiset(r) == multiset(s)
    ensures |r| == |s|
  {
    if s == [] then []
    else
      assert s == DropLast(s) + [Last(s)];
      InsertBy(Last(s), SortBy(DropLast(s), key), key)
  }

  lemma SortedMembers<T>(s: seq<T>, key: T -> int)
    ensures forall x :: x in SortBy(s, key) <==> x in s
  {
    var r := SortBy(s, key);
    forall x ensures x in r <==> x in s {
      assert x in r <==> x in multiset(r);
      assert x in s <==> x in multiset(s);
    }
  }

  /** Python's `max(s, key=key)`: the index of the FIRST element whose key
      is largest, since `max` replaces its candidate only on a strictly
      larger key. */
  function FirstMaxIndex<T>(s: seq<T>, key: T -> int): (i: nat)
    requires |s| > 0
    ensures i < |s|
    ensures forall j :: 0 <= j < |s| ==> key(s[j]) <= key(s[i])
    ensures forall j :: 0 <= j < i ==> key(s[j]) < key(s[i])
  {
    if |s| == 1 then 0
    else
      var i := FirstMaxIndex(DropLast(s), key);
      assert forall j :: 0 <= j < |s| - 1 ==> s[j] == DropLast(s)[j];
      if key(Last(s)) > key(s[i]) then |s| - 1 else i
  }

  /** Sum of a sequence of reals. */
  function SumReals(s: seq<real>): real
  {
    if s == [] then 0.0 else SumReals(DropLast(s)) + Last(s)
  }

  /** Sum of a sequence of integers. */
  function SumInts(s: seq<int>): int
  {
    if s == [] then 0 else SumInts(DropLast(s)) + Last(s)
  }
}
