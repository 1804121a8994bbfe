/** Python dictionaries keep their keys in insertion order, and the
    statistics code relies on that order (the first sport of the favourite
    computation, the order of the per-sport reports). A dictionary is
    therefore an association list: `d[k] = v` on a present key replaces the
    value in place, on a new key appends it. */
module Dicts {
  import opened Common
  import opened Seqs

  type Dict<K, V> = seq<(K, V)>

  /** `d.get(k)` */
  function Get<K(==), V>(d: Dict<K, V>, k: K): Option<V>
  {
    if d == [] then None
    else if d[0].0 == k then Some(d[0].1)
    else Get(d[1..], k)
  }

  /** `d.get(k, default)`, and a `defaultdict` read. */
  function GetOrDefault<K(==), V>(d: Dict<K, V>, k: K, default: V): V
  {
    GetOr(Get(d, k), default)
  }

  /** `d[k] = v` */
  function Put<K(==), V>(d: Dict<K, V>, k: K, v: V): (r: Dict<K, V>)
    ensures |r| == if Get(d, k).Some? then |d| else |d| + 1
  {
    if d == [] then [(k, v)]
    else if d[0].0 == k then [(k, v)] + d[1..]
    else [d[0]] + Put(d[1..], k, v)
  }

  /** `list(d.keys())` */
  function Keys<K, V>(d: Dict<K, V>): (r: seq<K>)
    ensures |r| == |d|
    ensures forall i :: 0 <= i < |d| ==> r[i] == d[i].0
  {
    if d == [] then [] else [d[0].0] + Keys(d[1..])
  }

  predicate UniqueKeys<K(==), V>(d: Dict<K, V>)
  {
    forall i, j :: 0 <= i < j < |d| ==> d[i].0 != d[j].0
  }

  lemma GetIndex<K, V>(d: Dict<K, V>, k: K)
    ensures Get(d, k).Some? <==> exists i :: 0 <= i < |d| && d[i].0 == k
    ensures UniqueKeys(d) ==> forall i :: 0 <= i < |d| && d[i].0 == k ==> Get(d, k) == Some(d[i].1)
  {
    if d != [] {
      GetIndex(d[1..], k);
      if d[0].0 != k {
        forall i | 1 <= i < |d| && d[i].0 == k
          ensures exists j :: 0 <= j < |d[1..]| && d[1..][j].0 == k
        {
          assert d[1..][i - 1] == d[i];
        }
      }
    }
  }

  /** Looking up in a dictionary with one more entry at the end. */
  lemma {:induction false} GetAppend<K, V>(d: Dict<K, V>, k: K, v: V, k': K)
    ensures Get(d + [(k, v)], k') == if Get(d, k').Some? then Get(d, k') else if k == k' then Some(v) else None
  {
    if d != [] {
      assert (d + [(k, v)])[1..] == d[1..] + [(k, v)];
      GetAppend(d[1..], k, v, k');
    }
  }

  /** Writing a key changes that key's value and no other. */
  lemma {:induction false} GetPut<K, V>(d: Dict<K, V>, k: K, v: V, k': K)
    ensures Get(Put(d, k, v), k') == if k' == k then Some(v) else Get(d, k')
  {
    if d != [] && d[0].0 != k {
      GetPut(d[1..], k, v, k');
    }
  }

  /** Writing a present key keeps the key order; writing a new key appends
      it, as in a Python dict. */
  lemma {:induction false} KeysPut<K, V>(d: Dict<K, V>, k: K, v: V)
    ensures Keys(Put(d, k, v)) == if Get(d, k).Some? then Keys(d) else Keys(d) + [k]
  {
    if d != [] && d[0].0 != k {
      KeysPut(d[1..], k, v);
    }
  }

  /** A dictionary built by writes never holds a key twice. */
  lemma {:induction false} PutUnique<K, V>(d: Dict<K, V>, k: K, v: V)
    requires UniqueKeys(d)
    ensures UniqueKeys(Put(d, k, v))
  {
    if d != [] && d[0].0 != k {
      PutUnique(d[1..], k, v);
      KeysPut(d[1..], k, v);
      var r := Put(d, k, v);
      assert r == [d[0]] + Put(d[1..], k, v);
      forall j | 1 <= j < |r| ensures r[0].0 != r[j].0 {
        var ks := Keys(Put(d[1..], k, v));
        assert r[j].0 == ks[j - 1];
        GetIndex(d[1..], k);
        if Get(d[1..], k).Some? {
          assert ks == Keys(d[1..]);
        } else {
          assert ks == Keys(d[1..]) + [k];
        }
      }
    }
  }

  /** Sum of the values of an integer-valued dictionary. */
  function SumValues<K>(d: Dict<K, int>): int
  {
    if d == [] then 0 else d[0].1 + SumValues(d[1..])
  }

  /** Sum of the values of a float-valued dictionary. */
  function SumRealValues<K>(d: Dict<K, real>): real
  {
    if d == [] then 0.0 else d[0].1 + SumRealValues(d[1..])
  }

  /** `d[k] = v` moves the total by the difference between the new and the
      old value of `k`. */
  lemma {:induction false} SumValuesPut<K>(d: Dict<K, int>, k: K, v: int)
    ensures SumValues(Put(d, k, v)) == SumValues(d) - GetOrDefault(d, k, 0) + v
  {
    if d != [] && d[0].0 != k {
      SumValuesPut(d[1..], k, v);
    }
  }

  lemma {:induction false} SumRealValuesPut<K>(d: Dict<K, real>, k: K, v: real)
    ensures SumRealValues(Put(d, k, v)) == SumRealValues(d) - GetOrDefault(d, k, 0.0) + v
  {
    if d != [] && d[0].0 != k {
      SumRealValuesPut(d[1..], k, v);
    }
  }

  /** `d[key(x)] = d.get(key(x), 0) + 1` for every `x` of `s` in turn: how
      many elements have each key, keys in order of first appearance. */
  function CountBy<T, K(==)>(s: seq<T>, key: T -> K): Dict<K, int>
  {
    if s == [] then []
    else
      var d := CountBy(DropLast(s), key);
      var k := key(Last(s));
      Put(d, k, GetOrDefault(d, k, 0) + 1)
  }

  /** A key is present exactly when some element has it, and its count is
      the number of elements that have it. */
  lemma {:induction false} CountByEntry<T, K>(s: seq<T>, key: T -> K, k: K)
    ensures var n := |Filter(s, KeyIs(key, k))|;
            Get(CountBy(s, key), k) == if n == 0 then None else Some(n)
  {
    if s != [] {
      var init, x := DropLast(s), Last(s);
      assert s == init + [x];
      CountByEntry(init, key, k);
      FilterAppend(init, x, KeyIs(key, k));
      var d := CountBy(init, key);
      GetPut(d, key(x), GetOrDefault(d, key(x), 0) + 1, k);
    }
  }

  /** The counts add up to the number of elements. */
  lemma {:induction false} CountBySum<T, K>(s: seq<T>, key: T -> K)
    ensures SumValues(CountBy(s, key)) == |s|
  {
    if s != [] {
      var d := CountBy(DropLast(s), key);
      CountBySum(DropLast(s), key);
      SumValuesPut(d, key(Last(s)), GetOrDefault(d, key(Last(s)), 0) + 1);
    }
  }

  lemma {:induction false} CountByUnique<T, K>(s: seq<T>, key: T -> K)
    ensures UniqueKeys(CountBy(s, key))
  {
    if s != [] {
      var d := CountBy(DropLast(s), key);
      CountByUnique(DropLast(s), key);
      PutUnique(d, key(Last(s)), GetOrDefault(d, key(Last(s)), 0) + 1);
    }
  }
}
