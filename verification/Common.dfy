/** Option and Result, and the insertion-ordered dictionary that Python's `dict` is. */
module Common {
  datatype Option<+T> = None | Some(value: T)

  datatype Result<+T, +E> = Ok(value: T) | Err(error: E) {
    predicate IsFailure() { Err? }

    function PropagateFailure<U>(): Result<U, E>
      requires Err?
    {
      Err(error)
    }

    function Extract(): T
      requires Ok?
    {
      value
    }
  }

  function Max(a: int, b: int): int { if a >= b then a else b }

  function MinReal(a: real, b: real): real { if a <= b then a else b }

  function Take<T>(s: seq<T>, n: nat): seq<T> { if n <= |s| then s[..n] else s }

  function Pow2(n: nat): nat { if n == 0 then 1 else 2 * Pow2(n - 1) }

  lemma {:induction false} PowGrows(m: nat, n: nat)
    requires m <= n
    ensures 1 <= Pow2(m) <= Pow2(n)
  {
    if n > 0 {
      PowGrows(if m == n then n - 1 else m, n - 1);
    }
  }

  // A dictionary is the sequence of its items in insertion order. Overwriting a key
  // keeps its position, as Python does.

  type Dict<K, V> = seq<(K, V)>

  function Get<K(==), V>(d: Dict<K, V>, k: K): Option<V> {
    if d == [] then None
    else if d[0].0 == k then Some(d[0].1)
    else Get(d[1..], k)
  }

  predicate Has<K(==), V>(d: Dict<K, V>, k: K) { Get(d, k).Some? }

  function Put<K(==), V>(d: Dict<K, V>, k: K, v: V): Dict<K, V> {
    if d == [] then [(k, v)]
    else if d[0].0 == k then [(k, v)] + d[1..]
    else [d[0]] + Put(d[1..], k, v)
  }

  function Drop<K(==), V>(d: Dict<K, V>, k: K): Dict<K, V> {
    if d == [] then []
    else if d[0].0 == k then d[1..]
    else [d[0]] + Drop(d[1..], k)
  }

  ghost predicate DistinctKeys<K, V>(d: Dict<K, V>) {
    forall i, j :: 0 <= i < j < |d| ==> d[i].0 != d[j].0
  }

  /** A lookup after a write sees the written value at that key and nothing else changed. */
  lemma {:induction false} GetPut<K, V>(d: Dict<K, V>, k: K, v: V, q: K)
    ensures Get(Put(d, k, v), q) == if q == k then Some(v) else Get(d, q)
  {
    if d != [] && d[0].0 != k {
      GetPut(d[1..], k, v, q);
      assert Put(d, k, v)[1..] == Put(d[1..], k, v);
    }
  }

  lemma {:induction false} PutAppends<K, V>(d: Dict<K, V>, k: K, v: V)
    requires !Has(d, k)
    ensures Put(d, k, v) == d + [(k, v)]
  {
    if d != [] {
      PutAppends(d[1..], k, v);
    }
  }

  lemma {:induction false} GetIn<K, V>(d: Dict<K, V>, k: K)
    ensures Get(d, k).Some? ==> exists i :: 0 <= i < |d| && d[i] == (k, Get(d, k).value)
    ensures Get(d, k).None? ==> forall i :: 0 <= i < |d| ==> d[i].0 != k
  {
    if d != [] && d[0].0 != k {
      GetIn(d[1..], k);
      if Get(d, k).Some? {
        var i :| 0 <= i < |d[1..]| && d[1..][i] == (k, Get(d, k).value);
        assert d[i + 1] == (k, Get(d, k).value);
      } else {
        forall i | 0 <= i < |d| ensures d[i].0 != k {
          if i > 0 { assert d[i] == d[1..][i - 1]; }
        }
      }
    } else if d != [] {
      assert d[0] == (k, Get(d, k).value);
    }
  }

  lemma {:induction false} GetAt<K, V>(d: Dict<K, V>, i: nat)
    requires DistinctKeys(d) && i < |d|
    ensures Get(d, d[i].0) == Some(d[i].1)
  {
    if i > 0 {
      assert d[0].0 != d[i].0;
      assert d[1..][i - 1] == d[i];
      GetAt(d[1..], i - 1);
    }
  }

  lemma {:induction false} GetConcat<K, V>(a: Dict<K, V>, b: Dict<K, V>, k: K)
    ensures Get(a + b, k) == if Has(a, k) then Get(a, k) else Get(b, k)
  {
    if a == [] {
      assert a + b == b;
    } else {
      assert (a + b)[1..] == a[1..] + b;
      GetConcat(a[1..], b, k);
    }
  }

  lemma {:induction false} PutDistinct<K, V>(d: Dict<K, V>, k: K, v: V)
    requires DistinctKeys(d)
    ensures DistinctKeys(Put(d, k, v))
  {
    if d != [] && d[0].0 != k {
      PutDistinct(d[1..], k, v);
      var r := Put(d[1..], k, v);
      forall i | 0 <= i < |r| ensures r[i].0 != d[0].0 {
        GetAt(r, i);
        GetPut(d[1..], k, v, r[i].0);
        GetIn(d[1..], r[i].0);
      }
    }
  }

  lemma DistinctTail<K, V>(d: Dict<K, V>)
    requires DistinctKeys(d) && d != []
    ensures DistinctKeys(d[1..]) && !Has(d[1..], d[0].0)
  {
    GetIn(d[1..], d[0].0);
  }

  lemma DistinctCons<K, V>(k: K, v: V, d: Dict<K, V>)
    requires DistinctKeys(d) && !Has(d, k)
    ensures DistinctKeys([(k, v)] + d)
  {
    GetIn(d, k);
  }

  lemma {:induction false} GetDrop<K, V>(d: Dict<K, V>, k: K, q: K)
    requires DistinctKeys(d)
    ensures DistinctKeys(Drop(d, k))
    ensures Get(Drop(d, k), q) == if q == k then None else Get(d, q)
  {
    if d != [] {
      DistinctTail(d);
      if d[0].0 != k {
        GetDrop(d[1..], k, q);
        GetDrop(d[1..], k, d[0].0);
        DistinctCons(d[0].0, d[0].1, Drop(d[1..], k));
        assert Drop(d, k)[1..] == Drop(d[1..], k);
      }
    }
  }

  /** The dictionary without its `i`-th item. */
  function Omit<K, V>(d: Dict<K, V>, i: nat): (r: Dict<K, V>)
    requires i < |d|
    ensures |r| == |d| - 1
  {
    d[..i] + d[i + 1..]
  }

  lemma {:induction false} GetOmit<K, V>(d: Dict<K, V>, i: nat, k: K)
    requires DistinctKeys(d) && i < |d|
    ensures DistinctKeys(Omit(d, i))
    ensures Get(Omit(d, i), k) == if k == d[i].0 then None else Get(d, k)
  {
    DistinctTail(d);
    if i == 0 {
      assert Omit(d, 0) == d[1..];
    } else {
      var rest := Omit(d[1..], i - 1);
      GetOmit(d[1..], i - 1, k);
      GetOmit(d[1..], i - 1, d[0].0);
      assert Omit(d, i) == [d[0]] + rest;
      assert Omit(d, i)[1..] == rest;
      DistinctCons(d[0].0, d[0].1, rest);
      hide Omit;
    }
  }

  lemma Assoc<T>(a: seq<T>, b: seq<T>, c: seq<T>)
    ensures a + b + c == a + (b + c)
  {
  }
}
