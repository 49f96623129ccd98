/** Sums over sequences and maps, and other facts about collections that every other module shares. */
module Totals {

  datatype Option<+T> = None | Some(value: T)

  /** No element occurs twice. */
  predicate Distinct<T(==)>(s: seq<T>) { forall i, j :: 0 <= i < j < |s| ==> s[i] != s[j] }

  lemma Swap<T>(a: multiset<T>, b: multiset<T>, c: multiset<T>)
    ensures a + (b + c) == b + (a + c)
  {
  }

  /** 2^n */
  function Pow2(n: nat): (p: nat)
    ensures p >= 1
  {
    if n == 0 then 1 else 2 * Pow2(n - 1)
  }

  /** Puts e before the first element of s that it goes before. */
  function InsertBy<T>(goesFirst: (T, T) -> bool, e: T, s: seq<T>): (r: seq<T>)
    ensures multiset(r) == multiset(s) + multiset{e}
  {
    if s == [] || goesFirst(e, s[0]) then [e] + s
    else
      assert s == [s[0]] + s[1..];
      [s[0]] + InsertBy(goesFirst, e, s[1..])
  }

  /** Insertion sort. */
  function SortBy<T>(goesFirst: (T, T) -> bool, s: seq<T>): (r: seq<T>)
    ensures multiset(r) == multiset(s)
  {
    if s == [] then [] else
    assert s == [s[0]] + s[1..];
    InsertBy(goesFirst, s[0], SortBy(goesFirst, s[1..]))
  }

  /** The sum of f over the elements of s. */
  function SumOf<T>(f: T -> nat, s: seq<T>): nat {
    if s == [] then 0 else f(s[0]) + SumOf(f, s[1..])
  }

  lemma {:induction false} SumOfUpdate<T>(f: T -> nat, s: seq<T>, i: nat, x: T)
    requires i < |s|
    ensures SumOf(f, s[i := x]) + f(s[i]) == SumOf(f, s) + f(x)
  {
    if i == 0 {
      assert s[i := x][1..] == s[1..];
    } else {
      assert s[i := x][1..] == s[1..][i - 1 := x];
      SumOfUpdate(f, s[1..], i - 1, x);
    }
  }

  lemma {:induction false} SumOfAppend<T>(f: T -> nat, s: seq<T>, t: seq<T>)
    ensures SumOf(f, s + t) == SumOf(f, s) + SumOf(f, t)
  {
    if s == [] {
      assert s + t == t;
    } else {
      assert (s + t)[1..] == s[1..] + t;
      SumOfAppend(f, s[1..], t);
    }
  }

  lemma {:induction false} InsertSum<T>(goesFirst: (T, T) -> bool, f: T -> nat, e: T, s: seq<T>)
    ensures SumOf(f, InsertBy(goesFirst, e, s)) == f(e) + SumOf(f, s)
  {
    var r := InsertBy(goesFirst, e, s);
    if s == [] || goesFirst(e, s[0]) {
      assert r == [e] + s && r[1..] == s;
    } else {
      InsertSum(goesFirst, f, e, s[1..]);
      assert r[1..] == InsertBy(goesFirst, e, s[1..]);
    }
  }

  /** Sorting does not change a sum. */
  lemma {:induction false} SortSum<T>(goesFirst: (T, T) -> bool, f: T -> nat, s: seq<T>)
    ensures SumOf(f, SortBy(goesFirst, s)) == SumOf(f, s)
  {
    if s != [] {
      SortSum(goesFirst, f, s[1..]);
      InsertSum(goesFirst, f, s[0], SortBy(goesFirst, s[1..]));
    }
  }

  /** The sum of the values of m. */
  ghost function Total<K>(m: map<K, nat>): nat {
    if m == map[] then 0 else
    var k :| k in m;
    m[k] + Total(m - {k})
  }

  lemma {:induction false} TotalRemove<K>(m: map<K, nat>, k: K)
    requires k in m
    ensures Total(m) == m[k] + Total(m - {k})
    decreases |m|
  {
    var j :| j in m && Total(m) == m[j] + Total(m - {j});
    if j != k {
      TotalRemove(m - {j}, k);
      TotalRemove(m - {k}, j);
      assert m - {j} - {k} == m - {k} - {j};
    }
  }

  lemma {:induction false} TotalUpdate<K>(m: map<K, nat>, k: K, v: nat)
    ensures Total(m[k := v]) + (if k in m then m[k] else 0) == Total(m) + v
  {
    TotalRemove(m[k := v], k);
    assert m[k := v] - {k} == m - {k};
    if k in m {
      TotalRemove(m, k);
    } else {
      assert m - {k} == m;
    }
  }

  /** The value stored under k, or zero. */
  function Get<K>(m: map<K, nat>, k: K): nat { if k in m then m[k] else 0 }

  lemma TotalIncrement<K>(m: map<K, nat>, k: K)
    ensures Total(m[k := Get(m, k) + 1]) == Total(m) + 1
  {
    TotalUpdate(m, k, Get(m, k) + 1);
  }

  // ---------------------------------------------------------------- images of multisets

  /** The values of f on the elements of q, each as often as it occurs. */
  ghost function Image<S, T>(f: S -> T, q: multiset<S>): multiset<T>
    decreases |q|
  {
    if q == multiset{} then multiset{} else
    var x :| x in q;
    multiset{f(x)} + Image(f, q - multiset{x})
  }

  lemma {:induction false} ImageRemove<S, T>(f: S -> T, q: multiset<S>, x: S)
    requires x in q
    ensures Image(f, q) == multiset{f(x)} + Image(f, q - multiset{x})
    decreases |q|
  {
    var y :| y in q && Image(f, q) == multiset{f(y)} + Image(f, q - multiset{y});
    hide Image;
    if y != x {
      var qy, qx := q - multiset{y}, q - multiset{x};
      assert x in qy && y in qx && qy - multiset{x} == qx - multiset{y};
      ImageRemove(f, qy, x);
      ImageRemove(f, qx, y);
      Swap(multiset{f(y)}, multiset{f(x)}, Image(f, qx - multiset{y}));
    }
  }

  lemma ImageAdd<S, T>(f: S -> T, q: multiset<S>, x: S)
    ensures Image(f, q + multiset{x}) == Image(f, q) + multiset{f(x)}
  {
    ImageRemove(f, q + multiset{x}, x);
    assert q + multiset{x} - multiset{x} == q;
  }

  lemma ImageMember<S, T>(f: S -> T, q: multiset<S>, x: S)
    requires x in q
    ensures f(x) in Image(f, q)
  {
    ImageRemove(f, q, x);
  }

  /** What is in an image comes from an element. */
  lemma {:induction false} ImageOrigin<S, T>(f: S -> T, q: multiset<S>, y: T) returns (x: S)
    requires y in Image(f, q)
    ensures x in q && f(x) == y
    decreases |q|
  {
    var z :| z in q && Image(f, q) == multiset{f(z)} + Image(f, q - multiset{z});
    x := z;
    if f(z) != y {
      x := ImageOrigin(f, q - multiset{z}, y);
    }
  }

  lemma Assoc<T>(a: multiset<T>, b: multiset<T>, c: multiset<T>)
    ensures a + b + c == a + (b + c)
  {
  }
}
