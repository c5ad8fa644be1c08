/** Small shared vocabulary: optional values, the order of strings, maxima of finite sets. */
module Basics {

  datatype Option<+T> = None | Some(value: T)

  /** Strings compare code point by code point, a proper prefix first. */
  predicate Precedes(a: string, b: string) {
    b != [] && (a == [] || a[0] < b[0] || (a[0] == b[0] && Precedes(a[1..], b[1..])))
  }

  lemma {:induction false} PrecedesIsTotal(a: string, b: string)
    ensures a == b ==> !Precedes(a, b)
    ensures Precedes(a, b) ==> !Precedes(b, a)
    ensures a != b ==> Precedes(a, b) || Precedes(b, a)
  {
    if a != [] && b != [] {
      PrecedesIsTotal(a[1..], b[1..]);
      assert a == [a[0]] + a[1..] && b == [b[0]] + b[1..];
    }
  }

  lemma {:induction false} PrecedesIsTransitive(a: string, b: string, c: string)
    requires Precedes(a, b) && Precedes(b, c)
    ensures Precedes(a, c)
  {
    if a != [] && a[0] == b[0] == c[0] {
      PrecedesIsTransitive(a[1..], b[1..], c[1..]);
    }
  }

  /** At the first place where they differ, the smaller one has the smaller character, or has ended. */
  ghost predicate DifferAt(a: string, b: string, n: nat) {
    && n <= |a| && n < |b| && a[..n] == b[..n]
    && (n < |a| ==> a[n] < b[n])
  }

  lemma {:induction false} PrecedesIs(a: string, b: string)
    ensures Precedes(a, b) <==> exists n: nat :: DifferAt(a, b, n)
  {
    if b != [] {
      if a == [] || a[0] < b[0] {
        assert DifferAt(a, b, 0);
      } else if a[0] == b[0] {
        PrecedesIs(a[1..], b[1..]);
        if n: nat :| DifferAt(a[1..], b[1..], n) { DifferLater(a, b, n + 1); }
        if n: nat :| DifferAt(a, b, n) { DifferLater(a, b, n); }
      } else {
        forall n: nat ensures !DifferAt(a, b, n) { DifferNowhere(a, b, n); }
      }
    }
  }

  lemma DifferNowhere(a: string, b: string, n: nat)
    requires a != [] && b != [] && b[0] < a[0]
    ensures !DifferAt(a, b, n)
  {
    if 0 < n <= |a| && n < |b| { assert a[..n][0] == a[0] && b[..n][0] == b[0]; }
  }

  lemma DifferLater(a: string, b: string, n: nat)
    requires a != [] && b != [] && a[0] == b[0]
    ensures n != 0 ==> (DifferAt(a, b, n) <==> DifferAt(a[1..], b[1..], n - 1))
    ensures !DifferAt(a, b, 0)
  {
    if 0 < n <= |a| && n < |b| {
      assert a[1..][..n - 1] == a[..n][1..] && b[1..][..n - 1] == b[..n][1..];
      assert a[..n] == [a[0]] + a[..n][1..] && b[..n] == [b[0]] + b[..n][1..];
    }
  }

  ghost function Pick<T>(s: set<T>): (x: T)
    requires s != {}
    ensures x in s
  {
    var x :| x in s; x
  }

  /** The largest element of a non-empty finite set. */
  ghost function Largest(s: set<real>): (m: real)
    requires s != {}
    ensures m in s && forall x | x in s :: x <= m
  {
    var x := Pick(s);
    if s == {x} then x else
      var m := Largest(s - {x});
      assert forall y | y in s :: y == x || y in s - {x};
      if x < m then m else x
  }

  /** Python's `max(s, default=0.0)`. */
  ghost function LargestOrZero(s: set<real>): real {
    if s == {} then 0.0 else Largest(s)
  }

  lemma LargestIs(s: set<real>, m: real)
    requires m in s && forall x | x in s :: x <= m
    ensures LargestOrZero(s) == m
  {
  }

  lemma ConcatIsAssociative<T>(a: seq<T>, b: seq<T>, c: seq<T>)
    ensures (a + b) + c == a + (b + c)
  {
  }

  ghost predicate Included<K, V>(m: map<K, V>, n: map<K, V>) {
    forall k | k in m :: k in n && n[k] == m[k]
  }

  lemma EqualIfIncluded<K, V>(m: map<K, V>, n: map<K, V>)
    requires Included(m, n) && Included(n, m)
    ensures m == n
  {
  }

  lemma RemoveThenPut<K, V>(m: map<K, V>, k: K, v: V)
    ensures (m - {k})[k := v] == m[k := v]
  {
  }

  lemma PutThenRemove<K, V>(m: map<K, V>, k: K, v: V)
    ensures m[k := v] - {k} == m - {k}
  {
  }

  /** The elements of a finite set, in some order: what iterating over a Python dict or set yields. */
  method Enumerate<T(==)>(s: set<T>) returns (items: seq<T>)
    ensures forall x :: x in s <==> x in items
    ensures |items| == |s|
    ensures forall i, j :: 0 <= i < j < |items| ==> items[i] != items[j]
  {
    items := [];
    var rest := s;
    while rest != {}
      invariant rest <= s
      invariant forall x :: x in s - rest <==> x in items
      invariant |items| + |rest| == |s|
      invariant forall i, j :: 0 <= i < j < |items| ==> items[i] != items[j]
      decreases rest
    {
      var x :| x in rest;
      assert x !in items;
      items := items + [x];
      rest := rest - {x};
    }
  }

  ghost predicate Increasing<T>(s: seq<T>, key: T -> int) {
    forall i, j | 0 <= i < j < |s| :: key(s[i]) < key(s[j])
  }

  /** Two lists in strictly increasing order with the same elements are equal. */
  lemma {:induction false} IncreasingListIsUnique<T>(a: seq<T>, b: seq<T>, key: T -> int)
    requires Increasing(a, key) && Increasing(b, key)
    requires (forall x | x in a :: x in b) && (forall x | x in b :: x in a)
    ensures a == b
  {
    if a != [] { assert a[0] in b; }
    if b != [] { assert b[0] in a; }
    if a != [] {
      HeadsAreEqual(a, b, key);
      assert a == [a[0]] + a[1..] && b == [b[0]] + b[1..];
      forall x | x in a[1..] ensures x in b[1..] { TailElement(a, key, x); assert x in b; }
      forall x | x in b[1..] ensures x in a[1..] { TailElement(b, key, x); assert x in a; }
      IncreasingListIsUnique(a[1..], b[1..], key);
    }
  }

  lemma HeadsAreEqual<T>(a: seq<T>, b: seq<T>, key: T -> int)
    requires Increasing(a, key) && Increasing(b, key) && a != [] && b != [] && a[0] in b && b[0] in a
    ensures a[0] == b[0]
  {
    var i :| 0 <= i < |b| && b[i] == a[0];
    var j :| 0 <= j < |a| && a[j] == b[0];
  }

  lemma TailElement<T>(a: seq<T>, key: T -> int, x: T)
    requires Increasing(a, key) && a != [] && x in a[1..]
    ensures x in a && x != a[0]
  {
    var i :| 0 <= i < |a[1..]| && a[1..][i] == x;
    assert key(a[0]) < key(a[i + 1]);
  }
}
