// What callers of an unstable sort may rely on: the same elements, in order.
module Sorting {

  /** A strict weak order: `less` never holds both ways, and "not less" is transitive. */
  ghost predicate Orders<T(!new)>(less: (T, T) -> bool) {
    && (forall x, y :: less(x, y) ==> !less(y, x))
    && (forall x, y, z :: !less(y, x) && !less(z, y) ==> !less(z, x))
  }

  ghost predicate SortedBy<T>(less: (T, T) -> bool, s: seq<T>) {
    forall i, j :: 0 <= i < j < |s| ==> !less(s[j], s[i])
  }

  ghost predicate IsSortOf<T>(less: (T, T) -> bool, r: seq<T>, s: seq<T>) {
    SortedBy(less, r) && multiset(r) == multiset(s)
  }

  /** A sort; its contract promises no more than the library's unstable one. */
  method Sort<T(!new)>(s: seq<T>, less: (T, T) -> bool) returns (r: seq<T>)
    requires Orders(less)
    ensures IsSortOf(less, r, s)
  {
    r := [];
    for i := 0 to |s|
      invariant SortedBy(less, r) && multiset(r) == multiset(s[..i])
    {
      assert s[..i + 1] == s[..i] + [s[i]];
      r := Insert(r, s[i], less);
    }
    assert s[..|s|] == s;
  }

  lemma RestNotLess<T(!new)>(less: (T, T) -> bool, s: seq<T>, x: T, i: nat, k: nat)
    requires Orders(less) && SortedBy(less, s) && i <= k < |s| && less(x, s[i])
    ensures !less(s[k], x)
  {
    assert !less(s[i], x);
    assert i < k ==> !less(s[k], s[i]);
  }

  /** Where an element goes keeps the order. */
  lemma InsertAt<T(!new)>(less: (T, T) -> bool, s: seq<T>, x: T, i: nat) returns (r: seq<T>)
    requires Orders(less) && SortedBy(less, s) && i <= |s|
    requires (forall k :: 0 <= k < i ==> !less(x, s[k])) && (i < |s| ==> less(x, s[i]))
    ensures r == s[..i] + [x] + s[i..] && SortedBy(less, r) && multiset(r) == multiset(s) + multiset{x}
  {
    hide Orders;
    forall k | i <= k < |s| ensures !less(s[k], x) {
      RestNotLess(less, s, x, i, k);
    }
    r := Splice(s, x, i);
    forall a, b | 0 <= a < b < |r| ensures !less(r[b], r[a]) {
      assert a != i && b != i ==> !less(s[if b < i then b else b - 1], s[if a < i then a else a - 1]);
    }
  }

  lemma Splice<T>(s: seq<T>, x: T, i: nat) returns (r: seq<T>)
    requires i <= |s|
    ensures r == s[..i] + [x] + s[i..] && multiset(r) == multiset(s) + multiset{x} && |r| == |s| + 1
    ensures forall k {:trigger r[k]} :: 0 <= k < |r| ==> r[k] == if k < i then s[k] else if k == i then x else s[k - 1]
  {
    r := s[..i] + [x] + s[i..];
    assert s == s[..i] + s[i..];
  }

  method Insert<T(!new)>(s: seq<T>, x: T, less: (T, T) -> bool) returns (r: seq<T>)
    requires Orders(less) && SortedBy(less, s)
    ensures SortedBy(less, r) && multiset(r) == multiset(s) + multiset{x}
  {
    var i := 0;
    while i < |s| && !less(x, s[i])
      invariant i <= |s| && forall k :: 0 <= k < i ==> !less(x, s[k])
    {
      i := i + 1;
    }
    ghost var at := InsertAt(less, s, x, i);
    r := s[..i] + [x] + s[i..];
  }

  lemma {:induction false} SortExists<T(!new)>(less: (T, T) -> bool, s: seq<T>) returns (r: seq<T>)
    requires Orders(less)
    ensures IsSortOf(less, r, s)
  {
    if s == [] {
      r := [];
    } else {
      var n, x := |s| - 1, s[|s| - 1];
      var q := SortExists(less, s[..n]);
      var i := 0;
      while i < |q| && !less(x, q[i])
        invariant i <= |q| && forall k :: 0 <= k < i ==> !less(x, q[k])
      {
        i := i + 1;
      }
      r := InsertAt(less, q, x, i);
      assert s == s[..n] + [x];
    }
  }

  lemma SortMembers<T>(less: (T, T) -> bool, r: seq<T>, s: seq<T>)
    requires IsSortOf(less, r, s)
    ensures |r| == |s| && forall x :: x in r <==> x in s
  {
    assert |multiset(r)| == |multiset(s)|;
    forall x ensures x in r <==> x in s {
      assert x in r <==> x in multiset(r);
      assert x in s <==> x in multiset(s);
    }
  }
}
