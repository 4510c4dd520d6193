/** The order of Go strings, the in-place insertion sort the sources use, and the
    sorted enumeration of a set of names. */
module Sorting {
  import opened Wire

  // ------------------------------------------------------------ string order

  /** Go's <: byte by byte, a proper prefix first. */
  predicate StrLess(a: Str, b: Str) {
    b != [] && (a == [] || a[0] < b[0] || (a[0] == b[0] && StrLess(a[1..], b[1..])))
  }

  lemma {:induction false} StrLessTransitive(a: Str, b: Str, c: Str)
    requires StrLess(a, b) && StrLess(b, c)
    ensures StrLess(a, c)
  {
    if a != [] && a[0] == b[0] && b[0] == c[0] {
      StrLessTransitive(a[1..], b[1..], c[1..]);
    }
  }

  lemma {:induction false} StrLessTotal(a: Str, b: Str)
    ensures StrLess(a, b) || StrLess(b, a) || a == b
    ensures !(StrLess(a, b) && (StrLess(b, a) || a == b))
  {
    if a != [] && b != [] && a[0] == b[0] {
      StrLessTotal(a[1..], b[1..]);
      assert a == [a[0]] + a[1..] && b == [b[0]] + b[1..];
    }
  }

  /** A strict weak order: what the sort needs of its comparison. */
  ghost predicate WeakOrder<T(!new)>(less: (T, T) -> bool) {
    && (forall x :: !less(x, x))
    && (forall x, y, z :: less(x, z) ==> less(x, y) || less(y, z))
    && (forall x, y :: less(x, y) ==> !less(y, x))
  }

  lemma StrLessTriple(x: Str, y: Str, z: Str)
    ensures !StrLess(x, x)
    ensures StrLess(x, y) ==> !StrLess(y, x)
    ensures StrLess(x, z) ==> StrLess(x, y) || StrLess(y, z)
  {
    hide StrLess;
    StrLessTotal(x, y);
    StrLessTotal(x, x);
    if StrLess(y, x) && StrLess(x, z) {
      StrLessTransitive(y, x, z);
    }
  }

  lemma StrLessIsOrder()
    ensures WeakOrder(StrLess)
  {
    hide StrLess;
    forall x: Str, y: Str, z: Str {
      StrLessTriple(x, y, z);
    }
  }

  // ----------------------------------------------------------- insertion sort

  ghost predicate Ordered<T>(s: seq<T>, less: (T, T) -> bool) {
    forall i, j :: 0 <= i < j < |s| ==> !less(s[j], s[i])
  }

  /** Everything up to hi is in order, except that the element at j may belong
      further left. */
  ghost predicate OrderedBut<T>(s: seq<T>, less: (T, T) -> bool, hi: int, j: int)
    requires hi < |s|
  {
    forall p, q :: 0 <= p < q <= hi && q != j ==> !less(s[q], s[p])
  }

  method Swap<T>(a: array<T>, j: int)
    requires 0 < j < a.Length
    modifies a
    ensures a[..] == old(a[..])[j := old(a[j - 1])][j - 1 := old(a[j])]
    ensures multiset(a[..]) == multiset(old(a[..]))
  {
    a[j], a[j - 1] := a[j - 1], a[j];
  }

  /** Insertion by adjacent swaps, in place: the elements end up in order and are
      the ones that were there. */
  method InsertionSort<T(!new)>(a: array<T>, less: (T, T) -> bool)
    requires WeakOrder(less)
    modifies a
    ensures Ordered(a[..], less)
    ensures multiset(a[..]) == multiset(old(a[..]))
  {
    var i := 1;
    while i < a.Length
      invariant 1 <= i && (i <= a.Length || a.Length == 0)
      invariant forall p, q :: 0 <= p < q < i && q < a.Length ==> !less(a[q], a[p])
      invariant multiset(a[..]) == multiset(old(a[..]))
    {
      var j := i;
      while j > 0 && less(a[j], a[j - 1])
        invariant 0 <= j <= i < a.Length
        invariant OrderedBut(a[..], less, i, j)
        invariant forall q :: j < q <= i ==> !less(a[q], a[j])
        invariant multiset(a[..]) == multiset(old(a[..]))
      {
        Swap(a, j);
        j := j - 1;
      }
      ghost var s := a[..];
      forall p, q | 0 <= p < q <= i
        ensures !less(s[q], s[p])
      {
        if q == j && p < j - 1 {
          assert !less(s[j - 1], s[p]);
        }
      }
      i := i + 1;
    }
  }

  lemma {:induction false} TwoPlaces<T>(s: seq<T>, x: T)
    requires multiset(s)[x] >= 2
    ensures exists i, j :: 0 <= i < j < |s| && s[i] == x && s[j] == x
  {
    assert s == s[..|s| - 1] + [s[|s| - 1]];
    var rest := s[..|s| - 1];
    if s[|s| - 1] == x {
      assert x in multiset(rest);
      var i :| 0 <= i < |rest| && rest[i] == x;
      assert s[i] == x && s[|s| - 1] == x;
    } else {
      TwoPlaces(rest, x);
      var i, j :| 0 <= i < j < |rest| && rest[i] == x && rest[j] == x;
      assert s[i] == x && s[j] == x;
    }
  }

  ghost predicate Pairwise<T>(s: seq<T>, rel: (T, T) -> bool) {
    forall i, j :: 0 <= i < j < |s| ==> rel(s[i], s[j])
  }

  /** A symmetric relation between all elements does not depend on their order. */
  lemma PairwisePermuted<T(!new)>(a: seq<T>, b: seq<T>, rel: (T, T) -> bool)
    requires multiset(a) == multiset(b) && Pairwise(a, rel)
    requires forall x, y :: rel(x, y) ==> rel(y, x)
    ensures Pairwise(b, rel)
  {
    forall i, j | 0 <= i < j < |b|
      ensures rel(b[i], b[j])
    {
      var x, y := b[i], b[j];
      assert x in multiset(a) && y in multiset(a);
      if x == y {
        TwiceInMultiset(b, i, j);
        TwoPlaces(a, x);
      } else {
        var p :| 0 <= p < |a| && a[p] == x;
        var q :| 0 <= q < |a| && a[q] == y;
        assert p < q || q < p;
      }
    }
  }

  lemma OnlyMember<T>(xs: seq<T>, a: T)
    requires multiset(xs) == multiset([a])
    ensures xs == [a]
  {
    assert |multiset(xs)| == 1;
    assert xs[0] in multiset(xs);
  }

  // ------------------------------------------------------ sorted enumerations

  /** names lists each element of keys once, in string order. */
  ghost predicate Enumerates(names: seq<Str>, keys: set<Str>) {
    && (forall i, j :: 0 <= i < j < |names| ==> StrLess(names[i], names[j]))
    && (forall i :: 0 <= i < |names| ==> names[i] in keys)
    && (forall x :: x in keys ==> x in names)
  }

  lemma FirstIsKey(names: seq<Str>, keys: set<Str>)
    requires Enumerates(names, keys)
    ensures names != [] ==> names[0] in keys
  {
  }

  lemma {:induction false} EnumerationUnique(a: seq<Str>, b: seq<Str>, keys: set<Str>)
    requires Enumerates(a, keys) && Enumerates(b, keys)
    ensures a == b
    decreases |a|
  {
    FirstIsKey(b, keys);
    if a == [] {
    } else {
      assert a[0] in keys;
      var i :| 0 <= i < |b| && b[i] == a[0];
      assert b[0] in keys;
      var j :| 0 <= j < |a| && a[j] == b[0];
      StrLessTotal(a[0], b[0]);
      assert i == 0;
      EnumeratesTail(a, keys);
      EnumeratesTail(b, keys);
      EnumerationUnique(a[1..], b[1..], keys - {a[0]});
      assert a == [a[0]] + a[1..] && b == [b[0]] + b[1..];
    }
  }

  lemma EnumeratesTail(a: seq<Str>, keys: set<Str>)
    requires a != [] && Enumerates(a, keys)
    ensures Enumerates(a[1..], keys - {a[0]})
  {
    forall i | 0 <= i < |a[1..]|
      ensures a[1..][i] in keys - {a[0]}
    {
      StrLessTotal(a[0], a[i + 1]);
    }
    forall x | x in keys - {a[0]}
      ensures x in a[1..]
    {
      var i :| 0 <= i < |a| && a[i] == x;
      assert a[1..][i - 1] == x;
    }
  }

  /** Distinct names in order are the enumeration of their set. */
  lemma OrderedEnumerates(names: seq<Str>, keys: set<Str>)
    requires Ordered(names, StrLess) && multiset(names) == multiset(keys)
    ensures Enumerates(names, keys)
  {
    forall x
      ensures x in names <==> x in keys
    {
      assert x in multiset(names) <==> x in multiset(keys);
    }
    forall i, j | 0 <= i < j < |names|
      ensures StrLess(names[i], names[j])
    {
      StrLessTotal(names[i], names[j]);
      NoRepeats(names, keys, i, j);
    }
  }

  lemma NoRepeats(names: seq<Str>, keys: set<Str>, i: nat, j: nat)
    requires i < j < |names| && multiset(names) == multiset(keys)
    ensures names[i] != names[j]
  {
    assert multiset(keys)[names[i]] <= 1;
    if names[i] == names[j] {
      TwiceInMultiset(names, i, j);
    }
  }

  lemma TwiceInMultiset<T>(s: seq<T>, i: nat, j: nat)
    requires i < j < |s| && s[i] == s[j]
    ensures multiset(s)[s[i]] >= 2
  {
    assert s == s[..j] + ([s[j]] + s[j + 1..]);
    assert s[..j][i] == s[i];
    assert s[i] in s[..j] && s[i] in multiset(s[..j]);
    assert multiset(s) == multiset(s[..j]) + multiset{s[j]} + multiset(s[j + 1..]);
  }

  /** The keys of a Go map, collected and sorted. */
  method SortNames(keys: set<Str>) returns (names: seq<Str>)
    ensures Enumerates(names, keys)
  {
    var left, listed := keys, [];
    while left != {}
      invariant left <= keys && multiset(listed) + multiset(left) == multiset(keys)
      decreases left
    {
      var x :| x in left;
      assert multiset(left) == multiset(left - {x}) + multiset{x};
      listed, left := listed + [x], left - {x};
    }
    var a := new Str[|listed|](i requires 0 <= i < |listed| => listed[i]);
    assert a[..] == listed;
    StrLessIsOrder();
    InsertionSort(a, StrLess);
    names := a[..];
    OrderedEnumerates(names, keys);
  }

  ghost predicate Least(x: Str, keys: set<Str>) {
    x in keys && forall y :: y in keys && y != x ==> StrLess(x, y)
  }

  lemma {:induction false} LeastExists(keys: set<Str>)
    requires keys != {}
    ensures exists x :: Least(x, keys)
    decreases |keys|
  {
    hide StrLess;
    var z :| z in keys;
    if keys == {z} {
      assert Least(z, keys);
    } else {
      LeastExists(keys - {z});
      var x :| Least(x, keys - {z});
      LeastOfTwo(x, z, keys);
    }
  }

  lemma LeastOfTwo(x: Str, z: Str, keys: set<Str>)
    requires z in keys && Least(x, keys - {z})
    ensures Least(x, keys) || Least(z, keys)
  {
    hide StrLess;
    StrLessTotal(x, z);
    if StrLess(z, x) {
      forall y | y in keys && y != z
        ensures StrLess(z, y)
      {
        if y != x {
          StrLessTransitive(z, x, y);
        }
      }
    }
  }

  lemma {:induction false} EnumerationExists(keys: set<Str>)
    ensures exists names :: Enumerates(names, keys)
    decreases |keys|
  {
    hide StrLess;
    if keys == {} {
      assert Enumerates([], keys);
    } else {
      LeastExists(keys);
      var x :| Least(x, keys);
      EnumerationExists(keys - {x});
      var rest :| Enumerates(rest, keys - {x});
      assert Enumerates([x] + rest, keys);
    }
  }

  ghost function SortedNames(keys: set<Str>): (names: seq<Str>)
    ensures Enumerates(names, keys)
  {
    EnumerationExists(keys);
    var names :| Enumerates(names, keys);
    names
  }
}
