/** Strict orders, the uniqueness of a sorted listing and the in-place sort the handlers rely on. */
module Ordering {

  ghost predicate StrictOrder<T(!new)>(less: (T, T) -> bool) {
    && (forall a :: !less(a, a))
    && (forall a, b, c :: less(a, b) && less(b, c) ==> less(a, c))
  }

  /** Every two positions hold elements the comparator tells apart. */
  ghost predicate Comparable<T(!new)>(less: (T, T) -> bool, s: seq<T>) {
    forall i, j | 0 <= i < j < |s| :: less(s[i], s[j]) || less(s[j], s[i])
  }

  ghost predicate Increasing<T(!new)>(less: (T, T) -> bool, s: seq<T>) {
    forall i, j | 0 <= i < j < |s| :: less(s[i], s[j])
  }

  ghost function Elements<T(!new)>(s: seq<T>): set<T> {
    set x | x in s
  }

  ghost predicate SameElements<T(!new)>(s: seq<T>, t: seq<T>) {
    forall x :: x in s <==> x in t
  }

  /** An increasing listing is determined by its elements: whatever algorithm produced it, and in
      whatever order the elements came, there is only one. */
  lemma {:induction false} IncreasingIsUnique<T(!new)>(less: (T, T) -> bool, s: seq<T>, t: seq<T>)
    requires StrictOrder(less) && Increasing(less, s) && Increasing(less, t) && SameElements(s, t)
    ensures s == t
  {
    if s == [] {
      assert forall i | 0 <= i < |t| :: t[i] in s;
    } else {
      assert s[0] in t;
      SameHead(less, s, t);
      assert SameElements(s[1..], t[1..]) by {
        TailElements(less, s);
        TailElements(less, t);
      }
      IncreasingIsUnique(less, s[1..], t[1..]);
      assert s == [s[0]] + s[1..] && t == [t[0]] + t[1..];
    }
  }

  lemma SameHead<T(!new)>(less: (T, T) -> bool, s: seq<T>, t: seq<T>)
    requires StrictOrder(less) && Increasing(less, s) && Increasing(less, t) && SameElements(s, t)
    requires s != [] && t != []
    ensures s[0] == t[0]
  {
    assert s[0] in t && t[0] in s;
    var i :| 0 <= i < |s| && s[i] == t[0];
    var j :| 0 <= j < |t| && t[j] == s[0];
  }

  lemma TailElements<T(!new)>(less: (T, T) -> bool, s: seq<T>)
    requires StrictOrder(less) && Increasing(less, s) && s != []
    ensures forall x :: x in s[1..] <==> x in s && x != s[0]
  {
    forall x | x in s && x != s[0]
      ensures x in s[1..]
    {
      var i :| 0 <= i < |s| && s[i] == x;
      assert s[1..][i - 1] == x;
    }
  }

  ghost predicate TotalOn<T(!new)>(less: (T, T) -> bool, s: set<T>) {
    forall x, y | x in s && y in s && x != y :: less(x, y) || less(y, x)
  }

  ghost predicate IsLeast<T(!new)>(less: (T, T) -> bool, s: set<T>, m: T) {
    m in s && forall y | y in s && y != m :: less(m, y)
  }

  lemma LeastOfTwo<T(!new)>(less: (T, T) -> bool, s: set<T>, x: T, m: T)
    requires StrictOrder(less) && TotalOn(less, s) && x in s && IsLeast(less, s - {x}, m)
    ensures exists least :: IsLeast(less, s, least)
  {
    if less(x, m) {
      forall y | y in s && y != x
        ensures less(x, y)
      {
        assert y in s - {x};
        assert y == m || less(m, y);
      }
      assert IsLeast(less, s, x);
    } else {
      assert m in s && m != x && less(m, x);
      assert forall y | y in s && y != m :: y == x || y in s - {x};
      assert IsLeast(less, s, m);
    }
  }

  lemma {:induction false} LeastExists<T(!new)>(less: (T, T) -> bool, s: set<T>)
    requires StrictOrder(less) && TotalOn(less, s) && s != {}
    ensures exists m :: IsLeast(less, s, m)
  {
    var x :| x in s;
    if s == {x} {
      assert IsLeast(less, s, x);
    } else {
      LeastExists(less, s - {x});
      var m :| IsLeast(less, s - {x}, m);
      LeastOfTwo(less, s, x, m);
    }
  }

  /** The increasing listing of a set, least element first. */
  ghost function Listing<T(!new)>(less: (T, T) -> bool, s: set<T>): (r: seq<T>)
    requires StrictOrder(less) && TotalOn(less, s)
    ensures Increasing(less, r)
    ensures |r| == |s| && forall x :: x in r <==> x in s
  {
    if s == {} then [] else
      LeastExists(less, s);
      var m :| IsLeast(less, s, m);
      [m] + Listing(less, s - {m})
  }

  /** Sorts a slice in place. With a comparator that tells every two elements apart the result does
      not depend on the algorithm (IncreasingIsUnique). */
  method SortInPlace<T(!new)>(a: array<T>, less: (T, T) -> bool)
    requires StrictOrder(less) && Comparable(less, a[..])
    modifies a
    ensures Increasing(less, a[..])
    ensures multiset(a[..]) == multiset(old(a[..]))
  {
    for i := 0 to a.Length
      invariant Comparable(less, a[..])
      invariant forall p, q | 0 <= p < q < i :: less(a[p], a[q])
      invariant multiset(a[..]) == multiset(old(a[..]))
    {
      var j := i;
      while j > 0 && less(a[j], a[j - 1])
        invariant 0 <= j <= i
        invariant Comparable(less, a[..])
        invariant forall p, q | 0 <= p < q <= i && q != j :: less(a[p], a[q])
        invariant multiset(a[..]) == multiset(old(a[..]))
      {
        ghost var before := a[..];
        a[j - 1], a[j] := a[j], a[j - 1];
        assert a[..] == before[j - 1 := before[j]][j := before[j - 1]];
        SwapKeepsComparable(less, before, j);
        j := j - 1;
      }
      if j > 0 {
        assert less(a[j - 1], a[j]);
      }
    }
  }

  lemma SwapKeepsComparable<T(!new)>(less: (T, T) -> bool, s: seq<T>, j: nat)
    requires Comparable(less, s) && 0 < j < |s|
    ensures Comparable(less, s[j - 1 := s[j]][j := s[j - 1]])
  {
  }

  // ---------- the order on strings ----------

  /** Go's < on strings: lexicographic, a proper prefix first. */
  predicate StringLess(a: string, b: string) {
    if b == [] then false
    else if a == [] then true
    else if a[0] != b[0] then a[0] < b[0]
    else StringLess(a[1..], b[1..])
  }

  lemma {:induction false} StringLessTotal(a: string, b: string)
    ensures a == b || StringLess(a, b) || StringLess(b, a)
  {
    if a != [] && b != [] && a[0] == b[0] {
      StringLessTotal(a[1..], b[1..]);
      if a[1..] == b[1..] {
        assert a == [a[0]] + a[1..] && b == [b[0]] + b[1..];
      }
    }
  }

  lemma {:induction false} StringLessTransitive(a: string, b: string, c: string)
    requires StringLess(a, b) && StringLess(b, c)
    ensures StringLess(a, c)
  {
    if a != [] && a[0] == b[0] == c[0] {
      StringLessTransitive(a[1..], b[1..], c[1..]);
    }
  }

  lemma {:induction false} StringLessIrreflexive(a: string)
    ensures !StringLess(a, a)
  {
    if a != [] {
      StringLessIrreflexive(a[1..]);
    }
  }
}
