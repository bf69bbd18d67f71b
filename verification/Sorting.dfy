/** The stable sort the source relies on (Python's sorted), by insertion. */
module Sorting {

  /** Strings in code-point order. */
  predicate StringBefore(a: string, b: string) {
    if b == [] then false
    else if a == [] then true
    else a[0] < b[0] || (a[0] == b[0] && StringBefore(a[1..], b[1..]))
  }

  /** The strings differ first at k, where the first one ends or has the smaller character. */
  ghost predicate DiffersAt(a: string, b: string, k: nat) {
    k <= |a| && k < |b| && a[..k] == b[..k] && (k == |a| || a[k] < b[k])
  }

  lemma {:induction false} StringBeforeIff(a: string, b: string)
    ensures StringBefore(a, b) <==> exists k: nat :: DiffersAt(a, b, k)
    decreases |a|
  {
    if b == [] {
    } else if a == [] || a[0] < b[0] {
      assert DiffersAt(a, b, 0);
    } else if a[0] == b[0] {
      StringBeforeIff(a[1..], b[1..]);
      if k: nat :| DiffersAt(a[1..], b[1..], k) {
        var next := k + 1;
        assert a[..next] == [a[0]] + a[1..][..k] && b[..next] == [b[0]] + b[1..][..k];
        assert DiffersAt(a, b, next);
      }
      if k: nat :| DiffersAt(a, b, k) {
        var rest := k - 1;
        assert a[1..][..rest] == a[..k][1..] && b[1..][..rest] == b[..k][1..];
        assert DiffersAt(a[1..], b[1..], rest);
      }
    } else {
      assert forall k: nat :: DiffersAt(a, b, k) && k > 0 ==> a[..k][0] == b[..k][0];
    }
  }

  lemma {:induction false} StringOrder(a: string, b: string, c: string)
    ensures !StringBefore(a, b) && !StringBefore(b, c) ==> !StringBefore(a, c)
    ensures StringBefore(a, b) ==> !StringBefore(b, a)
    ensures !StringBefore(a, b) && !StringBefore(b, a) ==> a == b
    decreases |a|
  {
    if a != [] && b != [] {
      StringOrder(a[1..], b[1..], if c == [] then [] else c[1..]);
      if a[0] == b[0] && a[1..] == b[1..] {
        assert a == [a[0]] + a[1..] && b == [b[0]] + b[1..];
      }
    }
  }

  /** x goes behind every element it is not strictly before. */
  function Insert<T>(s: seq<T>, x: T, before: (T, T) -> bool): (r: seq<T>)
    ensures |r| == |s| + 1
    decreases |s|
  {
    if s == [] then [x]
    else if before(x, s[|s| - 1]) then Insert(s[..|s| - 1], x, before) + [s[|s| - 1]]
    else s + [x]
  }

  function Sort<T>(s: seq<T>, before: (T, T) -> bool): (r: seq<T>)
    ensures |r| == |s|
    decreases |s|
  {
    if s == [] then [] else Insert(Sort(s[..|s| - 1], before), s[|s| - 1], before)
  }

  ghost predicate Sorted<T>(s: seq<T>, before: (T, T) -> bool) {
    forall i, j :: 0 <= i < j < |s| ==> !before(s[j], s[i])
  }

  /** On the elements of s, "not before" is transitive and "before" is asymmetric. */
  ghost predicate Ordering<T(!new)>(s: seq<T>, before: (T, T) -> bool) {
    && (forall a, b, c :: a in s && b in s && c in s && !before(a, b) && !before(b, c) ==> !before(a, c))
    && (forall a, b :: a in s && b in s && before(a, b) ==> !before(b, a))
  }

  lemma {:induction false} InsertHolds<T>(s: seq<T>, x: T, before: (T, T) -> bool)
    ensures multiset(Insert(s, x, before)) == multiset(s) + multiset{x}
    decreases |s|
  {
    if s != [] && before(x, s[|s| - 1]) {
      InsertHolds(s[..|s| - 1], x, before);
      assert s == s[..|s| - 1] + [s[|s| - 1]];
    }
  }

  lemma {:induction false} SortHolds<T>(s: seq<T>, before: (T, T) -> bool)
    ensures multiset(Sort(s, before)) == multiset(s)
    decreases |s|
  {
    if s != [] {
      SortHolds(s[..|s| - 1], before);
      InsertHolds(Sort(s[..|s| - 1], before), s[|s| - 1], before);
      assert s == s[..|s| - 1] + [s[|s| - 1]];
    }
  }

  lemma SortMembers<T>(s: seq<T>, before: (T, T) -> bool)
    ensures forall x :: x in Sort(s, before) <==> x in s
  {
    SortHolds(s, before);
    forall x
      ensures x in Sort(s, before) <==> x in s
    {
      assert x in multiset(Sort(s, before)) <==> x in multiset(s);
    }
  }

  lemma InsertMembers<T>(s: seq<T>, x: T, before: (T, T) -> bool)
    ensures forall y :: y in Insert(s, x, before) <==> y in s || y == x
  {
    InsertHolds(s, x, before);
    forall y
      ensures y in Insert(s, x, before) <==> y in s || y == x
    {
      assert y in multiset(Insert(s, x, before)) <==> y in multiset(s) + multiset{x};
    }
  }

  lemma {:induction false} InsertSorted<T(!new)>(s: seq<T>, x: T, before: (T, T) -> bool)
    requires Sorted(s, before) && Ordering(s + [x], before)
    ensures Sorted(Insert(s, x, before), before)
    decreases |s|
  {
    if s != [] {
      var front, last := s[..|s| - 1], s[|s| - 1];
      assert last in s + [x] && x in s + [x];
      if before(x, last) {
        forall y | y in front + [x]
          ensures y in s + [x]
        {
        }
        InsertSorted(front, x, before);
        InsertMembers(front, x, before);
        assert !before(last, x);
      } else {
        forall k | 0 <= k < |s|
          ensures !before(x, s[k])
        {
          assert s[k] in s + [x];
        }
      }
    }
  }

  lemma {:induction false} SortSorts<T(!new)>(s: seq<T>, before: (T, T) -> bool)
    requires Ordering(s, before)
    ensures Sorted(Sort(s, before), before)
    decreases |s|
  {
    if s != [] {
      var front, last := s[..|s| - 1], s[|s| - 1];
      assert forall y :: y in front ==> y in s;
      SortSorts(front, before);
      SortMembers(front, before);
      assert forall y :: y in Sort(front, before) + [last] ==> y in s;
      InsertSorted(Sort(front, before), last, before);
    }
  }

  // ---- stability ----

  /** The elements of s that the order does not tell apart from x, in order. */
  ghost function Ties<T>(s: seq<T>, x: T, before: (T, T) -> bool): (r: seq<T>)
    decreases |s|
  {
    if s == [] then []
    else
      var last := s[|s| - 1];
      Ties(s[..|s| - 1], x, before) + if !before(x, last) && !before(last, x) then [last] else []
  }

  lemma {:induction false} InsertTies<T(!new)>(s: seq<T>, y: T, x: T, before: (T, T) -> bool)
    requires Ordering(s + [y, x], before)
    ensures Ties(Insert(s, y, before), x, before) ==
            Ties(s, x, before) + if !before(x, y) && !before(y, x) then [y] else []
    decreases |s|
  {
    if s != [] && before(y, s[|s| - 1]) {
      var front, last := s[..|s| - 1], s[|s| - 1];
      forall z | z in front + [y, x]
        ensures z in s + [y, x]
      {
      }
      InsertTies(front, y, x, before);
      var inserted := Insert(front, y, before);
      assert (inserted + [last])[..|inserted|] == inserted;
      assert last in s + [y, x] && x in s + [y, x] && y in s + [y, x];
    } else {
      assert (s + [y])[..|s|] == s;
    }
  }

  /** Elements that the order does not tell apart stay in their order. */
  lemma {:induction false} SortKeepsTies<T(!new)>(s: seq<T>, x: T, before: (T, T) -> bool)
    requires Ordering(s + [x], before)
    ensures Ties(Sort(s, before), x, before) == Ties(s, x, before)
    decreases |s|
  {
    if s != [] {
      var front, last := s[..|s| - 1], s[|s| - 1];
      assert forall z :: z in front + [x] ==> z in s + [x];
      SortKeepsTies(front, x, before);
      SortMembers(front, before);
      forall z | z in Sort(front, before) + [last, x]
        ensures z in s + [x]
      {
      }
      InsertTies(Sort(front, before), last, x, before);
    }
  }
}
