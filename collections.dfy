/**
 * `Collections.sort` (src/collections.ts): sorts a list of strings or of
 * `Comparable` objects in place. Strings are compared with JavaScript's `<`
 * and `>` (lexicographic order on characters); other elements are compared
 * by their own `compareTo`.
 */
module Collections {

  // ---------------------------------------------------------------------
  // JavaScript string order
  // ---------------------------------------------------------------------

  /** `a < b` on JavaScript strings: lexicographic, a proper prefix is smaller. */
  predicate Less(a: string, b: string)
    decreases |a|
  {
    if |a| == 0 then |b| > 0
    else if |b| == 0 then false
    else if a[0] != b[0] then a[0] < b[0]
    else Less(a[1..], b[1..])
  }

  lemma {:induction false} LessIrreflexive(a: string)
    ensures !Less(a, a)
    decreases |a|
  {
    if |a| > 0 {
      LessIrreflexive(a[1..]);
    }
  }

  lemma {:induction false} LessAsymmetric(a: string, b: string)
    ensures Less(a, b) ==> !Less(b, a)
    decreases |a|
  {
    if |a| > 0 && |b| > 0 && a[0] == b[0] {
      LessAsymmetric(a[1..], b[1..]);
    }
  }

  lemma {:induction false} LessTrichotomous(a: string, b: string)
    ensures Less(a, b) || a == b || Less(b, a)
    decreases |a|
  {
    if |a| > 0 && |b| > 0 && a[0] == b[0] {
      LessTrichotomous(a[1..], b[1..]);
      if a[1..] == b[1..] {
        assert a == [a[0]] + a[1..] && b == [b[0]] + b[1..];
      }
    }
  }

  lemma {:induction false} LessTransitive(a: string, b: string, c: string)
    requires Less(a, b) && Less(b, c)
    ensures Less(a, c)
    decreases |a|
  {
    if |a| > 0 && a[0] == b[0] && b[0] == c[0] {
      LessTransitive(a[1..], b[1..], c[1..]);
    }
  }

  /**
   * The comparator `sort` uses for strings: -1 when n1 < n2, 1 when n1 > n2,
   * 0 otherwise.
   */
  function StringComparator(n1: string, n2: string): (r: int)
    ensures r == -1 <==> Less(n1, n2)
    ensures r == 1 <==> Less(n2, n1)
    ensures r == 0 <==> n1 == n2
    ensures -1 <= r <= 1
  {
    LessAsymmetric(n1, n2);
    LessTrichotomous(n1, n2);
    LessIrreflexive(n1);
    if Less(n1, n2) then -1
    else if Less(n2, n1) then 1
    else 0
  }

  lemma StringComparatorAntisymmetric(n1: string, n2: string)
    ensures StringComparator(n1, n2) == -StringComparator(n2, n1)
  {
  }

  // ---------------------------------------------------------------------
  // Comparators and sortedness
  // ---------------------------------------------------------------------

  /** Any two elements are ordered one way or the other. */
  ghost predicate Total<T(!new)>(cmp: (T, T) -> int) {
    forall x, y :: cmp(x, y) <= 0 || cmp(y, x) <= 0
  }

  ghost predicate Transitive<T(!new)>(cmp: (T, T) -> int) {
    forall x, y, z :: cmp(x, y) <= 0 && cmp(y, z) <= 0 ==> cmp(x, z) <= 0
  }

  /** Each element is at most its successor. */
  ghost predicate AdjacentSorted<T>(s: seq<T>, cmp: (T, T) -> int) {
    forall k :: 0 <= k < |s| - 1 ==> cmp(s[k], s[k + 1]) <= 0
  }

  /** Every element is at most every later element. */
  ghost predicate Sorted<T>(s: seq<T>, cmp: (T, T) -> int) {
    forall i, j :: 0 <= i < j < |s| ==> cmp(s[i], s[j]) <= 0
  }

  lemma {:induction false} AdjacentSortedIsSorted<T(!new)>(s: seq<T>, cmp: (T, T) -> int)
    requires Transitive(cmp)
    requires AdjacentSorted(s, cmp)
    ensures Sorted(s, cmp)
    decreases |s|
  {
    if |s| > 1 {
      var t := s[1..];
      assert AdjacentSorted(t, cmp) by {
        forall k | 0 <= k < |t| - 1 ensures cmp(t[k], t[k + 1]) <= 0 {
          assert t[k] == s[k + 1] && t[k + 1] == s[k + 2];
        }
      }
      AdjacentSortedIsSorted(t, cmp);
      forall i, j | 0 <= i < j < |s| ensures cmp(s[i], s[j]) <= 0 {
        if i > 0 {
          assert s[i] == t[i - 1] && s[j] == t[j - 1];
        } else if j > 1 {
          assert s[1] == t[0] && s[j] == t[j - 1];
          assert cmp(s[0], s[1]) <= 0 && cmp(s[1], s[j]) <= 0;
        }
      }
    }
  }

  lemma StringComparatorTotal()
    ensures Total(StringComparator)
  {
  }

  lemma StringComparatorTransitive()
    ensures Transitive(StringComparator)
  {
    forall x, y, z | StringComparator(x, y) <= 0 && StringComparator(y, z) <= 0
      ensures StringComparator(x, z) <= 0
    {
      if Less(x, y) && Less(y, z) {
        LessTransitive(x, y, z);
      }
    }
  }

  // ---------------------------------------------------------------------
  // The in-place sort
  // ---------------------------------------------------------------------

  /** Exchanges two neighbouring elements. */
  method SwapDown<T>(list: array<T>, j: int)
    requires 0 < j < list.Length
    modifies list
    ensures list[..] == old(list[..])[j - 1 := old(list[j])][j := old(list[j - 1])]
    ensures multiset(list[..]) == multiset(old(list[..]))
  {
    list[j - 1], list[j] := list[j], list[j - 1];
  }

  /**
   * The state of one insertion pass with the moving element at `j`: the
   * elements before it and the elements after it are each in order, and the
   * ones on either side of it are in order with each other.
   */
  ghost predicate InsertionState<T>(s: seq<T>, j: int, i: int, cmp: (T, T) -> int)
    requires 0 <= j <= i < |s|
  {
    && (forall k :: 0 <= k < j - 1 ==> cmp(s[k], s[k + 1]) <= 0)
    && (forall k :: j <= k < i ==> cmp(s[k], s[k + 1]) <= 0)
    && (0 < j < i ==> cmp(s[j - 1], s[j + 1]) <= 0)
  }

  /** Swapping the moving element past a larger neighbour keeps the state. */
  lemma InsertionStep<T(!new)>(s: seq<T>, t: seq<T>, j: int, i: int, cmp: (T, T) -> int)
    requires 0 < j <= i < |s|
    requires Total(cmp)
    requires InsertionState(s, j, i, cmp)
    requires cmp(s[j - 1], s[j]) > 0
    requires t == s[j - 1 := s[j]][j := s[j - 1]]
    ensures InsertionState(t, j - 1, i, cmp)
  {
    assert cmp(t[j - 1], t[j]) <= 0;
  }

  /**
   * One pass of insertion: moves `list[i]` down past every larger element,
   * so that the sorted prefix `list[..i]` grows by one.
   */
  method Insert<T(!new)>(list: array<T>, i: int, cmp: (T, T) -> int)
    requires 0 <= i < list.Length
    requires Total(cmp) ==> AdjacentSorted(list[..i], cmp)
    modifies list
    ensures Total(cmp) ==> AdjacentSorted(list[..i + 1], cmp)
    ensures multiset(list[..]) == multiset(old(list[..]))
  {
    var j := i;
    while j > 0 && cmp(list[j - 1], list[j]) > 0
      invariant 0 <= j <= i
      invariant Total(cmp) ==> InsertionState(list[..], j, i, cmp)
      invariant multiset(list[..]) == multiset(old(list[..]))
    {
      ghost var before := list[..];
      SwapDown(list, j);
      if Total(cmp) {
        InsertionStep(before, list[..], j, i, cmp);
      }
      j := j - 1;
    }
  }

  /**
   * Reorders `list` in place. Whatever the comparator, the array keeps its
   * length and its multiset of elements; when `cmp` orders every pair one
   * way or the other, each element ends at most its successor. The latter is
   * a property of this insertion sort: ECMAScript promises order only for a
   * consistent comparator, which is also transitive.
   */
  method Sort<T(!new)>(list: array<T>, cmp: (T, T) -> int)
    modifies list
    ensures Total(cmp) ==> AdjacentSorted(list[..], cmp)
    ensures multiset(list[..]) == multiset(old(list[..]))
  {
    var i := 0;
    while i < list.Length
      invariant 0 <= i <= list.Length
      invariant Total(cmp) ==> AdjacentSorted(list[..i], cmp)
      invariant multiset(list[..]) == multiset(old(list[..]))
    {
      Insert(list, i, cmp);
      i := i + 1;
    }
    assert list[..] == list[..list.Length];
  }

  /** `Collections.sort` on a `string[]`. */
  method SortStrings(list: array<string>)
    modifies list
    ensures Sorted(list[..], StringComparator)
    ensures multiset(list[..]) == multiset(old(list[..]))
  {
    StringComparatorTotal();
    Sort(list, StringComparator);
    StringComparatorTransitive();
    AdjacentSortedIsSorted(list[..], StringComparator);
  }

  /**
   * `Collections.sort` on a `Comparable[]`: the order is `compareTo` and
   * nothing else. ECMAScript promises a sorted result only for a
   * consistent `compareTo`, one that is total and transitive (the second
   * clause below), and leaves the order implementation-defined otherwise;
   * the first clause holds of this insertion sort under totality alone. The
   * elements are kept whatever `compareTo` does.
   */
  method SortComparables<C(!new)>(list: array<C>, compareTo: (C, C) -> int)
    modifies list
    ensures Total(compareTo) ==> AdjacentSorted(list[..], compareTo)
    ensures Total(compareTo) && Transitive(compareTo) ==> Sorted(list[..], compareTo)
    ensures multiset(list[..]) == multiset(old(list[..]))
  {
    Sort(list, compareTo);
    if Total(compareTo) && Transitive(compareTo) {
      AdjacentSortedIsSorted(list[..], compareTo);
    }
  }
}
