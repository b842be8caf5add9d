/**
 * What java.util.List.sort(Comparator) guarantees: the list ends sorted by the
 * comparator, as a permutation of what it held, with elements the comparator calls
 * equal kept in their original order (the sort is stable). The algorithm Java uses is
 * not modelled; Sort below is a stable insertion sort, and StableSortUnique shows that
 * every stable sort produces the same list, so the choice does not matter.
 */
module StableSort {
  import opened JavaStrings

  /** Swapping the arguments flips the sign of the answer. */
  ghost predicate AntisymmetricAt<T>(cmp: (T, T) -> int, x: T, y: T)
  {
    Sign(cmp(x, y)) == -Sign(cmp(y, x))
  }

  /** x > y and y > z give x > z. */
  ghost predicate TransitiveAt<T>(cmp: (T, T) -> int, x: T, y: T, z: T)
  {
    cmp(x, y) > 0 && cmp(y, z) > 0 ==> cmp(x, z) > 0
  }

  /** Elements that compare equal compare alike against everything else. */
  ghost predicate ConsistentAt<T>(cmp: (T, T) -> int, x: T, y: T, z: T)
  {
    cmp(x, y) == 0 ==> Sign(cmp(x, z)) == Sign(cmp(y, z))
  }

  /**
   * The contract of java.util.Comparator: sign-antisymmetric, transitive, and
   * consistent on elements it calls equal. Each law is stated at a point so that
   * proofs instantiate it only where they name it.
   */
  ghost predicate IsComparator<T(!new)>(cmp: (T, T) -> int)
  {
    && (forall x, y :: AntisymmetricAt(cmp, x, y))
    && (forall x, y, z :: TransitiveAt(cmp, x, y, z))
    && (forall x, y, z :: ConsistentAt(cmp, x, y, z))
  }

  /** Non-decreasing order under the comparator. */
  ghost predicate Sorted<T>(s: seq<T>, cmp: (T, T) -> int)
  {
    forall i, j :: 0 <= i < j < |s| ==> cmp(s[i], s[j]) <= 0
  }

  /** The elements of s that the comparator calls equal to k, in their order in s. */
  function Filter<T>(s: seq<T>, cmp: (T, T) -> int, k: T): seq<T>
  {
    if s == [] then []
    else Filter(s[..|s| - 1], cmp, k) + (if cmp(s[|s| - 1], k) == 0 then [s[|s| - 1]] else [])
  }

  /** r keeps the relative order of every class of comparator-equal elements of s. */
  ghost predicate Stable<T(!new)>(r: seq<T>, s: seq<T>, cmp: (T, T) -> int)
  {
    forall k :: Filter(r, cmp, k) == Filter(s, cmp, k)
  }

  /** Places x after every element of t that does not compare greater than it. */
  function Insert<T>(t: seq<T>, x: T, cmp: (T, T) -> int): seq<T>
  {
    if t == [] || cmp(t[|t| - 1], x) <= 0 then t + [x]
    else Insert(t[..|t| - 1], x, cmp) + [t[|t| - 1]]
  }

  /** Stable insertion sort: the meaning of List.sort with comparator cmp. */
  function Sort<T>(s: seq<T>, cmp: (T, T) -> int): seq<T>
  {
    if s == [] then [] else Insert(Sort(s[..|s| - 1], cmp), s[|s| - 1], cmp)
  }

  lemma SelfEqual<T(!new)>(cmp: (T, T) -> int, x: T)
    requires IsComparator(cmp)
    ensures cmp(x, x) == 0
  {
    assert AntisymmetricAt(cmp, x, x);
  }

  lemma LeTransitive<T(!new)>(cmp: (T, T) -> int, a: T, b: T, c: T)
    requires IsComparator(cmp)
    requires cmp(a, b) <= 0 && cmp(b, c) <= 0
    ensures cmp(a, c) <= 0
  {
    assert ConsistentAt(cmp, a, b, c) && ConsistentAt(cmp, b, c, a);
    assert AntisymmetricAt(cmp, a, b) && AntisymmetricAt(cmp, b, c) && AntisymmetricAt(cmp, a, c);
    assert TransitiveAt(cmp, c, b, a);
  }

  lemma FilterAppend<T>(a: seq<T>, b: seq<T>, cmp: (T, T) -> int, k: T)
    ensures Filter(a + b, cmp, k) == Filter(a, cmp, k) + Filter(b, cmp, k)
    decreases |b|
  {
    if b == [] {
      assert a + b == a;
    } else {
      var b' := b[..|b| - 1];
      assert (a + b)[..|a + b| - 1] == a + b';
      FilterAppend(a, b', cmp, k);
    }
  }

  lemma {:induction false} InsertPermutation<T>(t: seq<T>, x: T, cmp: (T, T) -> int)
    ensures multiset(Insert(t, x, cmp)) == multiset(t) + multiset{x}
    decreases |t|
  {
    if t == [] || cmp(t[|t| - 1], x) <= 0 {
    } else {
      var t' := t[..|t| - 1];
      InsertPermutation(t', x, cmp);
      assert t == t' + [t[|t| - 1]];
    }
  }

  lemma AppendSorted<T(!new)>(a: seq<T>, l: T, cmp: (T, T) -> int)
    requires Sorted(a, cmp)
    requires forall i :: 0 <= i < |a| ==> cmp(a[i], l) <= 0
    ensures Sorted(a + [l], cmp)
  {
    var r := a + [l];
    forall i, j | 0 <= i < j < |r| ensures cmp(r[i], r[j]) <= 0 {
      if j == |a| { assert r[i] == a[i]; }
    }
  }

  lemma {:induction false} InsertSorted<T(!new)>(t: seq<T>, x: T, cmp: (T, T) -> int)
    requires IsComparator(cmp) && Sorted(t, cmp)
    ensures Sorted(Insert(t, x, cmp), cmp)
    decreases |t|
  {
    if t == [] || cmp(t[|t| - 1], x) <= 0 {
      forall i | 0 <= i < |t| ensures cmp(t[i], x) <= 0 {
        if i < |t| - 1 { LeTransitive(cmp, t[i], t[|t| - 1], x); }
      }
      AppendSorted(t, x, cmp);
    } else {
      var t', l := t[..|t| - 1], t[|t| - 1];
      InsertSorted(t', x, cmp);
      InsertPermutation(t', x, cmp);
      var u := Insert(t', x, cmp);
      forall i | 0 <= i < |u| ensures cmp(u[i], l) <= 0 {
        assert u[i] in multiset(u);
        if u[i] == x {
          assert AntisymmetricAt(cmp, x, l);
        } else {
          assert u[i] in multiset(t');
          var j :| 0 <= j < |t'| && t'[j] == u[i];
          assert t[j] == t'[j];
        }
      }
      AppendSorted(u, l, cmp);
    }
  }

  lemma {:induction false} InsertFilter<T(!new)>(t: seq<T>, x: T, cmp: (T, T) -> int, k: T)
    requires IsComparator(cmp)
    ensures Filter(Insert(t, x, cmp), cmp, k) == Filter(t, cmp, k) + (if cmp(x, k) == 0 then [x] else [])
    decreases |t|
  {
    if t == [] || cmp(t[|t| - 1], x) <= 0 {
      FilterAppend(t, [x], cmp, k);
    } else {
      var t', l := t[..|t| - 1], t[|t| - 1];
      InsertFilter(t', x, cmp, k);
      var u := Insert(t', x, cmp);
      assert (u + [l])[..|u + [l]| - 1] == u;
      assert !(cmp(x, k) == 0 && cmp(l, k) == 0) by {
        assert ConsistentAt(cmp, l, k, x) && AntisymmetricAt(cmp, k, x);
      }
    }
  }

  /** The result of Sort is ordered by the comparator. */
  lemma {:induction false} SortSorted<T(!new)>(s: seq<T>, cmp: (T, T) -> int)
    requires IsComparator(cmp)
    ensures Sorted(Sort(s, cmp), cmp)
    decreases |s|
  {
    if s != [] {
      SortSorted(s[..|s| - 1], cmp);
      InsertSorted(Sort(s[..|s| - 1], cmp), s[|s| - 1], cmp);
    }
  }

  /** Sort neither adds nor drops anything. */
  lemma {:induction false} SortPermutation<T>(s: seq<T>, cmp: (T, T) -> int)
    ensures multiset(Sort(s, cmp)) == multiset(s)
    decreases |s|
  {
    if s != [] {
      SortPermutation(s[..|s| - 1], cmp);
      InsertPermutation(Sort(s[..|s| - 1], cmp), s[|s| - 1], cmp);
      assert s == s[..|s| - 1] + [s[|s| - 1]];
    }
  }

  /** Sort keeps comparator-equal elements in their original order. */
  lemma {:induction false} SortStable<T(!new)>(s: seq<T>, cmp: (T, T) -> int)
    requires IsComparator(cmp)
    ensures Stable(Sort(s, cmp), s, cmp)
    decreases |s|
  {
    if s != [] {
      SortStable(s[..|s| - 1], cmp);
      forall k ensures Filter(Sort(s, cmp), cmp, k) == Filter(s, cmp, k) {
        InsertFilter(Sort(s[..|s| - 1], cmp), s[|s| - 1], cmp, k);
      }
    }
  }

  /** A list that is already sorted is left exactly as it is. */
  lemma {:induction false} SortOfSorted<T(!new)>(t: seq<T>, cmp: (T, T) -> int)
    requires Sorted(t, cmp)
    ensures Sort(t, cmp) == t
    decreases |t|
  {
    if t != [] {
      var t', x := t[..|t| - 1], t[|t| - 1];
      assert Sorted(t', cmp) by {
        forall i, j | 0 <= i < j < |t'| ensures cmp(t'[i], t'[j]) <= 0 {
          assert t'[i] == t[i] && t'[j] == t[j];
        }
      }
      SortOfSorted(t', cmp);
      if t' != [] {
        assert t'[|t'| - 1] == t[|t| - 2];
        assert cmp(t[|t| - 2], x) <= 0;
      }
      assert Sort(t, cmp) == Insert(t', x, cmp) == t' + [x];
      assert t == t' + [x];
    }
  }

  /** Sorting twice is the same as sorting once. */
  lemma SortIdempotent<T(!new)>(s: seq<T>, cmp: (T, T) -> int)
    requires IsComparator(cmp)
    ensures Sort(Sort(s, cmp), cmp) == Sort(s, cmp)
  {
    SortSorted(s, cmp);
    SortOfSorted(Sort(s, cmp), cmp);
  }

  /** A list whose neighbours are in order is sorted. */
  lemma {:induction false} SortedByNeighbours<T(!new)>(s: seq<T>, cmp: (T, T) -> int)
    requires IsComparator(cmp)
    requires forall i :: 0 <= i < |s| - 1 ==> cmp(s[i], s[i + 1]) <= 0
    ensures Sorted(s, cmp)
    decreases |s|
  {
    if s != [] {
      var s' := s[..|s| - 1];
      SortedByNeighbours(s', cmp);
      forall i | 0 <= i < |s'| ensures cmp(s[i], s[|s| - 1]) <= 0 {
        if i < |s'| - 1 {
          assert cmp(s'[i], s'[|s'| - 1]) <= 0;
          LeTransitive(cmp, s[i], s[|s| - 2], s[|s| - 1]);
        }
      }
      AppendSorted(s', s[|s| - 1], cmp);
      assert s == s' + [s[|s| - 1]];
    }
  }

  lemma FilterContains<T(!new)>(s: seq<T>, cmp: (T, T) -> int, k: T, i: nat)
    requires i < |s| && cmp(s[i], k) == 0
    ensures s[i] in Filter(s, cmp, k)
    decreases |s|
  {
    if i < |s| - 1 {
      FilterContains(s[..|s| - 1], cmp, k, i);
    }
  }

  lemma FilterMember<T(!new)>(s: seq<T>, cmp: (T, T) -> int, k: T, x: T)
    requires x in Filter(s, cmp, k)
    ensures exists i :: 0 <= i < |s| && s[i] == x
    decreases |s|
  {
    if x in Filter(s[..|s| - 1], cmp, k) {
      FilterMember(s[..|s| - 1], cmp, k, x);
      var i :| 0 <= i < |s| - 1 && s[..|s| - 1][i] == x;
      assert s[i] == x;
    } else {
      assert s[|s| - 1] == x;
    }
  }

  /** The last elements of two sorted lists with the same equal-element classes compare equal. */
  lemma LastsEquivalent<T(!new)>(a: seq<T>, b: seq<T>, cmp: (T, T) -> int)
    requires IsComparator(cmp)
    requires Sorted(a, cmp) && Sorted(b, cmp) && a != [] && b != []
    requires forall k :: Filter(a, cmp, k) == Filter(b, cmp, k)
    ensures cmp(a[|a| - 1], b[|b| - 1]) == 0 && cmp(b[|b| - 1], a[|a| - 1]) == 0
  {
    var la, lb := a[|a| - 1], b[|b| - 1];
    SelfEqual(cmp, la);
    SelfEqual(cmp, lb);
    FilterContains(a, cmp, la, |a| - 1);
    assert Filter(a, cmp, la) == Filter(b, cmp, la);
    FilterMember(b, cmp, la, la);
    NotAboveLast(b, cmp, la);
    FilterContains(b, cmp, lb, |b| - 1);
    assert Filter(a, cmp, lb) == Filter(b, cmp, lb);
    FilterMember(a, cmp, lb, lb);
    NotAboveLast(a, cmp, lb);
    assert AntisymmetricAt(cmp, la, lb);
  }

  /** The last elements of two sorted lists with the same equal-element classes coincide. */
  lemma StableLastEqual<T(!new)>(a: seq<T>, b: seq<T>, cmp: (T, T) -> int)
    requires IsComparator(cmp)
    requires Sorted(a, cmp) && Sorted(b, cmp) && a != [] && b != []
    requires forall k :: Filter(a, cmp, k) == Filter(b, cmp, k)
    ensures a[|a| - 1] == b[|b| - 1]
  {
    var la, lb := a[|a| - 1], b[|b| - 1];
    LastsEquivalent(a, b, cmp);
    SelfEqual(cmp, la);
    // both classes of la end with their list's last element
    var fa, fb := Filter(a, cmp, la), Filter(b, cmp, la);
    assert fa == Filter(a[..|a| - 1], cmp, la) + [la];
    assert fb == Filter(b[..|b| - 1], cmp, la) + [lb];
    assert fa[|fa| - 1] == la && fb[|fb| - 1] == lb;
  }

  /** Dropping a common last element keeps the equal-element classes equal. */
  lemma StableDropLast<T(!new)>(a': seq<T>, b': seq<T>, l: T, cmp: (T, T) -> int)
    requires forall k :: Filter(a' + [l], cmp, k) == Filter(b' + [l], cmp, k)
    ensures forall k :: Filter(a', cmp, k) == Filter(b', cmp, k)
  {
    forall k ensures Filter(a', cmp, k) == Filter(b', cmp, k) {
      var a, b := a' + [l], b' + [l];
      assert a[..|a| - 1] == a' && b[..|b| - 1] == b';
      var tail := if cmp(l, k) == 0 then [l] else [];
      assert Filter(a, cmp, k) == Filter(a', cmp, k) + tail;
      assert Filter(b, cmp, k) == Filter(b', cmp, k) + tail;
      assert Filter(a, cmp, k) == Filter(b, cmp, k);
      assert Filter(a', cmp, k) == Filter(a, cmp, k)[..|Filter(a', cmp, k)|];
      assert Filter(b', cmp, k) == Filter(b, cmp, k)[..|Filter(b', cmp, k)|];
    }
  }

  /** A list whose equal-element classes match those of a non-empty list is itself non-empty. */
  lemma NonEmptyFilter<T(!new)>(a: seq<T>, b: seq<T>, cmp: (T, T) -> int)
    requires IsComparator(cmp)
    requires forall k :: Filter(a, cmp, k) == Filter(b, cmp, k)
    ensures b != [] ==> a != []
  {
    if b != [] {
      SelfEqual(cmp, b[0]);
      FilterContains(b, cmp, b[0], 0);
      assert Filter(a, cmp, b[0]) != [];
    }
  }

  /**
   * Two sorted lists with the same equal-element classes in the same order are the
   * same list: whichever stable algorithm List.sort runs, its result is Sort's.
   */
  lemma {:induction false} StableSortUnique<T(!new)>(a: seq<T>, b: seq<T>, cmp: (T, T) -> int)
    requires IsComparator(cmp)
    requires Sorted(a, cmp) && Sorted(b, cmp)
    requires forall k :: Filter(a, cmp, k) == Filter(b, cmp, k)
    ensures a == b
    decreases |a| + |b|
  {
    NonEmptyFilter(a, b, cmp);
    NonEmptyFilter(b, a, cmp);
    if a != [] {
      StableLastEqual(a, b, cmp);
      var a', b' := a[..|a| - 1], b[..|b| - 1];
      assert a == a' + [a[|a| - 1]] && b == b' + [a[|a| - 1]];
      StableDropLast(a', b', a[|a| - 1], cmp);
      assert Sorted(a', cmp) && Sorted(b', cmp);
      StableSortUnique(a', b', cmp);
    }
  }

  /**
   * Any sorted, stable rearrangement of s is Sort(s): the model of List.sort does
   * not depend on which stable algorithm the library runs.
   */
  lemma StableSortIsSort<T(!new)>(r: seq<T>, s: seq<T>, cmp: (T, T) -> int)
    requires IsComparator(cmp)
    requires Sorted(r, cmp) && Stable(r, s, cmp)
    ensures r == Sort(s, cmp)
  {
    SortSorted(s, cmp);
    SortStable(s, cmp);
    StableSortUnique(r, Sort(s, cmp), cmp);
  }

  /** No two different elements of s are comparator-equal: the comparator's key identifies an element. */
  ghost predicate KeyDistinct<T>(s: seq<T>, cmp: (T, T) -> int)
  {
    forall i, j :: 0 <= i < |s| && 0 <= j < |s| && cmp(s[i], s[j]) == 0 ==> s[i] == s[j]
  }

  /** An element of a sorted list is not above the list's last element. */
  lemma NotAboveLast<T(!new)>(s: seq<T>, cmp: (T, T) -> int, x: T)
    requires IsComparator(cmp) && Sorted(s, cmp) && x in multiset(s)
    ensures cmp(x, s[|s| - 1]) <= 0
  {
    var i :| 0 <= i < |s| && s[i] == x;
    if i < |s| - 1 { assert cmp(s[i], s[|s| - 1]) <= 0; } else { SelfEqual(cmp, x); }
  }

  /** The last elements of two sorted, key-distinct permutations of each other coincide. */
  lemma PermutationLastEqual<T(!new)>(a: seq<T>, b: seq<T>, cmp: (T, T) -> int)
    requires IsComparator(cmp)
    requires Sorted(a, cmp) && Sorted(b, cmp) && KeyDistinct(a, cmp)
    requires multiset(a) == multiset(b) && a != [] && b != []
    ensures a[|a| - 1] == b[|b| - 1]
  {
    var la, lb := a[|a| - 1], b[|b| - 1];
    assert la in multiset(b) && lb in multiset(a);
    NotAboveLast(b, cmp, la);
    NotAboveLast(a, cmp, lb);
    assert AntisymmetricAt(cmp, la, lb);
    var j :| 0 <= j < |a| && a[j] == lb;
    assert cmp(a[|a| - 1], a[j]) == 0;
  }

  /** A common last element cancels from two equal multisets. */
  lemma CancelLast<T>(a': seq<T>, b': seq<T>, l: T)
    requires multiset(a' + [l]) == multiset(b' + [l])
    ensures multiset(a') == multiset(b')
  {
    forall x ensures multiset(a')[x] == multiset(b')[x] {
      assert multiset(a' + [l])[x] == multiset(a')[x] + multiset([l])[x];
      assert multiset(b' + [l])[x] == multiset(b')[x] + multiset([l])[x];
    }
  }

  /** Dropping a common last element keeps the lists permutations of each other. */
  lemma DropLastPermutation<T>(a: seq<T>, b: seq<T>)
    requires multiset(a) == multiset(b)
    requires a != [] && b != [] && a[|a| - 1] == b[|b| - 1]
    ensures multiset(a[..|a| - 1]) == multiset(b[..|b| - 1])
  {
    assert a == a[..|a| - 1] + [a[|a| - 1]];
    assert b == b[..|b| - 1] + [a[|a| - 1]];
    CancelLast(a[..|a| - 1], b[..|b| - 1], a[|a| - 1]);
  }

  /** Dropping the last element keeps a list key-distinct. */
  lemma DropLastKeyDistinct<T>(a: seq<T>, cmp: (T, T) -> int)
    requires KeyDistinct(a, cmp) && a != []
    ensures KeyDistinct(a[..|a| - 1], cmp)
  {
    var a' := a[..|a| - 1];
    forall i, j | 0 <= i < |a'| && 0 <= j < |a'| ensures cmp(a'[i], a'[j]) == 0 ==> a'[i] == a'[j] {
      assert a'[i] == a[i] && a'[j] == a[j];
    }
  }

  /** Two sorted lists holding the same key-distinct elements are identical. */
  lemma {:induction false} SortedPermutationUnique<T(!new)>(a: seq<T>, b: seq<T>, cmp: (T, T) -> int)
    requires IsComparator(cmp)
    requires Sorted(a, cmp) && Sorted(b, cmp) && KeyDistinct(a, cmp)
    requires multiset(a) == multiset(b)
    ensures a == b
    decreases |a|
  {
    assert |b| == |a| by { assert |multiset(a)| == |multiset(b)|; }
    if a != [] {
      PermutationLastEqual(a, b, cmp);
      DropLastPermutation(a, b);
      DropLastKeyDistinct(a, cmp);
      var a', b' := a[..|a| - 1], b[..|b| - 1];
      assert Sorted(a', cmp) && Sorted(b', cmp);
      SortedPermutationUnique(a', b', cmp);
      assert a == a' + [a[|a| - 1]] && b == b' + [b[|b| - 1]];
    }
  }

  /**
   * Two orderings of the same key-distinct elements sort to the identical list; this
   * is why resubmitting reordered tags leaves a resource's meta unchanged.
   */
  lemma ReorderedInputSortsAlike<T(!new)>(s1: seq<T>, s2: seq<T>, cmp: (T, T) -> int)
    requires IsComparator(cmp)
    requires multiset(s1) == multiset(s2) && KeyDistinct(s1, cmp)
    ensures Sort(s1, cmp) == Sort(s2, cmp)
  {
    SortSorted(s1, cmp);
    SortSorted(s2, cmp);
    SortPermutation(s1, cmp);
    SortPermutation(s2, cmp);
    var r := Sort(s1, cmp);
    assert KeyDistinct(r, cmp) by {
      forall i, j | 0 <= i < |r| && 0 <= j < |r| ensures cmp(r[i], r[j]) == 0 ==> r[i] == r[j] {
        assert r[i] in multiset(s1) && r[j] in multiset(s1);
        var i' :| 0 <= i' < |s1| && s1[i'] == r[i];
        var j' :| 0 <= j' < |s1| && s1[j'] == r[j];
      }
    }
    SortedPermutationUnique(r, Sort(s2, cmp), cmp);
  }
}
