/**
 * The alphabetical comparators: CodingAlphabeticalComparator (system first, then
 * code) and PrimitiveTypeOfStringAlphabeticalComparator (the string value), both
 * built on StringUtils.compare with nulls first.
 */
module CodingOrder {
  import opened Wrappers
  import opened JavaStrings
  import opened StableSort
  import opened FhirModel

  /**
   * CodingAlphabeticalComparator.compare. The hapi-fhir-storage and hapi-fhir-base
   * copies are the same code, so one function stands for both.
   */
  function CompareCodings(o1: Coding, o2: Coding): (r: int)
    ensures o1.system != o2.system ==> r == NullSafeCompare(o1.system, o2.system)
    ensures o1.system == o2.system ==> r == NullSafeCompare(o1.code, o2.code)
    ensures r == 0 <==> o1.system == o2.system && o1.code == o2.code
    ensures o1.system.None? && o2.system.Some? ==> r < 0
    ensures o1.system == o2.system && o1.code.None? && o2.code.Some? ==> r < 0
  {
    var systemCompareResult := NullSafeCompare(o1.system, o2.system);
    if systemCompareResult != 0 then systemCompareResult
    else NullSafeCompare(o1.code, o2.code)
  }

  /** PrimitiveTypeOfStringAlphabeticalComparator.compare. */
  function ComparePrimitiveStrings(o1: StringElement, o2: StringElement): (r: int)
    ensures r == 0 <==> o1.value == o2.value
    ensures o1.value.None? && o2.value.Some? ==> r < 0
    ensures o1.value.Some? && o2.value.None? ==> r > 0
    ensures o1.value.Some? && o2.value.Some? ==> Sign(r) == Sign(CompareTo(o1.value.value, o2.value.value))
  {
    NullSafeCompare(o1.value, o2.value)
  }

  /** The coding comparator meets the java.util.Comparator contract, as List.sort needs. */
  lemma CompareCodingsIsComparator()
    ensures IsComparator(CompareCodings)
  {
    forall x, y ensures AntisymmetricAt(CompareCodings, x, y) {
      NullSafeCompareAntisymmetric(x.system, y.system);
      NullSafeCompareAntisymmetric(x.code, y.code);
    }
    forall x, y, z ensures TransitiveAt(CompareCodings, x, y, z) {
      if CompareCodings(x, y) > 0 && CompareCodings(y, z) > 0 {
        if x.system != y.system && y.system != z.system {
          NullSafeCompareTransitive(x.system, y.system, z.system);
        } else if x.system == y.system && y.system == z.system {
          NullSafeCompareTransitive(x.code, y.code, z.code);
        }
      }
    }
    forall x, y, z ensures ConsistentAt(CompareCodings, x, y, z) {
    }
  }

  /** The profile comparator meets the java.util.Comparator contract. */
  lemma ComparePrimitiveStringsIsComparator()
    ensures IsComparator(ComparePrimitiveStrings)
  {
    forall x, y ensures AntisymmetricAt(ComparePrimitiveStrings, x, y) {
      NullSafeCompareAntisymmetric(x.value, y.value);
    }
    forall x, y, z ensures TransitiveAt(ComparePrimitiveStrings, x, y, z) {
      if ComparePrimitiveStrings(x, y) > 0 && ComparePrimitiveStrings(y, z) > 0 {
        NullSafeCompareTransitive(x.value, y.value, z.value);
      }
    }
    forall x, y, z ensures ConsistentAt(ComparePrimitiveStrings, x, y, z) {
    }
  }

  /** What tags.sort(new CodingAlphabeticalComparator()) leaves in the list. */
  function AlphabeticalCodings(codings: seq<Coding>): seq<Coding>
  {
    Sort(codings, CompareCodings)
  }

  /** What profiles.sort(new PrimitiveTypeOfStringAlphabeticalComparator()) leaves in the list. */
  function AlphabeticalProfiles(profiles: seq<StringElement>): seq<StringElement>
  {
    Sort(profiles, ComparePrimitiveStrings)
  }

  /**
   * Sorting codings: non-decreasing by (system, code), a permutation of the input,
   * codings with equal keys in their input order, and a second sort changes nothing.
   */
  lemma AlphabeticalCodingsSpec(codings: seq<Coding>)
    ensures Sorted(AlphabeticalCodings(codings), CompareCodings)
    ensures multiset(AlphabeticalCodings(codings)) == multiset(codings)
    ensures Stable(AlphabeticalCodings(codings), codings, CompareCodings)
    ensures AlphabeticalCodings(AlphabeticalCodings(codings)) == AlphabeticalCodings(codings)
  {
    CompareCodingsIsComparator();
    SortSorted(codings, CompareCodings);
    SortPermutation(codings, CompareCodings);
    SortStable(codings, CompareCodings);
    SortIdempotent(codings, CompareCodings);
  }

  /** The same four facts for profiles, ordered by string value. */
  lemma AlphabeticalProfilesSpec(profiles: seq<StringElement>)
    ensures Sorted(AlphabeticalProfiles(profiles), ComparePrimitiveStrings)
    ensures multiset(AlphabeticalProfiles(profiles)) == multiset(profiles)
    ensures Stable(AlphabeticalProfiles(profiles), profiles, ComparePrimitiveStrings)
    ensures AlphabeticalProfiles(AlphabeticalProfiles(profiles)) == AlphabeticalProfiles(profiles)
  {
    ComparePrimitiveStringsIsComparator();
    SortSorted(profiles, ComparePrimitiveStrings);
    SortPermutation(profiles, ComparePrimitiveStrings);
    SortStable(profiles, ComparePrimitiveStrings);
    SortIdempotent(profiles, ComparePrimitiveStrings);
  }

  /**
   * Two orderings of the same codings, no two sharing a (system, code) pair, sort to
   * the same list: a reordered resubmission leaves the stored tags as they were.
   */
  lemma ReorderedCodingsSortAlike(c1: seq<Coding>, c2: seq<Coding>)
    requires multiset(c1) == multiset(c2) && KeyDistinct(c1, CompareCodings)
    ensures AlphabeticalCodings(c1) == AlphabeticalCodings(c2)
  {
    CompareCodingsIsComparator();
    ReorderedInputSortsAlike(c1, c2, CompareCodings);
  }

  /** The same for profiles with distinct values. */
  lemma ReorderedProfilesSortAlike(p1: seq<StringElement>, p2: seq<StringElement>)
    requires multiset(p1) == multiset(p2) && KeyDistinct(p1, ComparePrimitiveStrings)
    ensures AlphabeticalProfiles(p1) == AlphabeticalProfiles(p2)
  {
    ComparePrimitiveStringsIsComparator();
    ReorderedInputSortsAlike(p1, p2, ComparePrimitiveStrings);
  }

  /** A coding with only a system and a code. */
  function Code(system: string, code: string): Coding
  {
    Coding(Some(system), Some(code), None)
  }

  /** Tags as created: systems sys2, sys1 crossed with codes c, b, a, systems outermost. */
  function CreatedTags(): seq<Coding>
  {
    [Code("sys2", "c"), Code("sys2", "b"), Code("sys2", "a"),
     Code("sys1", "c"), Code("sys1", "b"), Code("sys1", "a")]
  }

  /** Tags as read back: systems sys1, sys2 crossed with codes a, b, c. */
  function ExpectedTags(): seq<Coding>
  {
    [Code("sys1", "a"), Code("sys1", "b"), Code("sys1", "c"),
     Code("sys2", "a"), Code("sys2", "b"), Code("sys2", "c")]
  }

  /** The systems of the expected tags, in String.compareTo order. */
  lemma ExpectedSystemsOrdered()
    ensures CompareTo("sys1", "sys2") < 0
  {
    assert Utf16("sys1") == [0x73, 0x79, 0x73, 0x31] && Utf16("sys2") == [0x73, 0x79, 0x73, 0x32];
  }

  /** The codes of the expected tags, in String.compareTo order. */
  lemma ExpectedCodesOrdered()
    ensures CompareTo("a", "b") < 0 && CompareTo("b", "c") < 0
  {
    assert Utf16("a") == [0x61] && Utf16("b") == [0x62] && Utf16("c") == [0x63];
  }

  /** Within one system, codings follow their codes. */
  lemma CodesOrdered(system: string, x: string, y: string)
    requires CompareTo(x, y) < 0
    ensures CompareCodings(Code(system, x), Code(system, y)) < 0
  {
  }

  /** Codings of different systems follow their systems, whatever their codes. */
  lemma SystemsOrdered(s: string, t: string, x: string, y: string)
    requires CompareTo(s, t) < 0
    ensures CompareCodings(Code(s, x), Code(t, y)) < 0
  {
  }

  /** Two ordered systems crossed with three ordered codes, systems outermost, are sorted. */
  lemma GridSorted(s: string, t: string, x: string, y: string, z: string)
    requires CompareTo(s, t) < 0 && CompareTo(x, y) < 0 && CompareTo(y, z) < 0
    ensures Sorted([Code(s, x), Code(s, y), Code(s, z), Code(t, x), Code(t, y), Code(t, z)], CompareCodings)
  {
    CodesOrdered(s, x, y);
    CodesOrdered(s, y, z);
    SystemsOrdered(s, t, z, x);
    CodesOrdered(t, x, y);
    CodesOrdered(t, y, z);
    CompareCodingsIsComparator();
    SortedSix(Code(s, x), Code(s, y), Code(s, z), Code(t, x), Code(t, y), Code(t, z), CompareCodings);
  }

  /** Six values, each not above the next, are sorted. */
  lemma SortedSix<T(!new)>(a: T, b: T, c: T, d: T, e: T, f: T, cmp: (T, T) -> int)
    requires IsComparator(cmp)
    requires cmp(a, b) <= 0 && cmp(b, c) <= 0 && cmp(c, d) <= 0 && cmp(d, e) <= 0 && cmp(e, f) <= 0
    ensures Sorted([a, b, c, d, e, f], cmp)
  {
    var s := [a, b, c, d, e, f];
    forall i | 0 <= i < |s| - 1 ensures cmp(s[i], s[i + 1]) <= 0 {
      assert i in {0, 1, 2, 3, 4};
    }
    SortedByNeighbours(s, cmp);
  }

  lemma ExpectedTagsSorted()
    ensures Sorted(ExpectedTags(), CompareCodings)
  {
    ExpectedSystemsOrdered();
    ExpectedCodesOrdered();
    GridSorted("sys1", "sys2", "a", "b", "c");
  }

  lemma ExpectedTagsKeyDistinct()
    ensures KeyDistinct(ExpectedTags(), CompareCodings)
  {
    var e := ExpectedTags();
    forall i, j | 0 <= i < |e| && 0 <= j < |e| && CompareCodings(e[i], e[j]) == 0 ensures e[i] == e[j] {
      assert e[i].display.None? && e[j].display.None?;
    }
  }

  /** Three values reversed are the same multiset. */
  lemma ThreeReversed<T>(a: T, b: T, c: T)
    ensures multiset([a, b, c]) == multiset([c, b, a])
  {
    calc {
      multiset([a, b, c]);
      multiset{a, b, c};
      multiset{c, b, a};
      multiset([c, b, a]);
    }
  }

  /** Three values with the first two swapped are the same multiset. */
  lemma ThreeSwapped<T>(a: T, b: T, c: T)
    ensures multiset([a, b, c]) == multiset([b, a, c])
  {
    calc {
      multiset([a, b, c]);
      multiset{a, b, c};
      multiset{b, a, c};
      multiset([b, a, c]);
    }
  }

  /** The multiset of six values is that of its two halves. */
  lemma SixHalves<T>(a: T, b: T, c: T, d: T, e: T, f: T)
    ensures multiset([a, b, c, d, e, f]) == multiset([a, b, c]) + multiset([d, e, f])
  {
    assert [a, b, c, d, e, f] == [a, b, c] + [d, e, f];
  }

  /** Six values reversed, or with the first two of each half swapped, are the same multiset. */
  lemma SixRearranged<T>(a: T, b: T, c: T, d: T, e: T, f: T)
    ensures multiset([a, b, c, d, e, f]) == multiset([f, e, d, c, b, a])
    ensures multiset([a, b, c, d, e, f]) == multiset([b, a, c, e, d, f])
  {
    SixHalves(a, b, c, d, e, f);
    SixHalves(f, e, d, c, b, a);
    SixHalves(b, a, c, e, d, f);
    ThreeReversed(a, b, c);
    ThreeReversed(d, e, f);
    ThreeSwapped(a, b, c);
    ThreeSwapped(d, e, f);
  }

  /** The created and the expected tags are the same six codings. */
  lemma SameTags()
    ensures multiset(ExpectedTags()) == multiset(CreatedTags())
  {
    SixRearranged(Code("sys1", "a"), Code("sys1", "b"), Code("sys1", "c"),
                  Code("sys2", "a"), Code("sys2", "b"), Code("sys2", "c"));
  }

  /**
   * Tags created as sys2/sys1 crossed with c, b, a are stored as sys1 a, b, c followed
   * by sys2 a, b, c.
   */
  lemma CreatedTagsExample()
    ensures AlphabeticalCodings(CreatedTags()) == ExpectedTags()
  {
    ExpectedTagsSorted();
    ExpectedTagsKeyDistinct();
    SameTags();
    AlphabeticalCodingsSpec(CreatedTags());
    CompareCodingsIsComparator();
    SortedPermutationUnique(ExpectedTags(), AlphabeticalCodings(CreatedTags()), CompareCodings);
  }

  /**
   * The update resubmits the same tags with codes ordered b, c, a: they sort to the
   * list stored at creation, so the update finds nothing changed.
   */
  lemma ReorderedTagsExample()
    ensures AlphabeticalCodings([Code("sys2", "b"), Code("sys2", "c"), Code("sys2", "a"),
                                 Code("sys1", "b"), Code("sys1", "c"), Code("sys1", "a")])
         == AlphabeticalCodings(CreatedTags())
  {
    var reordered := [Code("sys2", "b"), Code("sys2", "c"), Code("sys2", "a"),
                      Code("sys1", "b"), Code("sys1", "c"), Code("sys1", "a")];
    assert KeyDistinct(reordered, CompareCodings) by {
      forall i, j | 0 <= i < |reordered| && 0 <= j < |reordered| && CompareCodings(reordered[i], reordered[j]) == 0
        ensures reordered[i] == reordered[j]
      {
        assert reordered[i].display.None? && reordered[j].display.None?;
      }
    }
    SixRearranged(Code("sys2", "c"), Code("sys2", "b"), Code("sys2", "a"),
                  Code("sys1", "c"), Code("sys1", "b"), Code("sys1", "a"));
    ReorderedCodingsSortAlike(reordered, CreatedTags());
  }
}
