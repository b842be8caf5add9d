/**
 * MetaTagSorterAlphabetical: sorts a meta's tags and security labels by (system,
 * code) and its profiles by value, each list in place and independently.
 */
module MetaTagSorter {
  import opened Wrappers
  import opened StableSort
  import opened FhirModel
  import opened CodingOrder

  /** A meta's contents after sort(meta): the three lists sorted, all else as it was. */
  function SortedValue(v: MetaValue): (r: MetaValue)
    ensures r.(tag := v.tag, security := v.security, profile := v.profile) == v
  {
    v.(tag := AlphabeticalCodings(v.tag),
       security := AlphabeticalCodings(v.security),
       profile := AlphabeticalProfiles(v.profile))
  }

  /** All three lists are in alphabetical order. */
  ghost predicate IsSorted(v: MetaValue)
  {
    && Sorted(v.tag, CompareCodings)
    && Sorted(v.security, CompareCodings)
    && Sorted(v.profile, ComparePrimitiveStrings)
  }

  /**
   * Sorting a meta: each list ends sorted, as a permutation of its old contents with
   * equal keys in their old order; tags and security labels are sorted apart, not
   * merged; and sorting a second time changes nothing.
   */
  lemma SortedValueSpec(v: MetaValue)
    ensures IsSorted(SortedValue(v))
    ensures multiset(SortedValue(v).tag) == multiset(v.tag)
    ensures multiset(SortedValue(v).security) == multiset(v.security)
    ensures multiset(SortedValue(v).profile) == multiset(v.profile)
    ensures Stable(SortedValue(v).tag, v.tag, CompareCodings)
    ensures Stable(SortedValue(v).security, v.security, CompareCodings)
    ensures Stable(SortedValue(v).profile, v.profile, ComparePrimitiveStrings)
    ensures SortedValue(SortedValue(v)) == SortedValue(v)
  {
    AlphabeticalCodingsSpec(v.tag);
    AlphabeticalCodingsSpec(v.security);
    AlphabeticalProfilesSpec(v.profile);
  }

  /** Sorting a meta a second time changes nothing. */
  lemma SortedValueIdempotent(v: MetaValue)
    ensures SortedValue(SortedValue(v)) == SortedValue(v)
  {
    SortedValueSpec(v);
  }

  /** The metas of the first i resources hold their sorted starting value, the others their starting value. */
  ghost predicate SortedUpTo(details: seq<Resource>, i: nat, start: map<Meta, MetaValue>)
    requires i <= |details|
    reads set m | m in MetasOf(details)
  {
    forall m | m in MetasOf(details) ::
      m in start && m.Value() == if m in MetasOf(details[..i]) then SortedValue(start[m]) else start[m]
  }

  /**
   * Two metas whose lists hold the same key-distinct entries in different orders
   * are equal once sorted, if their other fields agree.
   */
  lemma ReorderedMetaSortsAlike(v1: MetaValue, v2: MetaValue)
    requires v1.(tag := v2.tag, security := v2.security, profile := v2.profile) == v2
    requires multiset(v1.tag) == multiset(v2.tag) && KeyDistinct(v1.tag, CompareCodings)
    requires multiset(v1.security) == multiset(v2.security) && KeyDistinct(v1.security, CompareCodings)
    requires multiset(v1.profile) == multiset(v2.profile) && KeyDistinct(v1.profile, ComparePrimitiveStrings)
    ensures SortedValue(v1) == SortedValue(v2)
  {
    ReorderedCodingsSortAlike(v1.tag, v2.tag);
    ReorderedCodingsSortAlike(v1.security, v2.security);
    ReorderedProfilesSortAlike(v1.profile, v2.profile);
  }

  class MetaTagSorterAlphabetical {
    /** The metas passed to Sort, in call order: what a test double would record. */
    ghost var sorted: seq<Meta>

    constructor ()
      ensures sorted == []
    {
      sorted := [];
    }

    /** sortCodings: the codings ordered by (system, code), stably. */
    method SortCodings(codings: seq<Coding>) returns (r: seq<Coding>)
      ensures Sorted(r, CompareCodings) && multiset(r) == multiset(codings)
      ensures Stable(r, codings, CompareCodings)
      ensures r == AlphabeticalCodings(codings)
    {
      r := AlphabeticalCodings(codings);
      AlphabeticalCodingsSpec(codings);
    }

    /** sortPrimitiveStrings: the elements ordered by value, stably. */
    method SortPrimitiveStrings(list: seq<StringElement>) returns (r: seq<StringElement>)
      ensures Sorted(r, ComparePrimitiveStrings) && multiset(r) == multiset(list)
      ensures Stable(r, list, ComparePrimitiveStrings)
      ensures r == AlphabeticalProfiles(list)
    {
      r := AlphabeticalProfiles(list);
      AlphabeticalProfilesSpec(list);
    }

    /**
     * sort(meta): tags, then security labels, then profiles, each sorted on its own;
     * the other meta fields are left alone.
     */
    method Sort(meta: Meta)
      modifies this, meta
      ensures meta.Value() == SortedValue(old(meta.Value()))
      ensures IsSorted(meta.Value())
      ensures sorted == old(sorted) + [meta]
    {
      ghost var before := meta.Value();
      var tag := SortCodings(meta.tag);
      var security := SortCodings(meta.security);
      var profile := SortPrimitiveStrings(meta.profile);
      meta.tag, meta.security, meta.profile := tag, security, profile;
      sorted := sorted + [meta];
      assert meta.Value() == SortedValue(before);
      SortedValueSpec(before);
    }
  }
}
