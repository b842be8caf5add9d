/**
 * The TagOrderInterceptor of ca.uhn.fhir.storage: the same three hooks, but each
 * sorts the meta lists itself with the two alphabetical comparators.
 */
module StorageTagOrder {
  import opened StableSort
  import opened FhirModel
  import opened CodingOrder
  import opened MetaTagSorter

  class TagOrderInterceptor {
    constructor ()
    {
    }

    /**
     * sortResourceTags: tag and security sorted with the coding comparator, profile
     * with the string comparator, each by List.sort.
     */
    method SortResourceTags(resource: Resource)
      modifies resource.meta
      ensures resource.meta.Value() == SortedValue(old(resource.meta.Value()))
    {
      var meta := resource.meta;
      meta.tag := Sort(meta.tag, CompareCodings);
      meta.security := Sort(meta.security, CompareCodings);
      meta.profile := Sort(meta.profile, ComparePrimitiveStrings);
    }

    /** STORAGE_PRESTORAGE_RESOURCE_CREATED: the request plays no part. */
    method ResourcePreCreate<Request>(request: Request, resource: Resource)
      modifies resource.meta
      ensures resource.meta.Value() == SortedValue(old(resource.meta.Value()))
      ensures IsSorted(resource.meta.Value())
    {
      SortResourceTags(resource);
      SortedValueSpec(old(resource.meta.Value()));
    }

    /** STORAGE_PRESTORAGE_RESOURCE_UPDATED: only the new resource is sorted. */
    method ResourcePreUpdate<Request>(request: Request, oldResource: Resource?, newResource: Resource)
      modifies newResource.meta
      ensures newResource.meta.Value() == SortedValue(old(newResource.meta.Value()))
      ensures IsSorted(newResource.meta.Value())
      ensures oldResource != null && oldResource.meta != newResource.meta ==>
                oldResource.meta.Value() == old(oldResource.meta.Value())
    {
      SortResourceTags(newResource);
      SortedValueSpec(old(newResource.meta.Value()));
    }

    /**
     * STORAGE_PRESHOW_RESOURCES: every shown resource is sorted; a meta shared by two
     * resources ends sorted once over.
     */
    method ResourcePreShow(details: seq<Resource>)
      modifies (set m | m in MetasOf(details))
      ensures forall r | r in details :: r.meta.Value() == SortedValue(old(r.meta.Value()))
      ensures forall r | r in details :: IsSorted(r.meta.Value())
    {
      ghost var start := map m | m in MetasOf(details) :: m.Value();
      var i := 0;
      while i < |details|
        invariant 0 <= i <= |details|
        invariant SortedUpTo(details, i, start)
      {
        SortShown(details, i, start);
        i := i + 1;
      }
      assert details[..i] == details;
      forall r | r in details
        ensures r.meta.Value() == SortedValue(old(r.meta.Value())) && IsSorted(r.meta.Value())
      {
        SortedValueSpec(old(r.meta.Value()));
      }
    }

    /** One pass of the preShow loop: the i-th resource is sorted. */
    method SortShown(details: seq<Resource>, i: nat, ghost start: map<Meta, MetaValue>)
      requires i < |details| && SortedUpTo(details, i, start)
      modifies details[i].meta
      ensures SortedUpTo(details, i + 1, start)
    {
      var m := details[i].meta;
      ghost var done := MetasOf(details[..i]);
      if m in done {
        SortedValueIdempotent(start[m]);
      }
      SortResourceTags(details[i]);
      MetasOfNext(details, i);
    }
  }
}
