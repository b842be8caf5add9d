/**
 * The TagOrderInterceptor of ca.uhn.fhir.storage.interceptor: each storage hook hands
 * the resource's meta to the sorter given at construction.
 */
module TagOrderHooks {
  import opened FhirModel
  import opened MetaTagSorter

  class TagOrderInterceptor {
    /** The sorter passed to the constructor; no hook uses any other. */
    const tagSorter: MetaTagSorterAlphabetical

    constructor (theTagSorter: MetaTagSorterAlphabetical)
      ensures tagSorter == theTagSorter
    {
      tagSorter := theTagSorter;
    }

    /** sortResourceTags: the resource's meta goes to the sorter once. */
    method SortResourceTags(resource: Resource)
      modifies resource.meta, tagSorter
      ensures resource.meta.Value() == SortedValue(old(resource.meta.Value()))
      ensures tagSorter.sorted == old(tagSorter.sorted) + [resource.meta]
    {
      tagSorter.Sort(resource.meta);
    }

    /** STORAGE_PRESTORAGE_RESOURCE_CREATED: the request plays no part. */
    method ResourcePreCreate<Request>(request: Request, resource: Resource)
      modifies resource.meta, tagSorter
      ensures resource.meta.Value() == SortedValue(old(resource.meta.Value()))
      ensures IsSorted(resource.meta.Value())
      ensures tagSorter.sorted == old(tagSorter.sorted) + [resource.meta]
    {
      SortResourceTags(resource);
      SortedValueSpec(old(resource.meta.Value()));
    }

    /** STORAGE_PRESTORAGE_RESOURCE_UPDATED: only the new resource is sorted. */
    method ResourcePreUpdate<Request>(request: Request, oldResource: Resource?, newResource: Resource)
      modifies newResource.meta, tagSorter
      ensures newResource.meta.Value() == SortedValue(old(newResource.meta.Value()))
      ensures IsSorted(newResource.meta.Value())
      ensures oldResource != null && oldResource.meta != newResource.meta ==>
                oldResource.meta.Value() == old(oldResource.meta.Value())
      ensures tagSorter.sorted == old(tagSorter.sorted) + [newResource.meta]
    {
      SortResourceTags(newResource);
      SortedValueSpec(old(newResource.meta.Value()));
    }

    /**
     * STORAGE_PRESHOW_RESOURCES: every shown resource's meta goes to the sorter once,
     * in order. A meta shared by two resources is sorted twice, which changes nothing
     * the second time.
     */
    method ResourcePreShow(details: seq<Resource>)
      modifies (set m | m in MetasOf(details)), tagSorter
      ensures forall r | r in details :: r.meta.Value() == SortedValue(old(r.meta.Value()))
      ensures forall r | r in details :: IsSorted(r.meta.Value())
      ensures tagSorter.sorted == old(tagSorter.sorted) + MetasOf(details)
    {
      ghost var start := map m | m in MetasOf(details) :: m.Value();
      var i := 0;
      while i < |details|
        invariant 0 <= i <= |details|
        invariant SortedUpTo(details, i, start)
        invariant tagSorter.sorted == old(tagSorter.sorted) + MetasOf(details[..i])
      {
        SortShown(details, i, start, old(tagSorter.sorted));
        i := i + 1;
      }
      assert details[..i] == details;
      forall r | r in details
        ensures r.meta.Value() == SortedValue(old(r.meta.Value())) && IsSorted(r.meta.Value())
      {
        SortedValueSpec(old(r.meta.Value()));
      }
    }

    /** One pass of the preShow loop: the i-th resource's meta goes to the sorter. */
    method SortShown(details: seq<Resource>, i: nat, ghost start: map<Meta, MetaValue>, ghost before: seq<Meta>)
      requires i < |details| && SortedUpTo(details, i, start)
      requires tagSorter.sorted == before + MetasOf(details[..i])
      modifies details[i].meta, tagSorter
      ensures SortedUpTo(details, i + 1, start)
      ensures tagSorter.sorted == before + MetasOf(details[..i + 1])
    {
      var m := details[i].meta;
      ghost var done := MetasOf(details[..i]);
      if m in done {
        SortedValueIdempotent(start[m]);
      }
      MetasOfNext(details, i);
      assert before + MetasOf(details[..i + 1]) == tagSorter.sorted + [m];
      SortResourceTags(details[i]);
    }
  }
}
