/**
 * The parts of a FHIR resource the tag-ordering code touches: a resource owns a
 * meta element, whose tag, security and profile lists are reordered in place.
 */
module FhirModel {
  import opened Wrappers

  /** IBaseCoding: system and code are what the comparators read; display rides along. */
  datatype Coding = Coding(system: Option<string>, code: Option<string>, display: Option<string>)

  /**
   * IPrimitiveType<String>, as a profile canonical: the string value, plus the
   * element id that the comparator does not look at.
   */
  datatype StringElement = StringElement(value: Option<string>, elementId: Option<string>)

  /** The contents of a meta element at one moment. */
  datatype MetaValue = MetaValue(
    tag: seq<Coding>,
    security: seq<Coding>,
    profile: seq<StringElement>,
    versionId: Option<string>,
    lastUpdated: Option<string>,
    source: Option<string>)

  /** IBaseMetaType: three sortable lists and the other meta fields. */
  class Meta {
    var tag: seq<Coding>
    var security: seq<Coding>
    var profile: seq<StringElement>
    var versionId: Option<string>
    var lastUpdated: Option<string>
    var source: Option<string>

    constructor (tag: seq<Coding>, security: seq<Coding>, profile: seq<StringElement>)
      ensures this.tag == tag && this.security == security && this.profile == profile
      ensures versionId.None? && lastUpdated.None? && source.None?
    {
      this.tag := tag;
      this.security := security;
      this.profile := profile;
      versionId := None;
      lastUpdated := None;
      source := None;
    }

    /** Every field of the meta, as a value. */
    function Value(): MetaValue
      reads this
    {
      MetaValue(tag, security, profile, versionId, lastUpdated, source)
    }
  }

  /** IBaseResource: getMeta always hands back the resource's own meta object. */
  class Resource {
    const meta: Meta

    constructor (meta: Meta)
      ensures this.meta == meta
    {
      this.meta := meta;
    }
  }

  /** The meta objects of the given resources, in order (two resources may share one). */
  function MetasOf(resources: seq<Resource>): (r: seq<Meta>)
    ensures |r| == |resources|
    ensures forall i :: 0 <= i < |r| ==> r[i] == resources[i].meta
  {
    if resources == [] then []
    else MetasOf(resources[..|resources| - 1]) + [resources[|resources| - 1].meta]
  }

  /** The metas of one more resource are those of the ones before, then its own. */
  lemma MetasOfNext(resources: seq<Resource>, i: nat)
    requires i < |resources|
    ensures MetasOf(resources[..i + 1]) == MetasOf(resources[..i]) + [resources[i].meta]
  {
    assert resources[..i + 1][..i] == resources[..i];
  }
}
