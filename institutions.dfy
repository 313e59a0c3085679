/**
 * The institution importer (institutions-import.ts): one provider institution record becomes an
 * upsert of the institution, its property facts, a name-only stub upsert per associated
 * institution, and the "parent" and "related" relationship lists. Associated institutions tagged
 * "child" are upserted but never linked: the store derives child links from parent links.
 */
module Institutions {
  import opened Common
  import opened Bulk
  import opened Utils
  import Schema

  datatype InstitutionIds = InstitutionIds(
    wikidata: Option<string>,
    mag: Option<string>,
    ror: Option<string>,
    wikipedia: Option<string>)

  /** An entry of `associated_institutions`: a dehydrated institution and how it relates to this one. */
  datatype AssociatedInstitution = AssociatedInstitution(id: string, displayName: string, relationship: string)

  /** The fields of a provider institution record that the importer reads. */
  datatype Institution = Institution(
    id: string,
    displayName: string,
    institutionType: string,
    worksCount: int,
    ids: InstitutionIds,
    geoCountryCode: Option<string>,
    associatedInstitutions: Option<seq<AssociatedInstitution>>,
    updatedDate: Option<string>)

  /** `associated_institutions ?? []`. */
  function Associated(inst: Institution): seq<AssociatedInstitution> {
    if inst.associatedInstitutions.Some? then inst.associatedInstitutions.value else []
  }

  /** The keys of the associated institutions whose relationship is `kind`, in list order. */
  function KeysTagged(assoc: seq<AssociatedInstitution>, kind: string): (keys: seq<string>)
    ensures |keys| <= |assoc|
    decreases |assoc|
  {
    if assoc == [] then []
    else
      var a := Last(assoc);
      KeysTagged(assoc[..|assoc| - 1], kind) + (if a.relationship == kind then [GetIdFromUrl(a.id)] else [])
  }

  /** Tagged keys of a concatenation are the tagged keys of each part, in order. */
  lemma {:induction false} KeysTaggedConcat(a: seq<AssociatedInstitution>, b: seq<AssociatedInstitution>, kind: string)
    ensures KeysTagged(a + b, kind) == KeysTagged(a, kind) + KeysTagged(b, kind)
    decreases |b|
  {
    if b == [] {
      assert a + b == a;
    } else {
      var b' := b[..|b| - 1];
      assert (a + b)[..|a + b| - 1] == a + b';
      assert Last(a + b) == Last(b);
      KeysTaggedConcat(a, b', kind);
    }
  }

  /** Some associated institution tagged `kind` has key `key`. */
  predicate HasTaggedKey(assoc: seq<AssociatedInstitution>, kind: string, key: string) {
    exists i :: 0 <= i < |assoc| && assoc[i].relationship == kind && GetIdFromUrl(assoc[i].id) == key
  }

  /** A key is in the `kind` list exactly when some associated institution tagged `kind` has it. */
  lemma {:induction false} KeysTaggedMembers(assoc: seq<AssociatedInstitution>, kind: string, key: string)
    ensures key in KeysTagged(assoc, kind) <==> HasTaggedKey(assoc, kind, key)
    decreases |assoc|
  {
    if assoc != [] {
      var n := |assoc| - 1;
      var init := assoc[..n];
      var a := assoc[n];
      KeysTaggedMembers(init, kind, key);
      var extra := if a.relationship == kind then [GetIdFromUrl(a.id)] else [];
      assert KeysTagged(assoc, kind) == KeysTagged(init, kind) + extra;
      if key in KeysTagged(init, kind) {
        var i :| 0 <= i < |init| && init[i].relationship == kind && GetIdFromUrl(init[i].id) == key;
        assert assoc[i] == init[i];
      } else if key in extra {
        assert assoc[n].relationship == kind && GetIdFromUrl(assoc[n].id) == key;
      } else {
        forall i | 0 <= i < |assoc|
          ensures !(assoc[i].relationship == kind && GetIdFromUrl(assoc[i].id) == key)
        {
          if i < n {
            assert assoc[i] == init[i];
          }
        }
      }
    }
  }

  /** An associated institution not tagged `kind` (a "child", say) adds nothing to the `kind` list. */
  lemma UntaggedContributesNothing(a: seq<AssociatedInstitution>, x: AssociatedInstitution, b: seq<AssociatedInstitution>, kind: string)
    requires x.relationship != kind
    ensures KeysTagged(a + [x] + b, kind) == KeysTagged(a + b, kind)
  {
    KeysTaggedConcat(a + [x], b, kind);
    KeysTaggedConcat(a, [x], kind);
    KeysTaggedConcat(a, b, kind);
    assert KeysTagged([x], kind) == [] by {
      assert [x][..0] == [];
    }
  }

  /** When every relationship is one of the three declared kinds, each associated institution lands in exactly one list. */
  lemma {:induction false} KeysTaggedPartition(assoc: seq<AssociatedInstitution>)
    requires forall i :: 0 <= i < |assoc| ==> assoc[i].relationship in {"parent", "child", "related"}
    ensures |KeysTagged(assoc, "parent")| + |KeysTagged(assoc, "related")| + |KeysTagged(assoc, "child")| == |assoc|
    decreases |assoc|
  {
    if assoc != [] {
      var init := assoc[..|assoc| - 1];
      assert forall i :: 0 <= i < |init| ==> init[i] == assoc[i];
      KeysTaggedPartition(init);
      assert Last(assoc) == assoc[|assoc| - 1];
    }
  }

  /** The properties an institution's facts edit sets, in order. */
  const InstitutionProperties := [Schema.Wikidata, Schema.MagId, Schema.Ror, Schema.CountryCode,
                                  Schema.InstitutionType, Schema.WorksCount, Schema.WikipediaId, Schema.UpdatedDate]

  /** The eight property-fact entries written for the institution, in their fixed order. */
  function InstitutionFacts(inst: Institution): (facts: seq<PropertyFacts>)
    ensures |facts| == |InstitutionProperties|
    ensures PropertyKeys(facts) == InstitutionProperties
  {
    var wikidata := SetStringProperty(Schema.Wikidata, GetIdFromUrlIfSet(inst.ids.wikidata));
    var mag := SetMagIdProperty(Schema.MagId, inst.ids.mag);
    var ror := SetStringProperty(Schema.Ror, GetIdFromUrlIfSet(inst.ids.ror));
    var country := SetStringProperty(Schema.CountryCode, inst.geoCountryCode);
    var kind := SetStringProperty(Schema.InstitutionType, Some(inst.institutionType));
    var works := SetIntegerProperty(Schema.WorksCount, Some(inst.worksCount));
    var wikipedia := SetStringProperty(Schema.WikipediaId, GetWikipediaIdFromUrl(inst.ids.wikipedia));
    var updated := SetDateProperty(Schema.UpdatedDate, inst.updatedDate);
    [wikidata, mag, ror, country, kind, works, wikipedia, updated]
  }

  /**
   * Wikidata holds only the last segment of its URL, an unset or empty MAG id gives no fact, the
   * type is always written and the updated date only when present.
   */
  lemma InstitutionFactValues(inst: Institution)
    ensures var facts := InstitutionFacts(inst);
      && (facts[1].facts == [] <==> !Truthy(inst.ids.mag))
      && (inst.ids.wikidata.Some? ==>
            |facts[0].facts| == 1 && ReadString(facts[0].facts[0]).Some? &&
            IsLastSegment(inst.ids.wikidata.value, ReadString(facts[0].facts[0]).value))
      && |facts[4].facts| == 1 && ReadString(facts[4].facts[0]) == Some(inst.institutionType)
      && |facts[7].facts| == if inst.updatedDate.Some? then 1 else 0
  {
    var facts := InstitutionFacts(inst);
    assert facts[0] == SetStringProperty(Schema.Wikidata, GetIdFromUrlIfSet(inst.ids.wikidata));
    assert facts[1] == SetMagIdProperty(Schema.MagId, inst.ids.mag);
    assert facts[4] == SetStringProperty(Schema.InstitutionType, Some(inst.institutionType));
    assert facts[7] == SetDateProperty(Schema.UpdatedDate, inst.updatedDate);
  }

  /**
   * The loop of `importInstitution` over `associated_institutions`: a stub upsert per associated
   * institution (name written on creation only) and the keys of the parent and of the related
   * ones, each in list order. Other relationships ("child") are upserted but collected nowhere.
   */
  method AssociatedInstitutionEdits(assoc: seq<AssociatedInstitution>)
    returns (stubs: seq<BulkEdit>, parentInstKeys: seq<string>, relatedInstKeys: seq<string>)
    ensures |stubs| == |assoc|
    ensures forall i :: 0 <= i < |assoc| ==>
      stubs[i] == UpsertEntryByKey(Schema.Institution, GetIdFromUrl(assoc[i].id), None,
                                   Some(EntryFields(assoc[i].displayName)))
    ensures parentInstKeys == KeysTagged(assoc, "parent")
    ensures relatedInstKeys == KeysTagged(assoc, "related")
  {
    stubs, parentInstKeys, relatedInstKeys := [], [], [];
    for i := 0 to |assoc|
      invariant |stubs| == i
      invariant forall j :: 0 <= j < i ==>
        stubs[j] == UpsertEntryByKey(Schema.Institution, GetIdFromUrl(assoc[j].id), None,
                                     Some(EntryFields(assoc[j].displayName)))
      invariant parentInstKeys == KeysTagged(assoc[..i], "parent")
      invariant relatedInstKeys == KeysTagged(assoc[..i], "related")
    {
      var associated := assoc[i];
      var associatedInstKey := GetIdFromUrl(associated.id);
      stubs := stubs + [UpsertEntryByKey(Schema.Institution, associatedInstKey, None,
                                         Some(EntryFields(associated.displayName)))];
      if associated.relationship == "parent" {
        parentInstKeys := parentInstKeys + [associatedInstKey];
      } else if associated.relationship == "related" {
        relatedInstKeys := relatedInstKeys + [associatedInstKey];
      }
      assert assoc[..i + 1][..i] == assoc[..i];
      assert Last(assoc[..i + 1]) == associated;
    }
    assert assoc[..|assoc|] == assoc;
  }

  /**
   * `importInstitution`: the institution's upsert and facts, one stub upsert per associated
   * institution, then the parent and the related relationship lists, both always present (an
   * empty list clears the relationship).
   */
  method ImportInstitution(inst: Institution) returns (edits: seq<BulkEdit>)
    ensures var key := GetIdFromUrl(inst.id);
            var assoc := Associated(inst);
      && |edits| == 4 + |assoc|
      && edits[0] == UpsertEntryByKey(Schema.Institution, key, Some(EntryFields(inst.displayName)), None)
      && edits[1] == SetPropertyFacts(key, InstitutionFacts(inst))
      && (forall i :: 0 <= i < |assoc| ==>
            edits[2 + i] == UpsertEntryByKey(Schema.Institution, GetIdFromUrl(assoc[i].id), None,
                                             Some(EntryFields(assoc[i].displayName))))
      && edits[2 + |assoc|] == SetRelationships(key, [RelationshipTargets(Schema.ParentInstitutions, KeysTagged(assoc, "parent"))])
      && edits[3 + |assoc|] == SetRelationships(key, [RelationshipTargets(Schema.RelatedInstitutions, KeysTagged(assoc, "related"))])
  {
    var entryKey := GetIdFromUrl(inst.id);
    edits := [
      UpsertEntryByKey(Schema.Institution, entryKey, Some(EntryFields(inst.displayName)), None),
      SetPropertyFacts(entryKey, InstitutionFacts(inst))
    ];
    var stubs, parentInstKeys, relatedInstKeys := AssociatedInstitutionEdits(Associated(inst));
    edits := edits + stubs;
    edits := edits + [SetRelationships(entryKey, [RelationshipTargets(Schema.ParentInstitutions, parentInstKeys)])];
    edits := edits + [SetRelationships(entryKey, [RelationshipTargets(Schema.RelatedInstitutions, relatedInstKeys)])];
  }
}
