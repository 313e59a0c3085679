/**
 * The venue importer (venue-import.ts): exactly two edits, an upsert of the venue and its twelve
 * property facts; venues have no relationships.
 */
module Venues {
  import opened Common
  import opened Bulk
  import opened Utils
  import Schema

  datatype VenueIds = VenueIds(mag: Option<string>, fatcat: Option<string>, wikidata: Option<string>)

  /**
   * The fields of a provider venue record that the importer reads. The fields the record may
   * hold as `null` (`abbreviated_title`, `homepage_url`, `issn_l`, `issn`) are `None` when null,
   * as `?? undefined` makes them; the optional ones are `None` when missing.
   */
  datatype Venue = Venue(
    id: string,
    displayName: string,
    issnL: Option<string>,
    issn: Option<seq<string>>,
    abbreviatedTitle: Option<string>,
    alternateTitles: seq<string>,
    homepageUrl: Option<string>,
    worksCount: int,
    citedByCount: int,
    ids: VenueIds,
    worksApiUrl: Option<string>,
    updatedDate: Option<string>)

  /** The properties a venue's facts edit sets, in order. */
  const VenueProperties := [Schema.Wikidata, Schema.FatcatId, Schema.AbbreviatedTitle, Schema.AlternateTitles,
                            Schema.HomepageUrl, Schema.IssnL, Schema.WorksCount, Schema.CitedByCount,
                            Schema.Issn, Schema.MagId, Schema.WorksApiUrl, Schema.UpdatedDate]

  /** The twelve property-fact entries of a venue, in their fixed order. */
  function VenueFacts(venue: Venue): (facts: seq<PropertyFacts>)
    ensures |facts| == |VenueProperties|
    ensures PropertyKeys(facts) == VenueProperties
  {
    var wikidata := SetStringProperty(Schema.Wikidata, GetIdFromUrlIfSet(venue.ids.wikidata));
    var fatcat := SetStringProperty(Schema.FatcatId, GetIdFromUrlIfSet(venue.ids.fatcat));
    var abbreviated := SetStringProperty(Schema.AbbreviatedTitle, venue.abbreviatedTitle);
    var alternate := SetStringListProperty(Schema.AlternateTitles, Some(venue.alternateTitles));
    var homepage := SetStringProperty(Schema.HomepageUrl, venue.homepageUrl);
    var issnL := SetStringProperty(Schema.IssnL, venue.issnL);
    var works := SetIntegerProperty(Schema.WorksCount, Some(venue.worksCount));
    var cited := SetIntegerProperty(Schema.CitedByCount, Some(venue.citedByCount));
    var issn := SetStringListProperty(Schema.Issn, venue.issn);
    var mag := SetMagIdProperty(Schema.MagId, venue.ids.mag);
    var worksApi := SetStringProperty(Schema.WorksApiUrl, venue.worksApiUrl);
    var updated := SetDateProperty(Schema.UpdatedDate, venue.updatedDate);
    [wikidata, fatcat, abbreviated, alternate, homepage, issnL, works, cited, issn, mag, worksApi, updated]
  }

  /** Wikidata and fatcat hold only the last segment of their URL. */
  lemma VenueIdentifierFacts(venue: Venue)
    ensures var facts := VenueFacts(venue);
      && (venue.ids.wikidata.Some? ==>
            |facts[0].facts| == 1 && ReadString(facts[0].facts[0]).Some? &&
            IsLastSegment(venue.ids.wikidata.value, ReadString(facts[0].facts[0]).value))
      && (venue.ids.fatcat.Some? ==>
            |facts[1].facts| == 1 && ReadString(facts[1].facts[0]).Some? &&
            IsLastSegment(venue.ids.fatcat.value, ReadString(facts[1].facts[0]).value))
      && (facts[9].facts == [] <==> !Truthy(venue.ids.mag))
  {
    var facts := VenueFacts(venue);
    assert facts[0] == SetStringProperty(Schema.Wikidata, GetIdFromUrlIfSet(venue.ids.wikidata));
    assert facts[1] == SetStringProperty(Schema.FatcatId, GetIdFromUrlIfSet(venue.ids.fatcat));
    assert facts[9] == SetMagIdProperty(Schema.MagId, venue.ids.mag);
  }

  /** A null abbreviated title, home page or linking ISSN gives no fact; a present one gives itself. */
  lemma VenueNullableFacts(venue: Venue)
    ensures var facts := VenueFacts(venue);
      && (facts[2].facts == [] <==> venue.abbreviatedTitle.None?)
      && (facts[4].facts == [] <==> venue.homepageUrl.None?)
      && (facts[5].facts == [] <==> venue.issnL.None?)
      && (venue.abbreviatedTitle.Some? ==> ReadString(facts[2].facts[0]) == venue.abbreviatedTitle)
      && (venue.homepageUrl.Some? ==> ReadString(facts[4].facts[0]) == venue.homepageUrl)
      && (venue.issnL.Some? ==> ReadString(facts[5].facts[0]) == venue.issnL)
      && |facts[6].facts| == 1 && |facts[7].facts| == 1
  {
  }

  /** One fact per alternate title and per ISSN, in order; a null ISSN list gives none. */
  lemma VenueListFacts(venue: Venue)
    ensures var facts := VenueFacts(venue);
      && |facts[3].facts| == |venue.alternateTitles|
      && (forall i :: 0 <= i < |venue.alternateTitles| ==> ReadString(facts[3].facts[i]) == Some(venue.alternateTitles[i]))
      && |facts[8].facts| == (if venue.issn.Some? then |venue.issn.value| else 0)
      && (venue.issn.Some? ==> forall i :: 0 <= i < |venue.issn.value| ==> ReadString(facts[8].facts[i]) == Some(venue.issn.value[i]))
  {
  }

  /** `importVenue`: the venue's upsert, writing its name, and its facts, both under the key from its id. */
  function ImportVenue(venue: Venue): (edits: seq<BulkEdit>)
    ensures |edits| == 2
    ensures edits[0] == UpsertEntryByKey(Schema.Venue, GetIdFromUrl(venue.id), Some(EntryFields(venue.displayName)), None)
    ensures edits[1] == SetPropertyFacts(GetIdFromUrl(venue.id), VenueFacts(venue))
    ensures forall i :: 0 <= i < |edits| ==> !edits[i].SetRelationships?
  {
    var entryKey := GetIdFromUrl(venue.id);
    [ UpsertEntryByKey(Schema.Venue, entryKey, Some(EntryFields(venue.displayName)), None),
      SetPropertyFacts(entryKey, VenueFacts(venue)) ]
  }
}
