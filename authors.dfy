/**
 * The author importer (authors-import.ts): an upsert of the author, its seven property facts and,
 * when the record names a last known institution, a stub upsert of that institution and a
 * one-target relationship to it.
 *
 * As written, the Scopus fact is read from `new URL("author.ids.scopus")`: the field's NAME
 * as a string literal rather than its value. That text has no scheme, so `new URL` throws for
 * every author whose `ids.scopus` is set. `ImportAuthorAsWritten` models that code; `ImportAuthor`
 * models the evident intent, reading the `authorID` parameter of the field's value.
 */
module Authors {
  import opened Common
  import opened Bulk
  import opened Utils
  import opened Urls
  import Schema

  /** The `{id, display_name}` part of an institution that an author record embeds. */
  datatype DehydratedInstitution = DehydratedInstitution(id: string, displayName: string)

  datatype AuthorIds = AuthorIds(mag: Option<string>, wikipedia: Option<string>, scopus: Option<string>)

  /** The fields of a provider author record that the importer reads. */
  datatype Author = Author(
    id: string,
    orcid: Option<string>,
    displayName: string,
    worksCount: int,
    citedByCount: int,
    ids: AuthorIds,
    lastKnownInstitution: Option<DehydratedInstitution>,
    updatedDate: Option<string>)

  /** What makes the mapping throw: `new URL` given text that is not an absolute URL. */
  datatype ImportError = InvalidUrl(input: string)

  /** The properties an author's facts edit sets, in order. */
  const AuthorProperties := [Schema.Orcid, Schema.WorksCount, Schema.CitedByCount, Schema.MagId,
                             Schema.WikipediaId, Schema.ScopusId, Schema.UpdatedDate]

  /** The text the code as written hands to `new URL` for the Scopus identifier. */
  const ScopusUrlAsWritten := "author.ids.scopus"

  /** The query parameter of a Scopus author link that holds the Scopus author id. */
  const ScopusIdParam := "authorID"

  /**
   * `setStringProperty(scopus_id, new URL(text).searchParams.get("authorID")!)`: fails where
   * `new URL` throws; a missing parameter is `null`, which the quoting template renders as "null".
   */
  function ScopusFactsFrom(text: string): (r: Result<PropertyFacts, ImportError>)
    ensures r.Err? <==> !HasScheme(text)
    ensures r.Ok? ==> r.value.propertyKey == Schema.ScopusId && |r.value.facts| == 1
    ensures r.Ok? && SearchParam(text, ScopusIdParam).Some? ==>
      ReadString(r.value.facts[0]) == SearchParam(text, ScopusIdParam)
    ensures r.Ok? && SearchParam(text, ScopusIdParam).None? ==> ReadString(r.value.facts[0]) == Some("null")
  {
    if !HasScheme(text) then Err(InvalidUrl(text))
    else
      match SearchParam(text, ScopusIdParam)
      case None => Ok(SetStringProperty(Schema.ScopusId, Some("null")))
      case Some(v) => Ok(SetStringProperty(Schema.ScopusId, Some(v)))
  }

  /** The Scopus facts as the code is written: an unset or empty `ids.scopus` gives none, a set one throws. */
  function ScopusFactsAsWritten(ids: AuthorIds): (r: Result<PropertyFacts, ImportError>)
    ensures r.Err? <==> Truthy(ids.scopus)
    ensures r.Ok? ==> r.value.propertyKey == Schema.ScopusId && r.value.facts == []
  {
    ScopusLiteralIsNotAUrl();
    if Truthy(ids.scopus) then ScopusFactsFrom(ScopusUrlAsWritten)
    else Ok(SetStringProperty(Schema.ScopusId, None))
  }

  /** The Scopus facts as evidently intended: parsed from the value of `ids.scopus`. */
  function ScopusFacts(ids: AuthorIds): (r: Result<PropertyFacts, ImportError>)
    ensures r.Err? <==> Truthy(ids.scopus) && !HasScheme(ids.scopus.value)
    ensures r.Ok? ==> r.value.propertyKey == Schema.ScopusId
    ensures r.Ok? ==> (r.value.facts == [] <==> !Truthy(ids.scopus))
  {
    if Truthy(ids.scopus) then ScopusFactsFrom(ids.scopus.value)
    else Ok(SetStringProperty(Schema.ScopusId, None))
  }

  /** The seven property-fact entries of an author, given the Scopus entry. */
  function AuthorFacts(author: Author, scopus: PropertyFacts): (facts: seq<PropertyFacts>)
    requires scopus.propertyKey == Schema.ScopusId
    ensures |facts| == |AuthorProperties|
    ensures PropertyKeys(facts) == AuthorProperties
    ensures facts[5] == scopus
    ensures author.orcid.Some? ==>
      |facts[0].facts| == 1 && ReadString(facts[0].facts[0]).Some? &&
      IsLastSegment(author.orcid.value, ReadString(facts[0].facts[0]).value)
    ensures author.orcid.None? ==> facts[0].facts == []
    ensures |facts[1].facts| == 1 && |facts[2].facts| == 1
    ensures facts[3].facts == [] <==> !Truthy(author.ids.mag)
  {
    var orcid := SetStringProperty(Schema.Orcid, GetIdFromUrlIfSet(author.orcid));
    var works := SetIntegerProperty(Schema.WorksCount, Some(author.worksCount));
    var cited := SetIntegerProperty(Schema.CitedByCount, Some(author.citedByCount));
    var mag := SetMagIdProperty(Schema.MagId, author.ids.mag);
    var wikipedia := SetStringProperty(Schema.WikipediaId, GetWikipediaIdFromUrl(author.ids.wikipedia));
    var updated := SetDateProperty(Schema.UpdatedDate, author.updatedDate);
    [orcid, works, cited, mag, wikipedia, scopus, updated]
  }

  /**
   * The edit list of `importAuthor` once its facts are built: upsert and facts, then, when there
   * is a last known institution, its stub upsert and the relationship to it.
   */
  function AuthorEdits(author: Author, scopus: PropertyFacts): (edits: seq<BulkEdit>)
    requires scopus.propertyKey == Schema.ScopusId
    ensures var key := GetIdFromUrl(author.id);
      && |edits| == (if author.lastKnownInstitution.Some? then 4 else 2)
      && edits[0] == UpsertEntryByKey(Schema.Author, key, Some(EntryFields(author.displayName)), None)
      && edits[1] == SetPropertyFacts(key, AuthorFacts(author, scopus))
    ensures author.lastKnownInstitution.Some? ==>
      var key := GetIdFromUrl(author.id);
      var inst := author.lastKnownInstitution.value;
      var instKey := GetIdFromUrl(inst.id);
      && edits[2] == UpsertEntryByKey(Schema.Institution, instKey, None, Some(EntryFields(inst.displayName)))
      && edits[3] == SetRelationships(key, [RelationshipTargets(Schema.LastKnownInstitution, [instKey])])
  {
    var entryKey := GetIdFromUrl(author.id);
    var edits := [
      UpsertEntryByKey(Schema.Author, entryKey, Some(EntryFields(author.displayName)), None),
      SetPropertyFacts(entryKey, AuthorFacts(author, scopus))
    ];
    match author.lastKnownInstitution
    case None => edits
    case Some(inst) =>
      var institutionKey := GetIdFromUrl(inst.id);
      edits + [
        UpsertEntryByKey(Schema.Institution, institutionKey, None, Some(EntryFields(inst.displayName))),
        SetRelationships(entryKey, [RelationshipTargets(Schema.LastKnownInstitution, [institutionKey])])
      ]
  }

  /** `importAuthor` as written: it throws whenever `ids.scopus` is set. */
  function ImportAuthorAsWritten(author: Author): (r: Result<seq<BulkEdit>, ImportError>)
    ensures r.Err? <==> Truthy(author.ids.scopus)
    ensures r.Ok? ==> r == ImportAuthor(author)
  {
    match ScopusFactsAsWritten(author.ids)
    case Err(e) => Err(e)
    case Ok(scopus) => Ok(AuthorEdits(author, scopus))
  }

  /** `importAuthor` with the Scopus identifier read from the field's value. */
  function ImportAuthor(author: Author): (r: Result<seq<BulkEdit>, ImportError>)
    ensures r.Err? <==> Truthy(author.ids.scopus) && !HasScheme(author.ids.scopus.value)
    ensures r.Ok? ==>
      && |r.value| == (if author.lastKnownInstitution.Some? then 4 else 2)
      && r.value[1].SetPropertyFacts?
      && |r.value[1].properties| == |AuthorProperties|
      && (r.value[1].properties[5].facts == [] <==> !Truthy(author.ids.scopus))
  {
    match ScopusFacts(author.ids)
    case Err(e) => Err(e)
    case Ok(scopus) => Ok(AuthorEdits(author, scopus))
  }

  /** The literal the code as written parses is not an absolute URL. */
  lemma ScopusLiteralIsNotAUrl()
    ensures !HasScheme(ScopusUrlAsWritten)
  {
    NoColonNoScheme(ScopusUrlAsWritten);
  }

  /** As written, every author with a Scopus identifier makes the mapping throw. */
  lemma ImportAuthorAsWrittenFailsOnScopus(author: Author)
    requires Truthy(author.ids.scopus)
    ensures ImportAuthorAsWritten(author) == Err(InvalidUrl(ScopusUrlAsWritten))
  {
    ScopusLiteralIsNotAUrl();
  }

  /** Without a Scopus identifier the code as written and the corrected mapping agree, and neither fails. */
  lemma ImportAuthorAsWrittenAgrees(author: Author)
    requires !Truthy(author.ids.scopus)
    ensures ImportAuthorAsWritten(author) == ImportAuthor(author)
    ensures ImportAuthor(author).Ok?
  {
  }

  /** A Scopus author link of the provider's form gives one fact holding its `authorID`. */
  lemma ScopusLinkFacts(path: string, authorId: string, rest: string)
    requires HasScheme(path) && '?' !in path && '#' !in path
    requires '&' !in authorId && '#' !in authorId && '#' !in rest
    ensures ScopusFactsFrom(path + "?" + ScopusIdParam + "=" + authorId + "&" + rest)
         == Ok(SetStringProperty(Schema.ScopusId, Some(authorId)))
  {
    var tail := "?" + ScopusIdParam + "=" + authorId + "&" + rest;
    var url := path + tail;
    assert path + "?" + ScopusIdParam + "=" + authorId + "&" + rest == url;
    assert '=' !in ScopusIdParam && '&' !in ScopusIdParam && '#' !in ScopusIdParam;
    SearchParamFirstPair(path, ScopusIdParam, authorId, rest);
    SchemeOfExtension(path, tail);
  }

  /**
   * For a Scopus author link of the provider's form, the corrected mapping stores the `authorID`
   * parameter, e.g. "36455008000" for
   * "http://www.scopus.com/inward/authorDetails.url?authorID=36455008000&partnerID=MN8TOARS".
   */
  lemma ImportAuthorScopusLink(author: Author, path: string, authorId: string, rest: string)
    requires author.ids.scopus == Some(path + "?" + ScopusIdParam + "=" + authorId + "&" + rest)
    requires HasScheme(path) && '?' !in path && '#' !in path
    requires '&' !in authorId && '#' !in authorId && '#' !in rest
    ensures var r := ImportAuthor(author);
      && r.Ok?
      && r.value[1].SetPropertyFacts?
      && var scopus := r.value[1].properties[5];
         scopus.propertyKey == Schema.ScopusId && |scopus.facts| == 1 && ReadString(scopus.facts[0]) == Some(authorId)
  {
    ScopusLinkFacts(path, authorId, rest);
    var sc := SetStringProperty(Schema.ScopusId, Some(authorId));
    assert ScopusFacts(author.ids) == Ok(sc);
    assert ImportAuthor(author) == Ok(AuthorEdits(author, sc));
  }
}
