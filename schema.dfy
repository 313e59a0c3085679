/** The entry-type and property keys of the content store that the bulk importers write (schema.ts). */
module Schema {
  // Entry types
  const Concept := "concept"
  const Institution := "institution"
  const Author := "author"
  const Venue := "venue"

  // External identifier properties
  const Wikidata := "wikidata-id"
  const MagId := "mag-id"
  const WikipediaId := "wikipedia-id"
  const ScopusId := "scopus-id"
  const Orcid := "orcid"
  const Ror := "ror-id"
  const FatcatId := "fatcat-id"
  const IssnL := "issn-l"
  const Issn := "issn"

  // Other properties
  const AbbreviatedTitle := "abbreviated-title"
  const AlternateTitles := "alternate-titles"
  const HomepageUrl := "homepage-url"
  const WorksCount := "works-count"
  const UpdatedDate := "updated-date"
  const CitedByCount := "cited-by-count"
  const CountryCode := "country-code"
  const InstitutionType := "institution-type"
  const WorksApiUrl := "works-api-url"

  // Relationship properties
  const LastKnownInstitution := "last-known-institution"
  const ParentInstitutions := "parent-institutions"
  const RelatedInstitutions := "related-institutions"
}
