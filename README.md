# openalex-import, modelled in Dafny

openalex-import loads the OpenAlex scholarly snapshot into a Neolace content store. Each snapshot
record (an institution, author, venue or concept) is decoded from one line of a gzipped JSON-lines
file. It is then mapped to a list of store edits, and the edits are submitted in batches. This
project models that pipeline and proves what each step promises:

- `Utils` (utils.ts): identifiers taken from the last `/`-separated segment of a provider URL, and
  the `set*Property` builders. These turn an optional value into the complete fact list of one
  property. A value expression reads back as the value it was built from.
- `Institutions`, `Authors`, `Venues`: the bulk mappers from one record to an ordered list of
  `UpsertEntryByKey`, `SetPropertyFacts` and `SetRelationships` edits.
  - Institutions split their associated institutions into a "parent" list and a "related" list.
    A loop with invariants over the processed prefix builds both.
  - Authors link their last known institution.
  - Venues write twelve facts and nothing else.
- `Concepts` (concept-import-improved.ts): the online concept importer.
  - A concept the store already holds is left alone.
  - Otherwise a draft of `CreateEntry` and `AddPropertyValue` edits is built. It holds one link
    per parent, where the parents are the ancestors exactly one level up.
  - The store lookup and the `VNID()` id source are parameters.
  - The imperative builder (`ImportConcept`, with its loop over the parents) is proved equal to
    a functional specification (`ImportConceptSpec`). The properties are proved about that
    specification.
- `Driver` (openalex-import.ts, `import_entities`): the snapshot file scan and the line loop.
  - Blank lines are skipped, and a line that fails to parse is retried once with doubled
    backslashes collapsed.
  - The optional condition filters records.
  - The `EditPusher` class holds the `pendingEdits` buffer and the log of submitted batches.
    Its `PushEdits` submits a copy of the buffer once the previous submission has settled.
  - The main result: concatenating the submitted batches gives exactly the accepted edits, each
    once and in order. Every batch except the final one holds more than 500 edits.
- `Text`, `Urls`, `Common`, `Bulk`, `Schema`: the JavaScript string operations the code relies on
  (`split`, `replace`, `replaceAll`, `trim`, `parseInt`, `toString`, `toSorted`, `URL` search
  parameters), option/result values, the edit datatypes and the store's key names (schema.ts).

Notes on how the code behaves:
- The improved concept importer links each parent with its own `AddPropertyValue` edit inside a
  draft. It writes no relationship-set edit and upserts no stub parents.
- A line that fails both parses ends the import by rethrowing the second parse's error. In the
  model that is `Unparsable(line)`.
- The flush threshold is the constant 500. A flush happens when strictly more than 500 edits are
  pending.

## Model

| member | source | states |
|---|---|---|
| Utils.GetIdFromUrl | utils.ts:23 | the id never contains `/` |
| Utils.GetIdFromUrlIsLastSegment | utils.ts:22-23 | the id is the URL's last segment: a suffix without `/` that is the whole URL or starts right after a `/` |
| Utils.GetIdFromUrlWithoutSlash | utils.ts:23 | a URL with no `/` is its own id |
| Utils.GetIdFromUrlIsSplitPop | utils.ts:23 | the id is exactly the last piece of `url.split("/")` |
| Utils.LastSegmentUnique | utils.ts:23 | a URL has only one last segment, so any two readings of it agree |
| Utils.GetIdFromUrlIfSet | utils.ts:24 | absent stays absent; a present URL, even an empty one, gives its last segment |
| Utils.GetWikipediaIdFromUrl | utils.ts:25-26 | nothing exactly when the URL is absent or empty; otherwise the last segment with every `%20` replaced by `_`, so no `/` and no `%20` remain, and without an encoded space the result is the last segment itself |
| Utils.SetStringProperty | utils.ts:28-31 | the key is kept; no facts exactly when the value is absent; otherwise one fact that reads back as the value, "" included |
| Utils.SetBooleanProperty | utils.ts:33-36 | the key is kept; no facts exactly when absent; otherwise one fact reading back as the boolean, rendered only as `true` or `false` |
| Utils.SetStringListProperty | utils.ts:38-41 | the key is kept; one fact per element, in order, each reading back as its element; none when the value is not a list |
| Utils.SetIntegerProperty | utils.ts:43-46 | the key is kept; no facts exactly when absent, otherwise exactly one, holding the number's `toString` text |
| Utils.SetIntegerReadBack | utils.ts:43-46 | the one integer fact parses back to the number it was given |
| Utils.DatePart | utils.ts:52 | `substring(0, 10)`: a prefix of the value, 10 characters long or the whole value when shorter |
| Utils.SetDateProperty | utils.ts:48-53 | the key is kept; no facts exactly when absent; otherwise one `date("…")` fact holding the first 10 characters, the whole value when it is no longer |
| Utils.ReadQuoted | utils.ts:30 | a quoted value expression reads back as the text it quotes |
| Utils.SetMagIdProperty | institutions-import.ts:89 | no MAG fact exactly when the identifier is absent or empty; otherwise one fact holding the decimal text of `parseInt` of the identifier, which parses back to it, or `NaN` when that reads no number |
| Utils.MagIdOfDigits | institutions-import.ts:89 | a MAG identifier of digits is written as its numeric value |
| Text.Split | utils.ts:23 | `split` always gives at least one piece |
| Text.JoinSplit | utils.ts:23 | joining the pieces of `split` with the separator gives back the string |
| Text.SplitPiecesLackSeparator | utils.ts:23 | no piece of `split` contains the separator |
| Text.SplitJoin | utils.ts:23 | splitting the join of separator-free pieces gives back the pieces |
| Text.ReplaceAll | utils.ts:26 | text without the pattern is unchanged, and no character appears that was not in the text or the replacement |
| Text.ReplaceAllAtFirstOccurrence | utils.ts:26 | `replaceAll` keeps the text before the first occurrence, puts the replacement in its place and continues after it; text without the pattern is unchanged |
| Text.ReplaceAllShrinks | openalex-import.ts:96 | a replacement no longer than the pattern never lengthens the text |
| Text.ReplaceAllLeavesNoPercent20 | utils.ts:26 | after `replaceAll("%20", "_")` no `%20` is left |
| Text.IndexOf | concept-import-improved.ts:137 | the position found is the first occurrence of the pattern; none exactly when it does not occur |
| Text.ReplaceFirst | concept-import-improved.ts:137 | text without the pattern is unchanged; otherwise the first occurrence, and only it, is replaced: the text before it and the text after it are kept |
| Text.ReplaceFirstKeepsLaterOccurrence | concept-import-improved.ts:137 | `replace` rewrites only the first occurrence, so a second, separate occurrence survives |
| Text.IntToString | utils.ts:45 | decimal text: digits, with a leading `-` for negative numbers, and no leading zero except in `0` itself |
| Text.IntToStringRoundTrip | utils.ts:45 | `parseInt` of `toString` of an integer gives the integer back |
| Text.ParseIntOfDigits | institutions-import.ts:89 | `parseInt` of a digit string is the digits' value |
| Text.TrimStart | institutions-import.ts:89 | the white-space skip of `parseInt`: it drops exactly the leading white space, a suffix remains, and it does not start with white space |
| Text.ParseInt | institutions-import.ts:89 | `parseInt` reads no number from empty text or from text that starts with neither white space, a digit nor a sign |
| Text.BlankIsTrimmedEmpty | openalex-import.ts:88 | `line.trim() == ''` holds exactly when every character is white space, which is when trimming leaves nothing |
| Text.SortStrings | openalex-import.ts:50 | `toSorted` gives an ordered permutation of its input |
| Text.InsertKeepsSorted | openalex-import.ts:50 | inserting into an ordered list keeps it ordered |
| Text.StrLeTotal | openalex-import.ts:50 | the code-unit order on strings is total |
| Text.StrLeTransitive | openalex-import.ts:50 | the code-unit order on strings is transitive |
| Urls.NoColonNoScheme | authors-import.ts:67 | text with no `:` has no URL scheme, so `new URL` rejects it |
| Urls.FirstParam | authors-import.ts:67 | `searchParams.get` gives the value of the first pair with the name, and nothing exactly when no pair has it |
| Urls.SearchParamFirstPair | authors-import.ts:66-67 | in `path?name=value&rest` the parameter `name` is `value` |
| Urls.SearchParamOnlyPair | authors-import.ts:66-67 | in `path?name=value` the parameter `name` is `value` |
| Common.Filter | concept-import-improved.ts:160-162 | `filter` keeps only elements satisfying the predicate and never grows the list |
| Common.FilterMultiset | concept-import-improved.ts:160-162 | `filter` keeps every satisfying element as often as it occurs and drops every other |
| Common.FilterMembers | concept-import-improved.ts:160-162 | an element is kept exactly when it is in the list and satisfies the predicate |
| Common.FilterConcat | concept-import-improved.ts:160-162 | filtering distributes over concatenation, so kept elements stay in input order |
| Institutions.KeysTagged | institutions-import.ts:120-124 | a tagged key list is never longer than the associated institutions |
| Institutions.KeysTaggedConcat | institutions-import.ts:112-125 | the keys collected from two stretches of the list are the keys of each, in order |
| Institutions.KeysTaggedMembers | institutions-import.ts:120-124 | a key is in the "parent" (or "related") list exactly when an associated institution with that tag has it |
| Institutions.UntaggedContributesNothing | institutions-import.ts:120-124 | an associated institution with another tag ("child") adds nothing to the list, wherever it stands |
| Institutions.KeysTaggedPartition | institutions-import.ts:120-124 | with the three declared kinds, every associated institution lands in exactly one kind's list |
| Institutions.InstitutionFacts | institutions-import.ts:84-102 | eight fact entries whose keys are Wikidata, MAG, ROR, country, type, works count, Wikipedia and updated date, in that order |
| Institutions.InstitutionFactValues | institutions-import.ts:87-101 | no MAG facts exactly when the MAG id is absent or empty; Wikidata holds its last segment; the type is always one fact; the updated date one fact only when present |
| Institutions.AssociatedInstitutionEdits | institutions-import.ts:107-125 | one `setOnCreate`-only stub upsert per associated institution, in order; the parent and related key lists are exactly the keys tagged so, in order |
| Institutions.ImportInstitution | institutions-import.ts:70-145 | exactly 4 + n edits: the upsert setting the name, the facts on the same key, the n stubs, then the parent and the related relationship sets, both always present; a missing list counts as empty |
| Authors.ScopusFactsFrom | authors-import.ts:67 | the model treats text with a scheme as a URL: text without one fails, otherwise one Scopus fact holding the `authorID` parameter, or "null" without one |
| Authors.ScopusFactsAsWritten | authors-import.ts:67 | as written, the Scopus facts fail exactly when `ids.scopus` is set, and otherwise are an empty Scopus entry |
| Authors.ScopusFacts | authors-import.ts:67 | parsing the field's value fails exactly for a set value that is not a URL; no facts exactly when the field is unset or empty |
| Authors.AuthorFacts | authors-import.ts:55-70 | seven fact entries keyed ORCID, works count, cited-by count, MAG, Wikipedia, Scopus and updated date; the ORCID is the last segment of the top-level `orcid`; the counts are always written; no MAG facts exactly when it is absent or empty |
| Authors.AuthorEdits | authors-import.ts:38-96 | the upsert setting the name and the facts on the author's key; with a last known institution, also that institution's stub upsert and a relationship to exactly it |
| Authors.ImportAuthor | authors-import.ts:37-99 | fails exactly for a set Scopus field that is not a URL; otherwise 2 edits, or 4 with a last known institution, and no Scopus fact exactly when the field is unset or empty |
| Authors.ScopusLiteralIsNotAUrl | authors-import.ts:67 | the literal `"author.ids.scopus"` is not an absolute URL |
| Authors.ImportAuthorAsWritten | authors-import.ts:37-99 | as written, the mapping fails exactly when `ids.scopus` is set; when it succeeds it agrees with the corrected mapping |
| Authors.ImportAuthorAsWrittenFailsOnScopus | authors-import.ts:67 | as written, every author with a set Scopus field makes the mapping throw |
| Authors.ImportAuthorAsWrittenAgrees | authors-import.ts:37-99 | without a Scopus field the written and the corrected mapping agree and succeed |
| Authors.ScopusLinkFacts | authors-import.ts:66-67 | a Scopus author link of the provider's form gives one fact holding its `authorID` |
| Authors.ImportAuthorScopusLink | authors-import.ts:66-67 | for such a link the corrected mapping succeeds and stores exactly the `authorID` |
| Venues.VenueFacts | venue-import.ts:54-67 | twelve fact entries with the venue's property keys, in their fixed order |
| Venues.VenueIdentifierFacts | venue-import.ts:55-65 | Wikidata and fatcat hold only the last segment of their URL; no MAG facts exactly when it is absent or empty |
| Venues.VenueNullableFacts | venue-import.ts:57-62 | a null abbreviated title, home page or linking ISSN gives no facts and a present one reads back as itself; the counts are always written |
| Venues.VenueListFacts | venue-import.ts:58-63 | one fact per alternate title and per ISSN, in order; a null ISSN list gives none |
| Venues.ImportVenue | venue-import.ts:40-74 | exactly two edits, the upsert setting the name and the facts, both on the venue's key; never a relationship |
| Concepts.WikipediaArticle | concept-import-improved.ts:137 | without an encoded space the article name is the URL's last segment; with one, the first `%20` is replaced by `_` and the rest of the segment is kept around it |
| Concepts.ImportConceptSpec | concept-import-improved.ts:47-186 | nothing is built exactly when the entry exists; an unavailable lookup or a failed parent lookup is the failure; a draft is created exactly when the concept is new and its parents resolve, with one edit for the entry, one per value and one per parent |
| Concepts.Parents | concept-import-improved.ts:160-162 | an ancestor is a parent exactly when it is listed and sits exactly one level above the concept |
| Concepts.ParentValuesAt | concept-import-improved.ts:164-178 | the k-th parent link refers to the k-th parent id |
| Concepts.ResolveParents | concept-import-improved.ts:164-166 | resolved ids come one per parent |
| Concepts.ResolveParentsFindsEach | concept-import-improved.ts:164-166 | the parents resolve exactly when every one is found, and then to their ids in order |
| Concepts.ResolveParentsFailurePersists | concept-import-improved.ts:164-166 | the first failed lookup decides the error, whatever follows |
| Concepts.ResolveParentsStep | concept-import-improved.ts:164-166 | one more lookup either extends the resolved ids or ends the import with its error |
| Concepts.Draft | concept-import-improved.ts:63-178 | a draft holds one edit more than its values |
| Concepts.DraftShape | concept-import-improved.ts:63-178 | the entry is created first under the first fresh id, and the i-th value takes the (i+1)-th fresh id |
| Concepts.PushParentLinks | concept-import-improved.ts:164-178 | the parent loop fails with the first failed lookup, or extends the draft with a link to each parent in order |
| Concepts.PushParentLink | concept-import-improved.ts:165-177 | one push adds the link to one more resolved parent, with the next fresh id |
| Concepts.ImportConceptSpecNotFound | concept-import-improved.ts:55-178 | for a new concept the import fails with the first failed parent lookup or creates the draft of its values and parent links |
| Concepts.PushValue | concept-import-improved.ts:77-157 | a guarded push adds its value only when the field is truthy |
| Concepts.PushValueFacts | concept-import-improved.ts:77-157 | the pushes after the entry creation build the draft of the concept's values in order |
| Concepts.ImportConcept | concept-import-improved.ts:47-186 | the importer's result is `ImportConceptSpec`: an existing concept is left alone, other lookup errors propagate, else the draft is built |
| Concepts.ImportConceptOutcomes | concept-import-improved.ts:49-178 | nothing is built exactly when the entry exists; another lookup error is reported; a draft is created exactly when the concept is new and every parent is found |
| Concepts.DraftWithParents | concept-import-improved.ts:164-178 | the draft holds each value, then a link to each parent id, in order, each with its fresh id |
| Concepts.DraftWithResolvedParents | concept-import-improved.ts:164-178 | with resolved parents the draft links each parent to the entry the store holds for it |
| Concepts.CreatedDraft | concept-import-improved.ts:62-178 | a created draft makes the entry (friendly id from the concept's URL, "" for a null description), sets the values, then links each parent, in order |
| Concepts.DraftIdsDistinct | concept-import-improved.ts:63-174 | with a fresh-id source that never repeats, the edits of a draft introduce pairwise distinct ids |
| Concepts.PushedPropertiesFacts | concept-import-improved.ts:77-157 | level and works count always; Wikidata, MAG, Wikipedia and updated date exactly when truthy; no parent link; no property twice |
| Concepts.PropertiesOfValueSequence | concept-import-improved.ts:77-157 | the values set the pushed properties, in push order |
| Concepts.ValueFactsProperties | concept-import-improved.ts:77-157 | a concept's values set the properties of its truthy fields, in push order |
| Concepts.ValueSequenceSlots | concept-import-improved.ts:77-157 | each pushed value carries its own property's expression |
| Concepts.ValueFactsSlots | concept-import-improved.ts:77-157 | each value of a concept carries its own property's expression |
| Concepts.CountExpressionsReadBack | concept-import-improved.ts:92-113 | the quoted level and works count read back as the record's numbers |
| Concepts.IdentifierExpressionsReadBack | concept-import-improved.ts:78-127 | the Wikidata value is the last segment of its URL; the MAG value is the identifier unchanged |
| Concepts.TextExpressionsReadBack | concept-import-improved.ts:130-157 | the Wikipedia value is the article name; the updated date is stored whole |
| Concepts.WikipediaArticleKeepsSecondSpace | concept-import-improved.ts:137 | with two encoded spaces, the concept importer keeps one `%20`, unlike `getWikipediaIdFromUrl` |
| Driver.DateDirectories | openalex-import.ts:47-50 | the date directories are exactly the listed names starting with `updated_date`, sorted |
| Driver.DataFiles | openalex-import.ts:55-56 | the paths are exactly the listed names ending in `.gz`, in listing order, each under the date directory |
| Driver.DataFilesComplete | openalex-import.ts:55-56 | every listed `.gz` name of a date directory gives a path |
| Driver.FilesOfDatesComplete | openalex-import.ts:52-58 | every `.gz` entry of each of the given date directories is read |
| Driver.FilesToProcessComplete | openalex-import.ts:47-58 | every `.gz` entry of every `updated_date…` directory of the entity is read |
| Driver.FilesOfDatesAreDataFiles | openalex-import.ts:52-58 | only `.gz` files inside `updated_date…` directories are read |
| Driver.FilesToProcessAreDataFiles | openalex-import.ts:47-58 | every file the import reads is a `.gz` file inside an `updated_date…` directory |
| Driver.ScanFiles | openalex-import.ts:47-58 | the scan loop lists the data files date directory after date directory, in sorted date order |
| Driver.CollapseBackslashes | openalex-import.ts:96 | a line without a doubled backslash is unchanged, and collapsing never lengthens a line |
| Driver.ParseRecord | openalex-import.ts:91-102 | a line that parses is used as is; otherwise the record is the collapsed line's, tried once; failing both ends the import with that line |
| Driver.RetryNeedsDoubledBackslash | openalex-import.ts:95-97 | the retry helps only a line with a doubled backslash |
| Driver.LineEdits | openalex-import.ts:87-107 | a blank line contributes nothing; an unparsable line fails with itself after both parses failed; a mapping failure or a non-empty contribution comes from a parsed record the condition accepts and the mapper's own result |
| Driver.BlankLinesImportNothing | openalex-import.ts:87-90 | lines that are all blank import nothing and do not fail |
| Driver.ImportLinesConcat | openalex-import.ts:87-111 | reading two stretches of lines is reading the first, then the second unless the first failed |
| Driver.ImportOneLine | openalex-import.ts:87-111 | one line contributes its record's edits or its failure |
| Driver.BlankLineIgnored | openalex-import.ts:88-90 | a blank line changes nothing, wherever it stands |
| Driver.RejectedRecordIgnored | openalex-import.ts:104-107 | a record the condition rejects changes nothing |
| Driver.FailureStops | openalex-import.ts:98-101 | after a failing line, no later line is read |
| Driver.EditPusher.constructor | openalex-import.ts:61-62 | the buffer and the submission log start empty |
| Driver.EditPusher.Add | openalex-import.ts:106 | the record's edits are appended to the buffer, in order |
| Driver.EditPusher.PushEdits | openalex-import.ts:63-74 | the previous submission has settled; a non-empty buffer is submitted whole and emptied; an empty buffer submits nothing; no edit is lost or repeated |
| Driver.EditPusher.AwaitLast | openalex-import.ts:114 | every submission has settled |
| Driver.FlushIfFull | openalex-import.ts:108-110 | after a line at most 500 edits are pending, and any new batch holds more than 500 |
| Driver.AddRecordEdits | openalex-import.ts:91-107 | a non-blank line adds its accepted record's edits to the buffer, or stops with its failure, leaving the buffer as it was |
| Driver.ImportLines | openalex-import.ts:87-111 | the line loop accepts exactly the specification's edits, stops at its failure, and keeps the buffer at most 500 |
| Driver.AllLinesPrefix | openalex-import.ts:80-85 | the lines of the first files come first |
| Driver.FailureInFile | openalex-import.ts:80-112 | a failure in one file ends the whole import |
| Driver.ImportFiles | openalex-import.ts:80-112 | the file loop accepts exactly the edits of all lines of all files, in order, up to the first failure |
| Driver.ImportEntities | openalex-import.ts:37-117 | the batches concatenate to exactly the accepted edits, each once and in order; no batch is empty; all but a final one hold more than 500; on failure only the at most 500 pending edits are not submitted |

## Left out

- File system and network I/O are parameters: `download_things` and the S3 client, `Deno.readDirSync` (the function `listing`), and `Deno.readFile` with gzip and UTF-8 decoding (the function `read`). The order of a directory's entries is whatever `listing` gives.
- `JSON.parse` is the parameter `parse` (`None` where it throws). Records are the typed datatypes of each importer. JSON `null` in fields declared optional (`?:`), and records missing required fields, are not modelled.
- Driver.EditPusher.PushEdits: `promiseState` and the promise race are modelled only by a count of settled submissions. What `pushBulkEdits` does in the store, and a failed submission, are not modelled.
- Concepts.ImportConcept: returns the draft it would submit; `createDraft` and `acceptDraft` are not modelled, so neither is a failure to submit or accept.
- Concepts.ImportConcept: `getApiClient` is not modelled; the store lookup is the parameter `getEntry`, and `VNID()` is `freshId(k)`, the k-th call's id.
- Text.IntToString: numbers are integers. Floating-point counts and JavaScript's exponent notation for large numbers are not modelled.
- Text.SortStrings: `toSorted` compares by UTF-16 code unit. The model compares characters, which agrees for the ASCII directory names involved.
- Authors.ScopusFactsFrom: `new URL` is modelled as accepting any text with a scheme. The WHATWG URL parser also rejects some such text (`http://`, `http://a b`), so for those the corrected `Authors.ImportAuthor` succeeds where the code would throw.
- Utils.DatePart: `substring(0, 10)` counts UTF-16 code units; the model counts characters, which agrees for the ASCII dates involved.
- Urls.FirstParam: the `URL` parser is modelled only as far as the importers use it: scheme detection, the query after `?` and before `#`, and `&`/`=` pairs. Percent-decoding and `+` as space are not modelled.
- Quoting does not escape, as in utils.ts: a value holding `"` gives an expression the store would read differently. `ReadString` only strips the outer quotes, and the store's reading of value expressions is not modelled.
- Console logging and timing (`console.log`, `console.time`, `performance.now`) are left out.
- `exists` and `promiseState` in utils.ts are file-system and promise helpers, and are not modelled.
- concept-import.ts, works-import.ts, neolace-api-client.ts, site.ts, create-site.ts and create-site-prod.ts are not part of this model. They are a store-erasing script, type declarations with an unimplemented `importWork`, the API client singleton, and site bootstrapping.
- schema.ts is transcribed as the constants of `Schema`.

## Findings

| source | as written | input that shows it | evidently intended | confidence | as-written member | corrected member |
|---|---|---|---|---|---|---|
| authors-import.ts:67 | `new URL("author.ids.scopus")` parses the field's name as a string literal, which has no scheme, so it throws for every author whose `ids.scopus` is set | an author with `ids.scopus` = "http://www.scopus.com/inward/authorDetails.url?authorID=36455008000&partnerID=MN8TOARS" | parse `author.ids.scopus` and store its `authorID` parameter, "36455008000" | not executed | Authors.ImportAuthorAsWrittenFailsOnScopus | Authors.ImportAuthorScopusLink |
