/**
 * The online concept importer (concept-import-improved.ts): a concept the store already holds is
 * left alone; otherwise a draft is built that creates the entry and adds its property values and
 * its parent links, and that draft is submitted and accepted.
 *
 * The store lookup `getEntry` and the id source `VNID()` are parameters: `getEntry(key)` is what
 * the store answers for an entry key, and `freshId(k)` is the id the k-th call of `VNID()` returns.
 * Building the draft is the modelled part; submitting and accepting it are not.
 */
module Concepts {
  import opened Common
  import opened Text
  import opened Utils
  import opened Bulk

  /** A store id. */
  type Vnid = string

  /** The store id of the concept entry type. */
  const ConceptType: Vnid := "_vj4bFX3CVAGMis4aiL4AJ"

  /** The properties the importer writes on a concept entry. */
  datatype Property = WikidataProp | LevelProp | WorksCountProp | MagProp | WikipediaProp | UpdatedDateProp | ParentProp

  /** The store id of each property. */
  function PropertyId(p: Property): Vnid {
    match p
    case WikidataProp => "_63mbf1PWCiYQVs53ef3lcp"
    case LevelProp => "_3AyM6hRQL23PhhHZrboCYr"
    case WorksCountProp => "_4OujpOZawdTunrjtSQrPcb"
    case MagProp => "_1i2GXNofq5YEgaA3R9F4KN"
    case WikipediaProp => "_468JDObMgV93qhEfHSAWnr"
    case UpdatedDateProp => "_1M7JXgQKUfgSageiKdR82T"
    case ParentProp => "_1uwLIPU2RI457BkrPs3rgM"
  }

  datatype Ancestor = Ancestor(id: string, level: int, displayName: string)

  datatype ConceptIds = ConceptIds(mag: Option<string>, wikipedia: Option<string>)

  /** The fields of a provider concept record that the importer reads. */
  datatype Concept = Concept(
    id: string,
    displayName: string,
    wikidata: Option<string>,
    level: int,
    description: Option<string>,
    worksCount: int,
    ids: ConceptIds,
    ancestors: Option<seq<Ancestor>>,
    updatedDate: Option<string>)

  /**
   * The content edits of a draft. An `AddPropertyValue` names its property by the `Property`
   * whose store id `PropertyId` gives.
   */
  datatype ContentEdit =
    | CreateEntry(id: Vnid, friendlyId: string, name: string, entryType: Vnid, description: string)
    | AddPropertyValue(property: Property, entry: Vnid, valueExpression: string, propertyFactId: Vnid, note: string)

  /** What the store answers to `getEntry(key)`: the entry's id, `NotFound`, or another failure. */
  datatype Lookup = Found(id: Vnid) | NotFound | Unavailable(reason: string)

  /** Why an import throws: a parent that is not in the store, or a failed lookup. */
  datatype ImportError = EntryNotFound(key: string) | LookupFailed(key: string, reason: string)

  datatype Outcome =
    | AlreadyExists
    | Created(draft: seq<ContentEdit>)
    | Failed(error: ImportError)

  /** A property value the draft adds to the new entry. */
  datatype PropertyValue = PropertyValue(property: Property, valueExpression: string)

  /** The id an edit introduces: the entry's for a `CreateEntry`, the fact's for an `AddPropertyValue`. */
  function NewId(e: ContentEdit): Vnid {
    match e
    case CreateEntry(id, _, _, _, _) => id
    case AddPropertyValue(_, _, _, factId, _) => factId
  }

  // ---------------------------------------------------------------------------
  // Specification

  /** The ancestors kept as parents: exactly those one level up. */
  function Parents(concept: Concept): (parents: seq<Ancestor>)
    ensures forall a :: a in parents <==> concept.ancestors.Some? && a in concept.ancestors.value && a.level == concept.level - 1
  {
    var ancestors := if concept.ancestors.Some? then concept.ancestors.value else [];
    FilterMembers(ancestors, (a: Ancestor) => a.level == concept.level - 1);
    Filter(ancestors, (a: Ancestor) => a.level == concept.level - 1)
  }

  /** `[[/entry/<id>]]`: a reference to an entry, the value of a parent link. */
  function EntryLink(id: Vnid): string {
    "[[/entry/" + id + "]]"
  }

  /** A value that is pushed only when its field is truthy. */
  function Optional(present: bool, property: Property, valueExpression: string): (values: seq<PropertyValue>)
    ensures |values| <= 1
  {
    if present then [PropertyValue(property, valueExpression)] else []
  }

  /** `getIdFromUrl(url).replace("%20", "_")`: the article name, its first encoded space made an underscore. */
  function WikipediaArticle(url: string): (article: string)
    ensures !Contains(GetIdFromUrl(url), "%20") ==> article == GetIdFromUrl(url)
    ensures Contains(GetIdFromUrl(url), "%20") ==> |article| == |GetIdFromUrl(url)| - 2
    ensures forall i: nat :: OccursAt(GetIdFromUrl(url), "%20", i) && (forall j: nat :: j < i ==> !OccursAt(GetIdFromUrl(url), "%20", j)) ==>
      article == GetIdFromUrl(url)[..i] + "_" + GetIdFromUrl(url)[i + 3..]
  {
    ReplaceFirst(GetIdFromUrl(url), "%20", "_")
  }

  /**
   * The quoted value expressions, in push order: the Wikidata id (last segment of its URL), the
   * level, the works count, the MAG id as given, the Wikipedia article name, the full updated
   * date. An absent optional field has the placeholder "", which is never pushed.
   */
  function ValueExpressions(concept: Concept): (e: seq<string>)
    ensures |e| == 6
  {
    [ if concept.wikidata.Some? then Quote(GetIdFromUrl(concept.wikidata.value)) else "",
      Quote(IntToString(concept.level)),
      Quote(IntToString(concept.worksCount)),
      if concept.ids.mag.Some? then Quote(concept.ids.mag.value) else "",
      if concept.ids.wikipedia.Some? then Quote(WikipediaArticle(concept.ids.wikipedia.value)) else "",
      if concept.updatedDate.Some? then Quote(concept.updatedDate.value) else "" ]
  }

  /**
   * The values pushed before the parent links, whatever their expressions: an optional Wikidata
   * value, the level, the works count, then optional MAG, Wikipedia and updated-date values.
   */
  function ValueSequence(wikidata: bool, mag: bool, wikipedia: bool, updated: bool, e: seq<string>): seq<PropertyValue>
    requires |e| == 6
  {
    Optional(wikidata, WikidataProp, e[0]) + [PropertyValue(LevelProp, e[1])] + [PropertyValue(WorksCountProp, e[2])]
    + Optional(mag, MagProp, e[3]) + Optional(wikipedia, WikipediaProp, e[4]) + Optional(updated, UpdatedDateProp, e[5])
  }

  /** The property values before the parent links, in the order they are pushed; optional ones only when truthy. */
  function ValueFacts(concept: Concept): seq<PropertyValue> {
    ValueSequence(Truthy(concept.wikidata), Truthy(concept.ids.mag), Truthy(concept.ids.wikipedia),
                  Truthy(concept.updatedDate), ValueExpressions(concept))
  }

  /** One parent link per looked-up parent id, in order. */
  function ParentValues(ids: seq<Vnid>): (values: seq<PropertyValue>)
    ensures |values| == |ids|
    decreases |ids|
  {
    if ids == [] then [] else ParentValues(ids[..|ids| - 1]) + [PropertyValue(ParentProp, EntryLink(Last(ids)))]
  }

  /** The k-th parent link refers to the k-th parent id. */
  lemma {:induction false} ParentValuesAt(ids: seq<Vnid>)
    ensures forall k :: 0 <= k < |ids| ==> ParentValues(ids)[k] == PropertyValue(ParentProp, EntryLink(ids[k]))
    decreases |ids|
  {
    if ids != [] {
      var init := ids[..|ids| - 1];
      ParentValuesAt(init);
      assert forall k :: 0 <= k < |init| ==> init[k] == ids[k];
    }
  }

  /**
   * The store ids of the parents, looked up one after the other; the first lookup that does not
   * find its entry ends the import with its error.
   */
  function ResolveParents(parents: seq<Ancestor>, getEntry: string -> Lookup): (r: Result<seq<Vnid>, ImportError>)
    ensures r.Ok? ==> |r.value| == |parents|
    decreases |parents|
  {
    if parents == [] then Ok([])
    else
      var key := GetIdFromUrl(Last(parents).id);
      match ResolveParents(parents[..|parents| - 1], getEntry)
      case Err(e) => Err(e)
      case Ok(ids) =>
        match getEntry(key)
        case Found(id) => Ok(ids + [id])
        case NotFound => Err(EntryNotFound(key))
        case Unavailable(reason) => Err(LookupFailed(key, reason))
  }

  /** The parents resolve exactly when every one of them is found, and then to their ids, in order. */
  lemma {:induction false} ResolveParentsFindsEach(parents: seq<Ancestor>, getEntry: string -> Lookup)
    ensures var r := ResolveParents(parents, getEntry);
      && (r.Ok? <==> forall k :: 0 <= k < |parents| ==> getEntry(GetIdFromUrl(parents[k].id)).Found?)
      && (r.Ok? ==> forall k :: 0 <= k < |parents| ==> r.value[k] == getEntry(GetIdFromUrl(parents[k].id)).id)
    decreases |parents|
  {
    if parents != [] {
      var n := |parents| - 1;
      var init := parents[..n];
      ResolveParentsFindsEach(init, getEntry);
      assert forall k :: 0 <= k < n ==> init[k] == parents[k];
      var prev := ResolveParents(init, getEntry);
      if prev.Err? {
        var k :| 0 <= k < n && !getEntry(GetIdFromUrl(init[k].id)).Found?;
        assert !getEntry(GetIdFromUrl(parents[k].id)).Found?;
      }
    }
  }

  /** The `AddPropertyValue` of one value on entry `entry`, with fact id `factId`. */
  function ValueEdit(entry: Vnid, v: PropertyValue, factId: Vnid): ContentEdit {
    AddPropertyValue(v.property, entry, v.valueExpression, factId, "")
  }

  /** The `CreateEntry` that opens the draft for `concept`, with the new entry's id. */
  function CreateConceptEntry(concept: Concept, entry: Vnid): ContentEdit {
    CreateEntry(entry, GetIdFromUrl(concept.id), concept.displayName, ConceptType,
                if concept.description.Some? then concept.description.value else "")
  }

  /**
   * The draft: the entry created under the first fresh id, then one `AddPropertyValue` per value,
   * the i-th of them taking the (i+1)-th fresh id as its fact id.
   */
  function Draft(concept: Concept, values: seq<PropertyValue>, freshId: nat -> Vnid): (draft: seq<ContentEdit>)
    ensures |draft| == 1 + |values|
    decreases |values|
  {
    if values == [] then [CreateConceptEntry(concept, freshId(0))]
    else Draft(concept, values[..|values| - 1], freshId) + [ValueEdit(freshId(0), Last(values), freshId(|values|))]
  }

  /** Every edit of the draft, and the fresh id each one introduces, in order. */
  lemma {:induction false} DraftShape(concept: Concept, values: seq<PropertyValue>, freshId: nat -> Vnid)
    ensures var draft := Draft(concept, values, freshId);
      && draft[0] == CreateConceptEntry(concept, freshId(0))
      && (forall i :: 0 <= i < |values| ==> draft[i + 1] == ValueEdit(freshId(0), values[i], freshId(i + 1)))
      && (forall i :: 0 <= i < |draft| ==> NewId(draft[i]) == freshId(i))
    decreases |values|
  {
    if values != [] {
      var init := values[..|values| - 1];
      DraftShape(concept, init, freshId);
      assert forall i :: 0 <= i < |init| ==> init[i] == values[i];
    }
  }

  /** What importing `concept` does, given the store's answers and the fresh ids. */
  function ImportConceptSpec(concept: Concept, getEntry: string -> Lookup, freshId: nat -> Vnid): (r: Outcome)
    ensures r.AlreadyExists? <==> getEntry(GetIdFromUrl(concept.id)).Found?
    ensures getEntry(GetIdFromUrl(concept.id)).Unavailable? ==>
      r == Failed(LookupFailed(GetIdFromUrl(concept.id), getEntry(GetIdFromUrl(concept.id)).reason))
    ensures getEntry(GetIdFromUrl(concept.id)).NotFound? && ResolveParents(Parents(concept), getEntry).Err? ==>
      r == Failed(ResolveParents(Parents(concept), getEntry).error)
    ensures r.Created? <==> getEntry(GetIdFromUrl(concept.id)).NotFound? && ResolveParents(Parents(concept), getEntry).Ok?
    ensures r.Created? ==> |r.draft| == 1 + |ValueFacts(concept)| + |Parents(concept)|
  {
    var key := GetIdFromUrl(concept.id);
    match getEntry(key)
    case Found(_) => AlreadyExists
    case Unavailable(reason) => Failed(LookupFailed(key, reason))
    case NotFound =>
      match ResolveParents(Parents(concept), getEntry)
      case Err(e) => Failed(e)
      case Ok(ids) => Created(Draft(concept, ValueFacts(concept) + ParentValues(ids), freshId))
  }

  // ---------------------------------------------------------------------------
  // The importer

  lemma DraftSnoc(concept: Concept, values: seq<PropertyValue>, v: PropertyValue, freshId: nat -> Vnid)
    ensures Draft(concept, values + [v], freshId)
         == Draft(concept, values, freshId) + [ValueEdit(freshId(0), v, freshId(|values| + 1))]
  {
    assert (values + [v])[..|values|] == values;
  }

  lemma ParentValuesSnoc(ids: seq<Vnid>, id: Vnid)
    ensures ParentValues(ids + [id]) == ParentValues(ids) + [PropertyValue(ParentProp, EntryLink(id))]
  {
    assert (ids + [id])[..|ids|] == ids;
  }

  /** Once a prefix of the parents fails to resolve, so do all the parents, with the same error. */
  lemma {:induction false} ResolveParentsFailurePersists(parents: seq<Ancestor>, n: nat, getEntry: string -> Lookup)
    requires n <= |parents|
    requires ResolveParents(parents[..n], getEntry).Err?
    ensures ResolveParents(parents, getEntry) == ResolveParents(parents[..n], getEntry)
    decreases |parents| - n
  {
    if n < |parents| {
      var m := |parents| - 1;
      assert parents[..n] == parents[..m][..n];
      ResolveParentsFailurePersists(parents[..m], n, getEntry);
      assert parents[..|parents|][..m] == parents[..m];
    } else {
      assert parents[..n] == parents;
    }
  }

  /** One more parent: its lookup either extends the resolved ids or ends the resolution with its error. */
  lemma ResolveParentsStep(parents: seq<Ancestor>, i: nat, getEntry: string -> Lookup, ids: seq<Vnid>)
    requires i < |parents|
    requires ResolveParents(parents[..i], getEntry) == Ok(ids)
    ensures var key := GetIdFromUrl(parents[i].id);
      match getEntry(key)
      case Found(id) => ResolveParents(parents[..i + 1], getEntry) == Ok(ids + [id])
      case NotFound => ResolveParents(parents, getEntry) == Err(EntryNotFound(key))
      case Unavailable(reason) => ResolveParents(parents, getEntry) == Err(LookupFailed(key, reason))
  {
    assert parents[..i + 1][..i] == parents[..i];
    assert Last(parents[..i + 1]) == parents[i];
    if !getEntry(GetIdFromUrl(parents[i].id)).Found? {
      ResolveParentsFailurePersists(parents, i + 1, getEntry);
    }
  }

  /** A parent link pushed onto the draft is the draft of one more parent id. */
  lemma DraftParentStep(concept: Concept, values: seq<PropertyValue>, ids: seq<Vnid>, id: Vnid, freshId: nat -> Vnid)
    ensures Draft(concept, values + ParentValues(ids + [id]), freshId)
         == Draft(concept, values + ParentValues(ids), freshId)
            + [AddPropertyValue(ParentProp, freshId(0), EntryLink(id), freshId(1 + |values| + |ids|), "")]
  {
    var v := PropertyValue(ParentProp, EntryLink(id));
    var before := ParentValues(ids);
    ParentValuesSnoc(ids, id);
    DraftSnoc(concept, values + before, v, freshId);
    assert values + (before + [v]) == values + before + [v];
  }

  /**
   * The loop of `importConceptToTheDatabase` over the parents: look each one up and push a link
   * to its entry, or stop with the first failed lookup. `edits` is the draft built so far on
   * `values`, and each link takes the next fresh id.
   */
  method PushParentLinks(concept: Concept, parents: seq<Ancestor>, getEntry: string -> Lookup, freshId: nat -> Vnid,
                         neolaceId: Vnid, edits: seq<ContentEdit>, ghost values: seq<PropertyValue>)
    returns (r: Result<seq<ContentEdit>, ImportError>)
    requires neolaceId == freshId(0)
    requires edits == Draft(concept, values, freshId)
    ensures ResolveParents(parents, getEntry).Err? ==> r == Err(ResolveParents(parents, getEntry).error)
    ensures ResolveParents(parents, getEntry).Ok? ==>
      r == Ok(Draft(concept, values + ParentValues(ResolveParents(parents, getEntry).value), freshId))
  {
    var draft := edits;
    var calls := |edits|;  // how many times VNID() has been called
    ghost var parentIds: seq<Vnid> := [];
    assert values + ParentValues(parentIds) == values;
    for i := 0 to |parents|
      invariant ResolveParents(parents[..i], getEntry) == Ok(parentIds)
      invariant calls == 1 + |values| + |parentIds|
      invariant draft == Draft(concept, values + ParentValues(parentIds), freshId)
    {
      var ancestorId := GetIdFromUrl(parents[i].id);
      ResolveParentsStep(parents, i, getEntry, parentIds);
      match getEntry(ancestorId) {
        case NotFound =>
          return Err(EntryNotFound(ancestorId));
        case Unavailable(reason) =>
          return Err(LookupFailed(ancestorId, reason));
        case Found(entryVnid) =>
          draft := PushParentLink(concept, values, parentIds, entryVnid, freshId, neolaceId, draft, calls);
          calls, parentIds := calls + 1, parentIds + [entryVnid];
      }
    }
    assert parents[..|parents|] == parents;
    return Ok(draft);
  }

  /** `edits.push({code: "AddPropertyValue", ...})` for one resolved parent, its fact id from the next `VNID()` call. */
  method PushParentLink(concept: Concept, ghost values: seq<PropertyValue>, ghost parentIds: seq<Vnid>, entryVnid: Vnid,
                        freshId: nat -> Vnid, neolaceId: Vnid, edits: seq<ContentEdit>, calls: nat)
    returns (draft: seq<ContentEdit>)
    requires neolaceId == freshId(0) && calls == 1 + |values| + |parentIds|
    requires edits == Draft(concept, values + ParentValues(parentIds), freshId)
    ensures draft == Draft(concept, values + ParentValues(parentIds + [entryVnid]), freshId)
  {
    DraftParentStep(concept, values, parentIds, entryVnid, freshId);
    draft := edits + [AddPropertyValue(ParentProp, neolaceId, EntryLink(entryVnid), freshId(calls), "")];
  }

  /** For a concept the store does not hold, the import fails with the first failed parent lookup or creates the draft. */
  lemma ImportConceptSpecNotFound(concept: Concept, getEntry: string -> Lookup, freshId: nat -> Vnid)
    requires getEntry(GetIdFromUrl(concept.id)).NotFound?
    ensures var resolved := ResolveParents(Parents(concept), getEntry);
      ImportConceptSpec(concept, getEntry, freshId)
        == if resolved.Err? then Failed(resolved.error)
           else Created(Draft(concept, ValueFacts(concept) + ParentValues(resolved.value), freshId))
  {
  }

  /**
   * `if (present) edits.push({code: "AddPropertyValue", ...})`: one value on the new entry, its
   * fact id taken from the next `VNID()` call (one call has been made per edit so far).
   */
  method PushValue(concept: Concept, freshId: nat -> Vnid, neolaceId: Vnid, edits: seq<ContentEdit>,
                   ghost values: seq<PropertyValue>, present: bool, property: Property, valueExpression: string)
    returns (pushed: seq<ContentEdit>)
    requires neolaceId == freshId(0)
    requires edits == Draft(concept, values, freshId)
    ensures pushed == Draft(concept, values + Optional(present, property, valueExpression), freshId)
  {
    if present {
      DraftSnoc(concept, values, PropertyValue(property, valueExpression), freshId);
      pushed := edits + [AddPropertyValue(property, neolaceId, valueExpression, freshId(|edits|), "")];
    } else {
      assert values + [] == values;
      pushed := edits;
    }
  }

  /**
   * The pushes of `importConceptToTheDatabase` after the entry creation: the optional Wikidata
   * id, the level, the works count, then the optional MAG id, Wikipedia article and updated date,
   * each with the next fresh fact id.
   */
  method PushValueFacts(concept: Concept, freshId: nat -> Vnid, neolaceId: Vnid, created: seq<ContentEdit>)
    returns (edits: seq<ContentEdit>)
    requires neolaceId == freshId(0)
    requires created == Draft(concept, [], freshId)
    ensures edits == Draft(concept, ValueFacts(concept), freshId)
  {
    var e := ValueExpressions(concept);
    ghost var values := Optional(Truthy(concept.wikidata), WikidataProp, e[0]);
    assert [] + values == values;
    edits := PushValue(concept, freshId, neolaceId, created, [], Truthy(concept.wikidata), WikidataProp, e[0]);
    edits := PushValue(concept, freshId, neolaceId, edits, values, true, LevelProp, e[1]);
    values := values + [PropertyValue(LevelProp, e[1])];
    edits := PushValue(concept, freshId, neolaceId, edits, values, true, WorksCountProp, e[2]);
    values := values + [PropertyValue(WorksCountProp, e[2])];
    edits := PushValue(concept, freshId, neolaceId, edits, values, Truthy(concept.ids.mag), MagProp, e[3]);
    values := values + Optional(Truthy(concept.ids.mag), MagProp, e[3]);
    edits := PushValue(concept, freshId, neolaceId, edits, values, Truthy(concept.ids.wikipedia), WikipediaProp, e[4]);
    values := values + Optional(Truthy(concept.ids.wikipedia), WikipediaProp, e[4]);
    edits := PushValue(concept, freshId, neolaceId, edits, values, Truthy(concept.updatedDate), UpdatedDateProp, e[5]);
    values := values + Optional(Truthy(concept.updatedDate), UpdatedDateProp, e[5]);
    assert values == ValueFacts(concept);
  }

  /**
   * `importConceptToTheDatabase`: look the concept up and stop if it exists; otherwise push the
   * entry creation and the property values in order, then one parent link per parent, each after
   * looking the parent up, and hand back the draft to be submitted.
   */
  method ImportConcept(concept: Concept, getEntry: string -> Lookup, freshId: nat -> Vnid) returns (outcome: Outcome)
    ensures outcome == ImportConceptSpec(concept, getEntry, freshId)
  {
    var id := GetIdFromUrl(concept.id);
    match getEntry(id) {
      case Found(_) =>
        return AlreadyExists;
      case Unavailable(reason) =>
        return Failed(LookupFailed(id, reason));
      case NotFound =>
    }

    var neolaceId := freshId(0);
    var edits := [CreateEntry(neolaceId, id, concept.displayName, ConceptType,
                              if concept.description.Some? then concept.description.value else "")];
    assert edits == Draft(concept, [], freshId);
    edits := PushValueFacts(concept, freshId, neolaceId, edits);

    var linked := PushParentLinks(concept, Parents(concept), getEntry, freshId, neolaceId, edits, ValueFacts(concept));
    ImportConceptSpecNotFound(concept, getEntry, freshId);
    match linked {
      case Err(e) => return Failed(e);
      case Ok(draft) => return Created(draft);
    }
  }

  // ---------------------------------------------------------------------------
  // Properties of the import

  /**
   * An existing concept is left alone, a failed lookup of the concept is reported, and a draft is
   * created exactly when the concept is new and every parent is in the store.
   */
  lemma ImportConceptOutcomes(concept: Concept, getEntry: string -> Lookup, freshId: nat -> Vnid)
    ensures var key := GetIdFromUrl(concept.id);
            var outcome := ImportConceptSpec(concept, getEntry, freshId);
      && (outcome.AlreadyExists? <==> getEntry(key).Found?)
      && (getEntry(key).Unavailable? ==> outcome == Failed(LookupFailed(key, getEntry(key).reason)))
      && (outcome.Created? <==>
            getEntry(key).NotFound? &&
            forall k :: 0 <= k < |Parents(concept)| ==> getEntry(GetIdFromUrl(Parents(concept)[k].id)).Found?)
  {
    ResolveParentsFindsEach(Parents(concept), getEntry);
  }

  /** The draft of some values followed by parent links: each value, then a link to each id, in order. */
  lemma DraftWithParents(concept: Concept, values: seq<PropertyValue>, ids: seq<Vnid>, freshId: nat -> Vnid)
    ensures var draft := Draft(concept, values + ParentValues(ids), freshId);
      && |draft| == 1 + |values| + |ids|
      && draft[0] == CreateConceptEntry(concept, freshId(0))
      && (forall i :: 0 <= i < |values| ==> draft[1 + i] == ValueEdit(freshId(0), values[i], freshId(1 + i)))
      && (forall k :: 0 <= k < |ids| ==>
            draft[1 + |values| + k]
              == AddPropertyValue(ParentProp, freshId(0), EntryLink(ids[k]), freshId(1 + |values| + k), ""))
  {
    ParentValuesAt(ids);
    var all := values + ParentValues(ids);
    DraftShape(concept, all, freshId);
    assert forall i :: 0 <= i < |values| ==> all[i] == values[i];
    assert forall k :: 0 <= k < |ids| ==> all[|values| + k] == PropertyValue(ParentProp, EntryLink(ids[k]));
  }

  /**
   * `draft` creates the concept's entry, then sets `values` in order, then links each of `parents`,
   * in order, to the entry the store holds for it; each edit takes its id from the next `VNID()` call.
   */
  ghost predicate CreatesWithParents(draft: seq<ContentEdit>, concept: Concept, values: seq<PropertyValue>,
                                     parents: seq<Ancestor>, getEntry: string -> Lookup, freshId: nat -> Vnid)
  {
    && |draft| == 1 + |values| + |parents|
    && draft[0] == CreateConceptEntry(concept, freshId(0))
    && (forall i :: 0 <= i < |values| ==> draft[1 + i] == ValueEdit(freshId(0), values[i], freshId(1 + i)))
    && (forall k :: 0 <= k < |parents| ==>
          && getEntry(GetIdFromUrl(parents[k].id)).Found?
          && draft[1 + |values| + k]
               == AddPropertyValue(ParentProp, freshId(0), EntryLink(getEntry(GetIdFromUrl(parents[k].id)).id),
                                   freshId(1 + |values| + k), ""))
  }

  lemma DraftWithResolvedParents(concept: Concept, values: seq<PropertyValue>, parents: seq<Ancestor>,
                                 getEntry: string -> Lookup, freshId: nat -> Vnid)
    requires ResolveParents(parents, getEntry).Ok?
    ensures CreatesWithParents(Draft(concept, values + ParentValues(ResolveParents(parents, getEntry).value), freshId),
                               concept, values, parents, getEntry, freshId)
  {
    ResolveParentsFindsEach(parents, getEntry);
    DraftWithParents(concept, values, ResolveParents(parents, getEntry).value, freshId);
  }

  /** A created draft holds the entry, the concept's values and a link to each parent's store entry, in that order. */
  lemma CreatedDraft(concept: Concept, getEntry: string -> Lookup, freshId: nat -> Vnid)
    requires ImportConceptSpec(concept, getEntry, freshId).Created?
    ensures CreatesWithParents(ImportConceptSpec(concept, getEntry, freshId).draft,
                               concept, ValueFacts(concept), Parents(concept), getEntry, freshId)
  {
    var resolved := ResolveParents(Parents(concept), getEntry);
    ImportConceptSpecNotFound(concept, getEntry, freshId);
    assert resolved.Ok?;
    assert ImportConceptSpec(concept, getEntry, freshId).draft
        == Draft(concept, ValueFacts(concept) + ParentValues(resolved.value), freshId);
    DraftWithResolvedParents(concept, ValueFacts(concept), Parents(concept), getEntry, freshId);
  }

  /** With a fresh-id source that never repeats, the edits of a draft introduce pairwise distinct ids. */
  lemma DraftIdsDistinct(concept: Concept, values: seq<PropertyValue>, freshId: nat -> Vnid)
    requires forall i: nat, j: nat :: i != j ==> freshId(i) != freshId(j)
    ensures var draft := Draft(concept, values, freshId);
      forall i, j :: 0 <= i < j < |draft| ==> NewId(draft[i]) != NewId(draft[j])
  {
    DraftShape(concept, values, freshId);
  }

  /** The properties the values set, in order. */
  function PropertiesOf(values: seq<PropertyValue>): (props: seq<Property>)
    ensures |props| == |values|
    ensures forall i :: 0 <= i < |values| ==> props[i] == values[i].property
  {
    seq(|values|, i requires 0 <= i < |values| => values[i].property)
  }

  lemma PropertiesOfAppend(a: seq<PropertyValue>, b: seq<PropertyValue>)
    ensures PropertiesOf(a + b) == PropertiesOf(a) + PropertiesOf(b)
  {
  }

  /**
   * The properties of the values pushed before the parent links, in push order: Wikidata when
   * present, the level, the works count, then MAG, Wikipedia and the updated date when present.
   */
  function PushedProperties(wikidata: bool, mag: bool, wikipedia: bool, updated: bool): seq<Property> {
    IfPresent(wikidata, WikidataProp) + [LevelProp] + [WorksCountProp]
    + IfPresent(mag, MagProp) + IfPresent(wikipedia, WikipediaProp) + IfPresent(updated, UpdatedDateProp)
  }

  function IfPresent(present: bool, property: Property): seq<Property> {
    if present then [property] else []
  }

  /**
   * Each optional property is set exactly when it is present, the level and works count always,
   * never a parent link; as there are exactly as many values as properties set, none is set twice.
   */
  lemma PushedPropertiesFacts(wikidata: bool, mag: bool, wikipedia: bool, updated: bool)
    ensures var props := PushedProperties(wikidata, mag, wikipedia, updated);
      && LevelProp in props && WorksCountProp in props
      && (WikidataProp in props <==> wikidata)
      && (MagProp in props <==> mag)
      && (WikipediaProp in props <==> wikipedia)
      && (UpdatedDateProp in props <==> updated)
      && ParentProp !in props
      && |props| == 2 + (if wikidata then 1 else 0) + (if mag then 1 else 0) + (if wikipedia then 1 else 0)
                      + (if updated then 1 else 0)
  {
  }

  /** The properties of the values, in push order. */
  lemma PropertiesOfValueSequence(wikidata: bool, mag: bool, wikipedia: bool, updated: bool, e: seq<string>)
    requires |e| == 6
    ensures PropertiesOf(ValueSequence(wikidata, mag, wikipedia, updated, e)) == PushedProperties(wikidata, mag, wikipedia, updated)
  {
    var o0 := Optional(wikidata, WikidataProp, e[0]);
    var o3 := Optional(mag, MagProp, e[3]);
    var o4 := Optional(wikipedia, WikipediaProp, e[4]);
    var o5 := Optional(updated, UpdatedDateProp, e[5]);
    var l := [PropertyValue(LevelProp, e[1])];
    var w := [PropertyValue(WorksCountProp, e[2])];
    PropertiesOfAppend(o0, l);
    PropertiesOfAppend(o0 + l, w);
    PropertiesOfAppend(o0 + l + w, o3);
    PropertiesOfAppend(o0 + l + w + o3, o4);
    PropertiesOfAppend(o0 + l + w + o3 + o4, o5);
    PropertiesOfOptional(wikidata, WikidataProp, e[0]);
    PropertiesOfOptional(mag, MagProp, e[3]);
    PropertiesOfOptional(wikipedia, WikipediaProp, e[4]);
    PropertiesOfOptional(updated, UpdatedDateProp, e[5]);
    assert PropertiesOf(l) == [LevelProp] && PropertiesOf(w) == [WorksCountProp];
    assert PropertiesOf(o0 + l + w + o3 + o4 + o5)
        == PropertiesOf(o0) + PropertiesOf(l) + PropertiesOf(w) + PropertiesOf(o3) + PropertiesOf(o4) + PropertiesOf(o5);
  }

  lemma PropertiesOfOptional(present: bool, property: Property, valueExpression: string)
    ensures PropertiesOf(Optional(present, property, valueExpression)) == IfPresent(present, property)
  {
  }

  /** A concept's values set the pushed properties of its truthy fields, in order. */
  lemma ValueFactsProperties(concept: Concept)
    ensures PropertiesOf(ValueFacts(concept))
         == PushedProperties(Truthy(concept.wikidata), Truthy(concept.ids.mag), Truthy(concept.ids.wikipedia),
                             Truthy(concept.updatedDate))
  {
    PropertiesOfValueSequence(Truthy(concept.wikidata), Truthy(concept.ids.mag), Truthy(concept.ids.wikipedia),
                              Truthy(concept.updatedDate), ValueExpressions(concept));
  }

  /** Where each property's expression sits among the value expressions (a parent link has none). */
  function Slot(p: Property): nat {
    match p
    case WikidataProp => 0
    case LevelProp => 1
    case WorksCountProp => 2
    case MagProp => 3
    case WikipediaProp => 4
    case UpdatedDateProp => 5
    case ParentProp => 6
  }

  /** Every value carries the expression of its own property. */
  lemma ValueSequenceSlots(wikidata: bool, mag: bool, wikipedia: bool, updated: bool, e: seq<string>)
    requires |e| == 6
    ensures forall v :: v in ValueSequence(wikidata, mag, wikipedia, updated, e) ==>
      Slot(v.property) < 6 && v.valueExpression == e[Slot(v.property)]
  {
  }

  /** Each value of a concept carries its property's expression. */
  lemma ValueFactsSlots(concept: Concept)
    ensures forall v :: v in ValueFacts(concept) ==>
      Slot(v.property) < 6 && v.valueExpression == ValueExpressions(concept)[Slot(v.property)]
  {
    ValueSequenceSlots(Truthy(concept.wikidata), Truthy(concept.ids.mag), Truthy(concept.ids.wikipedia),
                       Truthy(concept.updatedDate), ValueExpressions(concept));
  }

  /** The level and the works count read back as the record's numbers. */
  lemma CountExpressionsReadBack(concept: Concept)
    ensures var e := ValueExpressions(concept);
      && ReadString(Fact(e[1])).Some? && ParseInt(ReadString(Fact(e[1])).value) == Some(concept.level)
      && ReadString(Fact(e[2])).Some? && ParseInt(ReadString(Fact(e[2])).value) == Some(concept.worksCount)
  {
    var e := ValueExpressions(concept);
    assert e[1] == Quote(IntToString(concept.level)) && e[2] == Quote(IntToString(concept.worksCount));
    NumberReadBack(e[1], concept.level);
    NumberReadBack(e[2], concept.worksCount);
  }

  /** The Wikidata id reads back as the last segment of its URL, the MAG id unchanged. */
  lemma IdentifierExpressionsReadBack(concept: Concept)
    ensures var e := ValueExpressions(concept);
      && (concept.wikidata.Some? ==>
            ReadString(Fact(e[0])).Some? && IsLastSegment(concept.wikidata.value, ReadString(Fact(e[0])).value))
      && (concept.ids.mag.Some? ==> ReadString(Fact(e[3])) == concept.ids.mag)
  {
    var e := ValueExpressions(concept);
    if concept.wikidata.Some? {
      QuotedReadBack(e[0], GetIdFromUrl(concept.wikidata.value));
      GetIdFromUrlIsLastSegment(concept.wikidata.value);
    }
    if concept.ids.mag.Some? {
      QuotedReadBack(e[3], concept.ids.mag.value);
    }
  }

  /** The Wikipedia id reads back as the article name, the updated date unchanged. */
  lemma TextExpressionsReadBack(concept: Concept)
    ensures var e := ValueExpressions(concept);
      && (concept.ids.wikipedia.Some? ==>
            ReadString(Fact(e[4])) == Some(WikipediaArticle(concept.ids.wikipedia.value)))
      && (concept.updatedDate.Some? ==> ReadString(Fact(e[5])) == concept.updatedDate)
  {
    var e := ValueExpressions(concept);
    if concept.ids.wikipedia.Some? {
      QuotedReadBack(e[4], WikipediaArticle(concept.ids.wikipedia.value));
    }
    if concept.updatedDate.Some? {
      QuotedReadBack(e[5], concept.updatedDate.value);
    }
  }

  /** A quoted text reads back as the text. */
  lemma QuotedReadBack(expression: string, v: string)
    requires expression == Quote(v)
    ensures ReadString(Fact(expression)) == Some(v)
  {
    ReadQuoted(v);
  }

  /** A quoted number reads back as the number. */
  lemma NumberReadBack(expression: string, n: int)
    requires expression == Quote(IntToString(n))
    ensures ReadString(Fact(expression)).Some? && ParseInt(ReadString(Fact(expression)).value) == Some(n)
  {
    ReadQuoted(IntToString(n));
    IntToStringRoundTrip(n);
  }

  /**
   * The concept importer's Wikipedia id replaces only the first "%20" (`replace`, not the
   * `replaceAll` of the other importers): an article name with two encoded spaces keeps one.
   */
  lemma WikipediaArticleKeepsSecondSpace(url: string, i: nat, j: nat)
    requires OccursAt(GetIdFromUrl(url), "%20", i) && OccursAt(GetIdFromUrl(url), "%20", j) && i + 3 <= j
    ensures Contains(WikipediaArticle(url), "%20")
    ensures GetWikipediaIdFromUrl(Some(url)).Some? && !Contains(GetWikipediaIdFromUrl(Some(url)).value, "%20")
  {
    ReplaceFirstKeepsLaterOccurrence(GetIdFromUrl(url), "%20", "_", i, j);
  }
}
