/**
 * The bulk edits the importers produce. Each edit names its target entry by key; the store applies
 * a batch of them together. Property facts and relationships are "set" edits: they replace the
 * whole fact list (or target list) of the property they name.
 */
module Bulk {
  import opened Common

  /** One stored value of a property, written as a lookup expression (`"text"`, `42`, `date("…")`). */
  datatype Fact = Fact(valueExpression: string)

  /** The full list of facts a property should hold after the edit. */
  datatype PropertyFacts = PropertyFacts(propertyKey: string, facts: seq<Fact>)

  /** The fields an upsert writes; the importers only ever write the name. */
  datatype EntryFields = EntryFields(name: string)

  /** The full list of target entry keys a relationship property should hold after the edit. */
  datatype RelationshipTargets = RelationshipTargets(propertyKey: string, toEntries: seq<string>)

  datatype BulkEdit =
      /** Create the entry with this type and key if it is missing; `setFields` is written
          whether or not it existed, `setOnCreate` only when it is created. */
    | UpsertEntryByKey(entryTypeKey: string, entryKey: string,
                       setFields: Option<EntryFields>, setOnCreate: Option<EntryFields>)
    | SetPropertyFacts(entryKey: string, properties: seq<PropertyFacts>)
    | SetRelationships(entryKey: string, relationships: seq<RelationshipTargets>)

  /** The property keys of a `SetPropertyFacts` list, in order. */
  function PropertyKeys(properties: seq<PropertyFacts>): (keys: seq<string>)
    ensures |keys| == |properties|
    ensures forall i :: 0 <= i < |keys| ==> keys[i] == properties[i].propertyKey
  {
    seq(|properties|, i requires 0 <= i < |properties| => properties[i].propertyKey)
  }
}
