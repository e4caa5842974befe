/**
 * The slice of a document store the task-tracker repositories use: a
 * document maps field names to string or date values, a collection maps
 * each record's ID to its document, and an update `$set`s some fields of
 * one document. A field holding null and a field that is missing read
 * the same (getString and getDate return null for both), so a document
 * simply leaves such a field out.
 */
module Documents {
  import opened Wrappers

  /** A stored field value: a string, or a date as milliseconds since the epoch. */
  datatype Value = Str(text: string) | Date(millis: int)

  type Document = map<string, Value>

  /** The records of one collection, by ID. */
  type Collection = map<string, Document>

  /** Document.getString: the string stored under key, or null. */
  function GetString(doc: Document, key: string): (r: Option<string>)
    ensures r.Some? <==> key in doc && doc[key].Str?
    ensures r.Some? ==> doc[key] == Str(r.value)
  {
    if key in doc && doc[key].Str? then Some(doc[key].text) else None
  }

  /** Document.getDate: the date stored under key, or null. */
  function GetDate(doc: Document, key: string): (r: Option<int>)
    ensures r.Some? <==> key in doc && doc[key].Date?
    ensures r.Some? ==> doc[key] == Date(r.value)
  {
    if key in doc && doc[key].Date? then Some(doc[key].millis) else None
  }

  /** Document.append of a string that may be null: a null leaves the field out. */
  function AppendString(doc: Document, key: string, value: Option<string>): (r: Document)
    ensures GetString(r, key) == value
    ensures forall k :: k != key ==> (k in r <==> k in doc) && (k in r ==> r[k] == doc[k])
  {
    if value.Some? then doc[key := Str(value.value)] else doc - {key}
  }

  /** A string that is neither null nor empty: the fields an update writes. */
  predicate NonEmpty(s: Option<string>)
  {
    s.Some? && s.value != ""
  }

  /** Appends a string field only when it is neither null nor empty. */
  function AppendIfNonEmpty(doc: Document, key: string, value: Option<string>): (r: Document)
    ensures NonEmpty(value) ==> r == doc[key := Str(value.value)]
    ensures !NonEmpty(value) ==> r == doc
  {
    if NonEmpty(value) then doc[key := Str(value.value)] else doc
  }

  /** The `$set` operator: every field of `fields` overwrites or adds to the document. */
  function SetFields(doc: Document, fields: Document): (r: Document)
    ensures r.Keys == doc.Keys + fields.Keys
    ensures forall k :: k in r ==> r[k] == if k in fields then fields[k] else doc[k]
  {
    doc + fields
  }

  /** Every document is stored under the ID its id field holds, so lookups by that field go by key. */
  predicate Keyed(col: Collection, idKey: string)
  {
    forall k :: k in col ==> GetString(col[k], idKey) == Some(k)
  }

  /**
   * updateOne with a filter on the id field: the document stored under
   * id, if any, gets the fields set; with no match nothing changes.
   */
  function UpdateOne(col: Collection, id: string, fields: Document): (r: Collection)
    ensures r.Keys == col.Keys
    ensures forall k :: k in col && k != id ==> r[k] == col[k]
    ensures id in col ==> r[id] == SetFields(col[id], fields)
  {
    if id in col then col[id := SetFields(col[id], fields)] else col
  }

  /** Setting fields that leave the id field alone keeps every document under its own ID. */
  lemma UpdateOneKeyed(col: Collection, idKey: string, id: string, fields: Document)
    requires Keyed(col, idKey) && idKey !in fields
    ensures Keyed(UpdateOne(col, id, fields), idKey)
  {
    var r := UpdateOne(col, id, fields);
    forall k | k in r
      ensures GetString(r[k], idKey) == Some(k)
    {
      assert GetString(col[k], idKey) == Some(k);
    }
  }

  /** Setting a document's fields to the values it already holds changes nothing. */
  lemma SetSameFields(doc: Document, fields: Document)
    requires forall k :: k in fields ==> k in doc && doc[k] == fields[k]
    ensures SetFields(doc, fields) == doc
  {
  }
}
