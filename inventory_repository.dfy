/**
 * The inventory repository's business rules over the two tables it
 * writes: inventory items keyed by item id, and item metadata keyed by
 * metadata id. Each operation is a pure function on Tables, and the
 * InventoryRepository class performs it step by step, one table write at
 * a time, proved to end in the state the function describes.
 */
module InventoryRepo {
  import opened Wrappers
  import opened JavaLang
  import opened Validation
  import opened Inventories

  /** A stored inventory row (the key is its item id). */
  datatype ItemRow = ItemRow(itemName: string, quantity: Int32, category: Option<string>)

  /** A stored metadata row (the key is its metadata id). */
  datatype MetadataRow = MetadataRow(itemId: int, description: Option<string>, location: Option<string>)

  /** The fields of an ItemMetadata object as a caller passes it in. */
  datatype MetadataValue = MetadataValue(metadataId: int, itemId: int, description: Option<string>, location: Option<string>)

  /** One zero-stock alert, as handed to the notification or SMS sender. */
  datatype Alert = ZeroStock(itemId: int, itemName: string)

  /**
   * Both tables, the next key each generates, and the alerts sent so far.
   */
  datatype Tables = Tables(
    items: map<int, ItemRow>,
    metadata: map<int, MetadataRow>,
    nextItemId: int,
    nextMetadataId: int,
    alerts: seq<Alert>)

  /** Why insertItemWithMetadata throws. */
  datatype InsertError = InvalidItemName | InvalidQuantity | InvalidCategory | DuplicateItemName | KeyConflict

  /** Why updateQuantity throws. */
  datatype QuantityError = ItemNotFound

  predicate NameTaken(items: map<int, ItemRow>, name: string)
  {
    exists k :: k in items && items[k].itemName == name
  }

  /** The unique index on item_name. */
  predicate UniqueNames(items: map<int, ItemRow>)
  {
    forall a, b :: a in items && b in items && items[a].itemName == items[b].itemName ==> a == b
  }

  /** Key generation stays ahead of every stored key, and item names are unique. */
  predicate ValidTables(t: Tables)
  {
    && t.nextItemId >= 1 && t.nextMetadataId >= 1
    && (forall k :: k in t.items ==> k < t.nextItemId)
    && (forall k :: k in t.metadata ==> k < t.nextMetadataId)
    && UniqueNames(t.items)
  }

  /** An auto-generated primary key: 0 asks for the next key, anything else is used as given. */
  function KeyFor(requested: int, next: int): int
  {
    if requested == 0 then next else requested
  }

  /** The next key to generate once `requested` has been stored. */
  function NextAfter(requested: int, next: int): (r: int)
    ensures r > KeyFor(requested, next) || (requested != 0 && r == next)
    ensures r >= next
  {
    if requested == 0 then next + 1 else if requested + 1 > next then requested + 1 else next
  }

  /** A string that is null or trims to nothing. */
  predicate Blank(s: Option<string>)
  {
    s == None || Trim(s.value) == ""
  }

  /** Metadata is written only when at least one of its two fields is not blank. */
  predicate MetadataProvided(meta: Option<MetadataValue>)
  {
    meta.Some? && (!Blank(meta.value.description) || !Blank(meta.value.location))
  }

  /** Every non-blank metadata field must pass the metadata check. */
  predicate MetadataAcceptable(v: MetadataValue)
  {
    (Blank(v.description) || IsValidMetadata(v.description)) && (Blank(v.location) || IsValidMetadata(v.location))
  }

  predicate MetadataStored(meta: Option<MetadataValue>)
  {
    MetadataProvided(meta) && MetadataAcceptable(meta.value)
  }

  function RowOf(v: MetadataValue): MetadataRow
  {
    MetadataRow(v.itemId, v.description, v.location)
  }

  /**
   * A non-blank metadata field fails the check exactly when it trims to
   * more than 255 characters.
   */
  lemma NonBlankMetadataCheck(s: Option<string>)
    requires !Blank(s)
    ensures IsValidMetadata(s) <==> |Trim(s.value)| <= MaxMetadataLength
  {
  }

  /**
   * The first check insertItemWithMetadata fails, in its order: name,
   * quantity, category, duplicate name; then the key conflict the table
   * itself raises for an explicit id already in use. The category check
   * can never fail: a category that trims to something non-empty is valid.
   */
  function InsertFailure(items: map<int, ItemRow>, item: ItemRow, requestedId: int): (r: Option<InsertError>)
    ensures r != Some(InvalidCategory)
    ensures r == Some(InvalidItemName) <==> item.itemName == ""
    ensures r == Some(InvalidQuantity) <==> item.itemName != "" && item.quantity < 0
    ensures r == Some(DuplicateItemName) <==> item.itemName != "" && item.quantity >= 0 && NameTaken(items, item.itemName)
    ensures r == None <==>
      item.itemName != "" && item.quantity >= 0 && !NameTaken(items, item.itemName) && (requestedId == 0 || requestedId !in items)
  {
    if !IsValidItemName(Some(item.itemName)) then Some(InvalidItemName)
    else if !IsValidQuantity(item.quantity) then Some(InvalidQuantity)
    else if item.category.Some? && Trim(item.category.value) != "" && !IsValidCategory(item.category) then
      CategoryCheckPasses(item.category.value);
      Some(InvalidCategory)
    else if NameTaken(items, item.itemName) then Some(DuplicateItemName)
    else if requestedId != 0 && requestedId in items then Some(KeyConflict)
    else None
  }

  lemma CategoryCheckPasses(c: string)
    ensures Trim(c) != "" ==> IsValidCategory(Some(c))
  {
  }

  /** metadataDao.insertMetadata: REPLACE on the metadata key, generating one for id 0. */
  function StoreMetadata(t: Tables, v: MetadataValue): Tables
  {
    t.(metadata := t.metadata[KeyFor(v.metadataId, t.nextMetadataId) := RowOf(v)],
       nextMetadataId := NextAfter(v.metadataId, t.nextMetadataId))
  }

  /** Appends a zero-stock alert when the quantity is 0. */
  function AlertIfZero(t: Tables, quantity: int, itemId: int, itemName: string): Tables
  {
    if quantity == 0 then t.(alerts := t.alerts + [ZeroStock(itemId, itemName)]) else t
  }

  /**
   * insertItemWithMetadata: on success the new id, the item stored under
   * it, the metadata (with its item id set to the new id) stored when
   * provided and acceptable, and an alert when the quantity is 0.
   */
  function InsertItem(t: Tables, item: ItemRow, requestedId: int, meta: Option<MetadataValue>): (r: (Result<int, InsertError>, Tables))
    ensures r.0.Err? <==> InsertFailure(t.items, item, requestedId).Some?
    ensures r.0.Err? ==> r.0.error == InsertFailure(t.items, item, requestedId).value && r.1 == t
  {
    match InsertFailure(t.items, item, requestedId)
    case Some(e) => (Err(e), t)
    case None =>
      var id := KeyFor(requestedId, t.nextItemId);
      var t1 := t.(items := t.items[id := item], nextItemId := NextAfter(requestedId, t.nextItemId));
      var t2 := if MetadataStored(meta) then StoreMetadata(t1, meta.value.(itemId := id)) else t1;
      (Ok(id), AlertIfZero(t2, item.quantity, id, item.itemName))
  }

  lemma StoreMetadataValid(t: Tables, v: MetadataValue)
    requires ValidTables(t)
    ensures ValidTables(StoreMetadata(t, v))
  {
  }

  /** A successful insert keeps names unique and generated keys ahead of the stored ones. */
  lemma InsertKeepsValid(t: Tables, item: ItemRow, requestedId: int, meta: Option<MetadataValue>)
    requires ValidTables(t)
    ensures ValidTables(InsertItem(t, item, requestedId, meta).1)
  {
    if InsertFailure(t.items, item, requestedId) == None {
      var id := KeyFor(requestedId, t.nextItemId);
      var items := t.items[id := item];
      assert id !in t.items;
      assert forall k :: k in t.items ==> t.items[k].itemName != item.itemName;
      assert UniqueNames(items);
      var t1 := t.(items := items, nextItemId := NextAfter(requestedId, t.nextItemId));
      assert ValidTables(t1);
      if MetadataStored(meta) {
        StoreMetadataValid(t1, meta.value.(itemId := id));
      }
    }
  }

  /**
   * A successful insert stores the item under a key that was free, and
   * writes metadata exactly when it is provided and acceptable, linked
   * to the new key; the alert fires exactly when the quantity is 0.
   */
  lemma InsertOutcome(t: Tables, item: ItemRow, requestedId: int, meta: Option<MetadataValue>)
    requires ValidTables(t)
    requires InsertFailure(t.items, item, requestedId) == None
    ensures var (r, t') := InsertItem(t, item, requestedId, meta);
      && r.Ok? && r.value !in t.items && t'.items == t.items[r.value := item]
      && (requestedId != 0 ==> r.value == requestedId)
      && (!MetadataStored(meta) ==> t'.metadata == t.metadata)
      && (MetadataStored(meta) ==>
            var key := KeyFor(meta.value.metadataId, t.nextMetadataId);
            t'.metadata == t.metadata[key := MetadataRow(r.value, meta.value.description, meta.value.location)])
      && t'.alerts == t.alerts + (if item.quantity == 0 then [ZeroStock(r.value, item.itemName)] else [])
  {
  }

  /** An item with a name other than `itemId`'s own row already uses. */
  predicate NameTakenByOther(items: map<int, ItemRow>, name: string, itemId: int)
  {
    exists k :: k in items && k != itemId && items[k].itemName == name
  }

  /** updateMetadata by metadata key, falling back to an insert when no row has that key. */
  function UpsertMetadata(t: Tables, v: MetadataValue): Tables
  {
    if v.metadataId in t.metadata then t.(metadata := t.metadata[v.metadataId := RowOf(v)])
    else StoreMetadata(t, v)
  }

  /**
   * updateItemWithMetadata. Invalid fields change nothing. A rename onto
   * another item's name makes the table throw, which is caught, so nothing
   * changes either. Otherwise the row with the item's id (if any) is
   * replaced, acceptable metadata is upserted, and a zero quantity
   * raises an alert, whether or not a row matched.
   */
  function UpdateItem(t: Tables, itemId: int, item: ItemRow, meta: Option<MetadataValue>): Tables
  {
    if !UpdateFieldsValid(item) then t
    else if itemId in t.items && NameTakenByOther(t.items, item.itemName, itemId) then t
    else
      var t1 := if itemId in t.items then t.(items := t.items[itemId := item]) else t;
      var t2 := if MetadataStored(meta) then UpsertMetadata(t1, meta.value) else t1;
      AlertIfZero(t2, item.quantity, itemId, item.itemName)
  }

  /** The field checks updateItemWithMetadata makes first: name, quantity, then a non-blank category. */
  predicate UpdateFieldsValid(item: ItemRow)
  {
    && IsValidItemName(Some(item.itemName)) && IsValidQuantity(item.quantity)
    && !(item.category.Some? && Trim(item.category.value) != "" && !IsValidCategory(item.category))
  }

  lemma UpdateKeepsValid(t: Tables, itemId: int, item: ItemRow, meta: Option<MetadataValue>)
    requires ValidTables(t)
    ensures ValidTables(UpdateItem(t, itemId, item, meta))
  {
    if UpdateFieldsValid(item) && !(itemId in t.items && NameTakenByOther(t.items, item.itemName, itemId)) {
      var t1 := if itemId in t.items then t.(items := t.items[itemId := item]) else t;
      if itemId in t.items {
        ReplaceRowValid(t, itemId, item);
      }
      var t2 := if MetadataStored(meta) then UpsertMetadata(t1, meta.value) else t1;
      if MetadataStored(meta) {
        UpsertMetadataValid(t1, meta.value);
      }
      assert UpdateItem(t, itemId, item, meta) == AlertIfZero(t2, item.quantity, itemId, item.itemName);
    }
  }

  /** Replacing a row keeps names unique when no other row has the new name. */
  lemma ReplaceRowValid(t: Tables, itemId: int, item: ItemRow)
    requires ValidTables(t) && itemId in t.items && !NameTakenByOther(t.items, item.itemName, itemId)
    ensures ValidTables(t.(items := t.items[itemId := item]))
  {
    assert forall k :: k in t.items && k != itemId ==> t.items[k].itemName != item.itemName;
  }

  lemma UpsertMetadataValid(t: Tables, v: MetadataValue)
    requires ValidTables(t)
    ensures ValidTables(UpsertMetadata(t, v))
  {
    if v.metadataId !in t.metadata {
      StoreMetadataValid(t, v);
    }
  }

  /**
   * After an accepted update, the metadata row is there with the given
   * fields: under its own key when that key existed, else under the key
   * the insert chose. Null or blank metadata leaves the table as it was.
   */
  lemma UpdateUpserts(t: Tables, itemId: int, item: ItemRow, meta: Option<MetadataValue>)
    requires item.itemName != "" && item.quantity >= 0
    requires !(itemId in t.items && NameTakenByOther(t.items, item.itemName, itemId))
    ensures var t' := UpdateItem(t, itemId, item, meta);
      && (itemId in t.items ==> t'.items == t.items[itemId := item])
      && (itemId !in t.items ==> t'.items == t.items)
      && (!MetadataStored(meta) ==> t'.metadata == t.metadata)
      && (MetadataStored(meta) ==>
            var key := if meta.value.metadataId in t.metadata then meta.value.metadataId
                       else KeyFor(meta.value.metadataId, t.nextMetadataId);
            t'.metadata == t.metadata[key := RowOf(meta.value)])
      && t'.alerts == t.alerts + (if item.quantity == 0 then [ZeroStock(itemId, item.itemName)] else [])
  {
    if item.category.Some? {
      CategoryCheckPasses(item.category.value);
    }
    var t1 := if itemId in t.items then t.(items := t.items[itemId := item]) else t;
    var t2 := if MetadataStored(meta) then UpsertMetadata(t1, meta.value) else t1;
    assert UpdateItem(t, itemId, item, meta) == AlertIfZero(t2, item.quantity, itemId, item.itemName);
    if MetadataStored(meta) {
      UpsertFields(t1, meta.value);
    }
  }

  lemma UpsertFields(t: Tables, v: MetadataValue)
    ensures UpsertMetadata(t, v).items == t.items && UpsertMetadata(t, v).alerts == t.alerts
    ensures var key := if v.metadataId in t.metadata then v.metadataId else KeyFor(v.metadataId, t.nextMetadataId);
      UpsertMetadata(t, v).metadata == t.metadata[key := RowOf(v)]
  {
  }

  /** A rejected update (bad field or a name clash) changes nothing. */
  lemma UpdateRejected(t: Tables, itemId: int, item: ItemRow, meta: Option<MetadataValue>)
    requires item.itemName == "" || item.quantity < 0 || (itemId in t.items && NameTakenByOther(t.items, item.itemName, itemId))
    ensures UpdateItem(t, itemId, item, meta) == t
  {
  }

  /** deleteItemCascade: removes the item's row, and no metadata; the count of rows removed. */
  function DeleteItemRow(t: Tables, itemId: int): (r: (int, Tables))
  {
    (if itemId in t.items then 1 else 0, t.(items := t.items - {itemId}))
  }

  function MetadataWithout(metadata: map<int, MetadataRow>, itemId: int): map<int, MetadataRow>
  {
    map k | k in metadata && metadata[k].itemId != itemId :: metadata[k]
  }

  /** deleteItemById: removes the item's row and every metadata row that refers to it. */
  function DeletedById(t: Tables, itemId: int): Tables
  {
    t.(items := t.items - {itemId}, metadata := MetadataWithout(t.metadata, itemId))
  }

  /**
   * The two deletes differ in what they leave behind: after
   * deleteItemCascade the item's metadata rows are still stored, after
   * deleteItemById none refers to it and every other row is kept.
   */
  lemma DeletesCompared(t: Tables, itemId: int)
    ensures DeleteItemRow(t, itemId).1.metadata == t.metadata
    ensures DeleteItemRow(t, itemId).0 == (if itemId in t.items then 1 else 0)
    ensures itemId !in DeleteItemRow(t, itemId).1.items && itemId !in DeletedById(t, itemId).items
    ensures forall k :: k in DeletedById(t, itemId).metadata ==> DeletedById(t, itemId).metadata[k].itemId != itemId
    ensures forall k :: k in t.metadata && t.metadata[k].itemId != itemId ==>
      k in DeletedById(t, itemId).metadata && DeletedById(t, itemId).metadata[k] == t.metadata[k]
    ensures forall k :: k in t.items && k != itemId ==> k in DeletedById(t, itemId).items
  {
  }

  lemma DeletesKeepValid(t: Tables, itemId: int)
    requires ValidTables(t)
    ensures ValidTables(DeleteItemRow(t, itemId).1) && ValidTables(DeletedById(t, itemId))
  {
  }

  /** The quantity after a delta: the 32-bit sum, with a negative result clamped to 0. */
  function ClampedQuantity(current: Int32, delta: Int32): (q: Int32)
    ensures q >= 0
    ensures MinInt <= current + delta <= MaxInt ==> q == (if current + delta < 0 then 0 else current + delta)
  {
    var sum := Wrap32(current + delta);
    if sum < 0 then 0 else sum
  }

  /**
   * updateItemQuantity: a missing id changes nothing; otherwise the stored
   * quantity becomes the clamped sum, and an alert fires when it is 0.
   */
  function QuantityAdjusted(t: Tables, itemId: int, delta: Int32): Tables
  {
    if itemId !in t.items then t
    else
      var row := t.items[itemId];
      var q := ClampedQuantity(row.quantity, delta);
      AlertIfZero(t.(items := t.items[itemId := row.(quantity := q)]), q, itemId, row.itemName)
  }

  /** updateQuantity: throws for a missing id, else applies the delta from the current quantity. */
  function QuantitySet(t: Tables, itemId: int, newQty: Int32): Result<Tables, QuantityError>
  {
    if itemId !in t.items then Err(ItemNotFound)
    else Ok(QuantityAdjusted(t, itemId, Wrap32(newQty - t.items[itemId].quantity)))
  }

  /**
   * A quantity update only touches that item's quantity, never stores a
   * negative one, and alerts exactly when the result is 0.
   */
  lemma QuantityUpdateEffect(t: Tables, itemId: int, delta: Int32)
    requires itemId in t.items
    ensures var t' := QuantityAdjusted(t, itemId, delta);
      && t'.items.Keys == t.items.Keys && t'.metadata == t.metadata
      && (forall k :: k in t.items && k != itemId ==> t'.items[k] == t.items[k])
      && t'.items[itemId].itemName == t.items[itemId].itemName
      && t'.items[itemId].category == t.items[itemId].category
      && t'.items[itemId].quantity >= 0
      && (t'.items[itemId].quantity == 0 <==> t'.alerts == t.alerts + [ZeroStock(itemId, t.items[itemId].itemName)])
      && (t'.items[itemId].quantity != 0 <==> t'.alerts == t.alerts)
  {
  }

  /** updateItemQuantity on a missing id changes nothing. */
  lemma QuantityUpdateMissing(t: Tables, itemId: int, delta: Int32)
    requires itemId !in t.items
    ensures QuantityAdjusted(t, itemId, delta) == t
  {
  }

  /**
   * updateQuantity(id, q) ends with the stored quantity equal to q when q
   * is not negative, and 0 when it is: the delta it computes undoes
   * itself even when the subtraction overflows.
   */
  lemma UpdateQuantitySetsValue(t: Tables, itemId: int, newQty: Int32)
    requires itemId in t.items
    ensures QuantitySet(t, itemId, newQty).Ok?
    ensures QuantitySet(t, itemId, newQty).value.items[itemId].quantity == if newQty < 0 then 0 else newQty
  {
    DeltaRoundTrip(t.items[itemId].quantity, newQty);
  }

  lemma QuantityUpdateKeepsValid(t: Tables, itemId: int, delta: Int32)
    requires ValidTables(t)
    ensures ValidTables(QuantityAdjusted(t, itemId, delta))
  {
    if itemId in t.items {
      var t' := QuantityAdjusted(t, itemId, delta);
      assert forall k :: k in t'.items ==> t'.items[k].itemName == t.items[k].itemName;
    }
  }

  // The query getItems builds from the sort and filter state.

  datatype SortOption = NameAsc | QuantityAsc | QuantityDesc | CategoryAsc
  datatype FilterField = NoFilter | ItemNameField | CategoryField | DescriptionField | LocationField

  /** The sort and filter choices of the inventory screen. */
  datatype SortFilterState = SortFilterState(sort: SortOption, field: FilterField, keyword: Option<string>)

  /** A filter is active when a field is chosen and the keyword is neither null nor empty. */
  predicate HasFilter(s: SortFilterState)
  {
    s.field != NoFilter && s.keyword.Some? && s.keyword.value != ""
  }

  const SelectClause := "SELECT i.* FROM inventory i LEFT JOIN item_metadata m ON i.item_id = m.item_id "
  const WhereKeyword := "WHERE "
  const OrderBy := " ORDER BY "

  /** A case-insensitive substring match of a column against the bound keyword. */
  function LikeClause(column: string): string
  {
    column + " LIKE '%' || ? || '%' COLLATE NOCASE"
  }

  /**
   * The WHERE condition for a field. The description and location
   * conditions also accept a NULL column, so that items without metadata
   * stay in the result of the LEFT JOIN.
   */
  function FilterClause(field: FilterField): string
  {
    match field
    case ItemNameField => LikeClause("i.item_name")
    case CategoryField => LikeClause("i.category")
    case DescriptionField => "(" + LikeClause("m.description") + " OR m.description IS NULL)"
    case LocationField => "(" + LikeClause("m.location") + " OR m.location IS NULL)"
    case NoFilter => ""
  }

  function SortClause(sort: SortOption): string
  {
    match sort
    case NameAsc => "i.item_name ASC"
    case QuantityAsc => "i.quantity ASC"
    case QuantityDesc => "i.quantity DESC"
    case CategoryAsc => "i.category ASC"
  }

  /** The SQL text and bound arguments of getItems. */
  datatype Query = Query(sql: string, args: seq<string>)

  /** What comes between the select and the ordering: "WHERE " and the condition, only when a filter is active. */
  function WherePart(s: SortFilterState): string
  {
    if HasFilter(s) then WhereKeyword + FilterClause(s.field) else ""
  }

  /** The query getItems hands to the DAO, in the order it appends the clauses. */
  function ItemsQuery(s: SortFilterState): Query
  {
    var filtered := if HasFilter(s) then SelectClause + WhereKeyword + FilterClause(s.field) else SelectClause;
    Query(filtered + OrderBy + SortClause(s.sort), if HasFilter(s) then [s.keyword.value] else [])
  }

  lemma ThreeParts(a: string, m: string, z: string)
    ensures (a + m + z)[..|a|] == a
    ensures (a + m + z)[|a|..|a| + |m|] == m
    ensures (a + m + z)[|a| + |m|..] == z
  {
  }

  lemma Regroup(a: string, w: string, f: string, o: string, c: string)
    ensures a + w + f + o + c == a + (w + f) + (o + c)
    ensures a + o + c == a + "" + (o + c)
  {
  }

  /**
   * Every query starts with the LEFT JOIN select and ends with " ORDER BY "
   * and the sort clause. When a filter is active, "WHERE " and the field's
   * condition come in between and the keyword is the one argument;
   * otherwise nothing comes in between and there are no arguments.
   */
  lemma ItemsQueryShape(s: SortFilterState)
    ensures var q := ItemsQuery(s); var tail := OrderBy + SortClause(s.sort);
      && |q.sql| >= |SelectClause| + |tail|
      && q.sql[..|SelectClause|] == SelectClause
      && q.sql[|q.sql| - |tail|..] == tail
      && (HasFilter(s) ==>
            q.sql[|SelectClause|..|q.sql| - |tail|] == WhereKeyword + FilterClause(s.field) && q.args == [s.keyword.value])
      && (!HasFilter(s) ==> |q.sql| == |SelectClause| + |tail| && q.args == [])
  {
    ThreeParts(SelectClause, WherePart(s), OrderBy + SortClause(s.sort));
    Regroup(SelectClause, WhereKeyword, FilterClause(s.field), OrderBy, SortClause(s.sort));
    assert ItemsQuery(s).sql == SelectClause + WherePart(s) + (OrderBy + SortClause(s.sort));
  }

  /** Where inventoryDao.countByName looks: the keys of the rows with that name. */
  function KeysNamed(items: map<int, ItemRow>, name: string): set<int>
  {
    set k | k in items && items[k].itemName == name
  }

  lemma KeysNamedEmpty(items: map<int, ItemRow>, name: string)
    ensures |KeysNamed(items, name)| > 0 <==> NameTaken(items, name)
  {
    if NameTaken(items, name) {
      var k :| k in items && items[k].itemName == name;
      assert k in KeysNamed(items, name);
    }
    if !NameTaken(items, name) {
      assert forall k :: k !in KeysNamed(items, name);
      assert KeysNamed(items, name) == {};
    }
  }

  /** The fields of a possibly null metadata object. */
  function MetaValue(meta: ItemMetadata?): Option<MetadataValue>
    reads meta
  {
    if meta == null then None else Some(MetadataValue(meta.metadataId, meta.itemId, meta.description, meta.location))
  }

  /**
   * The repository over the two tables. Each method performs the table
   * writes the source performs, in the same order.
   */
  class InventoryRepository {
    var items: map<int, ItemRow>
    var metadata: map<int, MetadataRow>
    var nextItemId: int
    var nextMetadataId: int
    var alerts: seq<Alert>

    function State(): Tables
      reads this
    {
      Tables(items, metadata, nextItemId, nextMetadataId, alerts)
    }

    ghost predicate Valid()
      reads this
    {
      ValidTables(State())
    }

    /** Opens the repository over the tables as the database holds them. */
    constructor (initial: Tables)
      requires ValidTables(initial)
      ensures State() == initial && Valid()
    {
      items := initial.items;
      metadata := initial.metadata;
      nextItemId := initial.nextItemId;
      nextMetadataId := initial.nextMetadataId;
      alerts := initial.alerts;
    }

    /** inventoryDao.countByName. */
    method CountByName(name: string) returns (n: nat)
      ensures n > 0 <==> NameTaken(items, name)
    {
      KeysNamedEmpty(items, name);
      n := |KeysNamed(items, name)|;
    }

    /** inventoryDao.insertItem for a checked row: stores it under the requested or a generated key. */
    method InsertItemRow(row: ItemRow, requestedId: int) returns (id: int)
      modifies this
      ensures id == KeyFor(requestedId, old(nextItemId))
      ensures items == old(items)[id := row] && nextItemId == NextAfter(requestedId, old(nextItemId))
      ensures metadata == old(metadata) && nextMetadataId == old(nextMetadataId) && alerts == old(alerts)
    {
      id := KeyFor(requestedId, nextItemId);
      items := items[id := row];
      nextItemId := NextAfter(requestedId, nextItemId);
    }

    /** metadataDao.insertMetadata. */
    method InsertMetadata(v: MetadataValue)
      modifies this
      ensures State() == StoreMetadata(old(State()), v)
    {
      metadata := metadata[KeyFor(v.metadataId, nextMetadataId) := RowOf(v)];
      nextMetadataId := NextAfter(v.metadataId, nextMetadataId);
    }

    /** metadataDao.updateMetadata: the number of rows with the metadata's key. */
    method UpdateMetadata(v: MetadataValue) returns (rows: int)
      modifies this
      ensures rows == (if v.metadataId in old(metadata) then 1 else 0)
      ensures rows == 1 ==> State() == old(State()).(metadata := old(metadata)[v.metadataId := RowOf(v)])
      ensures rows == 0 ==> State() == old(State())
    {
      if v.metadataId in metadata {
        metadata := metadata[v.metadataId := RowOf(v)];
        rows := 1;
      } else {
        rows := 0;
      }
    }

    /** triggerZeroStockAlert: recorded as an event. */
    method TriggerZeroStockAlert(itemId: int, itemName: string)
      modifies this
      ensures State() == old(State()).(alerts := old(alerts) + [ZeroStock(itemId, itemName)])
    {
      alerts := alerts + [ZeroStock(itemId, itemName)];
    }

    /** The checks insertItemWithMetadata makes before writing, and the key conflict the insert raises. */
    method CheckInsert(row: ItemRow, requestedId: int) returns (failure: Option<InsertError>)
      ensures failure == InsertFailure(items, row, requestedId)
    {
      if !IsValidItemName(Some(row.itemName)) {
        return Some(InvalidItemName);
      }
      if !IsValidQuantity(row.quantity) {
        return Some(InvalidQuantity);
      }
      if row.category.Some? && Trim(row.category.value) != "" && !IsValidCategory(row.category) {
        return Some(InvalidCategory);
      }
      var count := CountByName(row.itemName);
      if count > 0 {
        return Some(DuplicateItemName);
      }
      if requestedId != 0 && requestedId in items {
        return Some(KeyConflict);
      }
      failure := None;
    }

    /**
     * The metadata step of insertItemWithMetadata: metadata that is
     * provided and acceptable gets the new item's id and is inserted;
     * anything else is skipped.
     */
    method AttachMetadata(itemId: int, meta: ItemMetadata?)
      modifies this, meta
      ensures var mv := old(MetaValue(meta));
        && (MetadataStored(mv) ==> State() == StoreMetadata(old(State()), mv.value.(itemId := itemId)))
        && (!MetadataStored(mv) ==> State() == old(State()))
      ensures meta != null ==> meta.metadataId == old(meta.metadataId) && meta.description == old(meta.description)
                               && meta.location == old(meta.location)
      ensures meta != null ==> meta.itemId == if MetadataStored(old(MetaValue(meta))) then itemId else old(meta.itemId)
    {
      if meta != null && (!Blank(meta.description) || !Blank(meta.location)) {
        if !Blank(meta.description) && !IsValidMetadata(meta.description) {
          // the description is rejected and the metadata skipped
        } else if !Blank(meta.location) && !IsValidMetadata(meta.location) {
          // the location is rejected and the metadata skipped
        } else {
          meta.itemId := itemId;
          InsertMetadata(MetadataValue(meta.metadataId, meta.itemId, meta.description, meta.location));
        }
      }
    }

    /**
     * insertItemWithMetadata. Throws (Err) on the first failed check and
     * writes nothing then; sets meta's item id to the new key exactly when
     * it stores the metadata.
     */
    method InsertItemWithMetadata(item: Inventory, meta: ItemMetadata?) returns (r: Result<int, InsertError>)
      requires Valid()
      modifies this, meta
      ensures Valid()
      ensures (r, State()) == InsertItem(old(State()), ItemRow(item.itemName, item.quantity, item.category), item.itemId,
                                         old(MetaValue(meta)))
      ensures meta != null ==> meta.metadataId == old(meta.metadataId) && meta.description == old(meta.description)
                               && meta.location == old(meta.location)
      ensures meta != null ==> meta.itemId == if r.Ok? && MetadataStored(old(MetaValue(meta))) then r.value else old(meta.itemId)
    {
      var row := ItemRow(item.itemName, item.quantity, item.category);
      InsertKeepsValid(State(), row, item.itemId, MetaValue(meta));
      var failure := CheckInsert(row, item.itemId);
      if failure.Some? {
        return Err(failure.value);
      }
      var itemId := InsertItemRow(row, item.itemId);
      AttachMetadata(itemId, meta);
      if item.quantity == 0 {
        TriggerZeroStockAlert(itemId, item.itemName);
      }
      r := Ok(itemId);
    }

    /**
     * updateItemWithMetadata, run synchronously. Failures are logged, not
     * thrown, so the method returns nothing.
     */
    method UpdateItemWithMetadata(item: Inventory, meta: ItemMetadata?)
      requires Valid()
      modifies this
      ensures Valid()
      ensures State() == UpdateItem(old(State()), item.itemId, ItemRow(item.itemName, item.quantity, item.category), MetaValue(meta))
    {
      ghost var t := State();
      var row := ItemRow(item.itemName, item.quantity, item.category);
      UpdateKeepsValid(t, item.itemId, row, MetaValue(meta));
      var fieldsValid := CheckUpdateFields(row);
      if !fieldsValid {
        return;
      }
      // inventoryDao.updateItem: a clash with another row's name throws and ends the background job
      if item.itemId in items {
        var clash := NameClash(item.itemName, item.itemId);
        if clash {
          return;
        }
        items := items[item.itemId as int := row];
      }
      UpsertIfAcceptable(MetaValue(meta));
      if item.quantity == 0 {
        TriggerZeroStockAlert(item.itemId, item.itemName);
      }
    }

    /** The metadata half of updateItemWithMetadata: update by key, insert when no row matched. */
    method UpsertIfAcceptable(meta: Option<MetadataValue>)
      modifies this
      ensures State() == if MetadataStored(meta) then UpsertMetadata(old(State()), meta.value) else old(State())
    {
      if meta.Some? && (!Blank(meta.value.description) || !Blank(meta.value.location)) {
        var v := meta.value;
        var descValid := Blank(v.description) || IsValidMetadata(v.description);
        var locValid := Blank(v.location) || IsValidMetadata(v.location);
        if descValid && locValid {
          var metaUpdated := UpdateMetadata(v);
          if metaUpdated == 0 {
            InsertMetadata(v);
          }
        }
      }
    }

    /** The early returns of updateItemWithMetadata, in their order. */
    method CheckUpdateFields(row: ItemRow) returns (valid: bool)
      ensures valid == UpdateFieldsValid(row)
    {
      if !IsValidItemName(Some(row.itemName)) {
        return false;
      }
      if !IsValidQuantity(row.quantity) {
        return false;
      }
      if row.category.Some? && Trim(row.category.value) != "" && !IsValidCategory(row.category) {
        return false;
      }
      valid := true;
    }

    /** Whether a row other than itemId's already has the name: the case the unique index rejects. */
    method NameClash(name: string, itemId: int) returns (clash: bool)
      ensures clash <==> NameTakenByOther(items, name, itemId)
    {
      var others := set k | k in items && k != itemId && items[k].itemName == name;
      clash := |others| > 0;
      if NameTakenByOther(items, name, itemId) {
        var k :| k in items && k != itemId && items[k].itemName == name;
        assert k in others;
      }
    }

    /** deleteItemCascade: deletes the item's row only; the number of rows deleted. */
    method DeleteItemCascade(item: Inventory) returns (deleted: int)
      requires Valid()
      modifies this
      ensures Valid()
      ensures (deleted, State()) == DeleteItemRow(old(State()), item.itemId)
    {
      DeletesKeepValid(State(), item.itemId);
      deleted := if item.itemId in items then 1 else 0;
      items := items - {item.itemId as int};
    }

    /** deleteItemById, run synchronously: the item's row, then its metadata. */
    method DeleteItemById(itemId: int)
      requires Valid()
      modifies this
      ensures Valid()
      ensures State() == DeletedById(old(State()), itemId)
    {
      DeletesKeepValid(State(), itemId);
      items := items - {itemId};
      metadata := MetadataWithout(metadata, itemId);
    }

    /** updateItemQuantity, run synchronously. */
    method UpdateItemQuantity(itemId: int, delta: Int32)
      requires Valid()
      modifies this
      ensures Valid()
      ensures State() == QuantityAdjusted(old(State()), itemId, delta)
    {
      QuantityUpdateKeepsValid(State(), itemId, delta);
      if itemId !in items {
        return;
      }
      var current := items[itemId];
      var newQty := Wrap32(current.quantity + delta);
      if newQty < 0 {
        newQty := 0;
      }
      items := items[itemId := current.(quantity := newQty)];
      if newQty == 0 {
        TriggerZeroStockAlert(itemId, current.itemName);
      }
    }

    /** updateQuantity: throws for a missing id, else delegates with the delta. */
    method UpdateQuantity(itemId: int, newQty: Int32) returns (r: Result<(), QuantityError>)
      requires Valid()
      modifies this
      ensures Valid()
      ensures var expected := QuantitySet(old(State()), itemId, newQty);
        (r.Err? <==> expected.Err?) && (r.Err? ==> State() == old(State())) && (r.Ok? ==> State() == expected.value)
    {
      if itemId !in items {
        return Err(ItemNotFound);
      }
      var delta := Wrap32(newQty - items[itemId].quantity);
      UpdateItemQuantity(itemId, delta);
      r := Ok(());
    }

    /** getItems: the SQL text and arguments, built clause by clause. */
    method GetItems(state: SortFilterState) returns (q: Query)
      ensures q == ItemsQuery(state)
    {
      var sql := SelectClause;
      var args: seq<string> := [];
      if HasFilter(state) {
        sql := sql + WhereKeyword;
        match state.field {
          case ItemNameField => sql := sql + LikeClause("i.item_name");
          case CategoryField => sql := sql + LikeClause("i.category");
          case DescriptionField => sql := sql + ("(" + LikeClause("m.description") + " OR m.description IS NULL)");
          case LocationField => sql := sql + ("(" + LikeClause("m.location") + " OR m.location IS NULL)");
        }
        args := args + [state.keyword.value];
      }
      sql := sql + OrderBy;
      match state.sort {
        case NameAsc => sql := sql + "i.item_name ASC";
        case QuantityAsc => sql := sql + "i.quantity ASC";
        case QuantityDesc => sql := sql + "i.quantity DESC";
        case CategoryAsc => sql := sql + "i.category ASC";
      }
      q := Query(sql, args);
    }
  }
}
