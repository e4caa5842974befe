/**
 * The inventory app's entities: the Inventory record and the optional
 * ItemMetadata that the repository attaches to it. Both are plain
 * objects whose public fields callers assign directly.
 */
module Inventories {
  import opened Wrappers
  import opened JavaLang

  /** An inventory item: its row id, its (unique, non-null) name, a quantity, and an optional category. */
  class Inventory {
    var itemId: Int32
    var itemName: string
    var quantity: Int32
    var category: Option<string>

    /** The constructor Room uses: every field is stored as given, without validation. */
    constructor (itemId: Int32, itemName: string, quantity: Int32, category: Option<string>)
      ensures this.itemId == itemId && this.itemName == itemName
      ensures this.quantity == quantity && this.category == category
    {
      this.itemId := itemId;
      this.itemName := itemName;
      this.quantity := quantity;
      this.category := category;
    }

    /**
     * The constructor for new items: itemId keeps Java's default 0, which
     * the database reads as "generate a key".
     */
    constructor ForInsert(itemName: string, quantity: Int32, category: Option<string>)
      ensures this.itemId == 0 && this.itemName == itemName
      ensures this.quantity == quantity && this.category == category
    {
      this.itemId := 0;
      this.itemName := itemName;
      this.quantity := quantity;
      this.category := category;
    }
  }

  /** Description and location of an item, each optional, in a row of their own. */
  class ItemMetadata {
    var metadataId: int
    var itemId: int
    var description: Option<string>
    var location: Option<string>

    constructor (metadataId: int, itemId: int, description: Option<string>, location: Option<string>)
      ensures this.metadataId == metadataId && this.itemId == itemId
      ensures this.description == description && this.location == location
    {
      this.metadataId := metadataId;
      this.itemId := itemId;
      this.description := description;
      this.location := location;
    }
  }
}
