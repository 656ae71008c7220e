/** The item catalog entry and its stock ledger operations (app/Models/Item.php). */
module Items {
  import opened Base

  /** The `type` enumeration of the items table. */
  const ItemTypes: set<string> := {"consumable", "raw_material", "material"}

  /** What a listing shows of an item: a snapshot of its columns. */
  datatype ItemRow = ItemRow(
    id: nat,
    code: string,
    name: string,
    itemType: string,
    categoryId: nat,
    stockQuantity: int)

  /** Every column of an item except its stock counter. */
  datatype ItemDetails = ItemDetails(
    code: string,
    name: string,
    itemType: string,
    categoryId: nat,
    supplierId: Option<nat>,
    unit: string,
    size: Option<string>,
    description: Option<string>)

  /** A row of the items table. Its stock counter is changed in place, and only by
      IncreaseStock and DecreaseStock; the stored column has no lower bound. The other
      columns are fixed once the item is created. */
  class Item {
    const code: string
    const name: string
    const itemType: string
    const categoryId: nat
    const supplierId: Option<nat>
    const unit: string
    const size: Option<string>
    const description: Option<string>
    var stockQuantity: int

    constructor (code: string, name: string, itemType: string, categoryId: nat,
                 supplierId: Option<nat>, unit: string, size: Option<string>,
                 description: Option<string>, stockQuantity: int)
      ensures this.code == code && this.name == name && this.itemType == itemType
      ensures this.categoryId == categoryId && this.supplierId == supplierId
      ensures this.unit == unit && this.size == size && this.description == description
      ensures this.stockQuantity == stockQuantity
    {
      this.code := code;
      this.name := name;
      this.itemType := itemType;
      this.categoryId := categoryId;
      this.supplierId := supplierId;
      this.unit := unit;
      this.size := size;
      this.description := description;
      this.stockQuantity := stockQuantity;
    }

    /** Adds `quantity` to the stock counter; no other column is written. */
    method IncreaseStock(quantity: int)
      modifies this
      ensures stockQuantity == old(stockQuantity) + quantity
    {
      stockQuantity := stockQuantity + quantity;
    }

    /** Takes `quantity` from the stock counter, with no guard of its own: the result may
        be negative when the caller has not checked HasSufficientStock first. */
    method DecreaseStock(quantity: int)
      modifies this
      ensures stockQuantity == old(stockQuantity) - quantity
    {
      stockQuantity := stockQuantity - quantity;
    }

    /** The stock covers `quantity`: taking it away leaves a counter that is not negative. */
    predicate HasSufficientStock(quantity: int)
      reads this
    {
      stockQuantity >= quantity
    }

    function Row(id: nat): ItemRow
      reads this`stockQuantity
    {
      ItemRow(id, code, name, itemType, categoryId, stockQuantity)
    }

    function Details(): ItemDetails
    {
      ItemDetails(code, name, itemType, categoryId, supplierId, unit, size, description)
    }
  }
}
