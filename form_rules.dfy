/** Authorization and validation rules of the form requests that guard item creation,
    dispatch creation and request submission, and of the inline validation of a
    decision (StoreItemRequest, StoreOutgoingItemRequest, StoreItemRequestRequest,
    ItemRequestApprovalController). Each validator returns the names of the fields that
    break their rule; the input passes when that set is empty. */
module FormRules {
  import opened Base
  import opened Text
  import opened Users
  import opened Items
  import opened Records

  /** `required|string|max:n`: present, not blank, at most `n` characters. */
  predicate RequiredString(v: Option<string>, max: nat) {
    v.Some? && !IsBlank(v.value) && |v.value| <= max
  }

  /** `nullable|string|max:n`: absent, or at most `n` characters. */
  predicate NullableString(v: Option<string>, max: nat) {
    v.None? || |v.value| <= max
  }

  /** `required|in:...`: present and one of the listed values. */
  predicate RequiredIn(v: Option<string>, allowed: set<string>) {
    v.Some? && v.value in allowed
  }

  function Check(ok: bool, field: Field): set<Field> {
    if ok then {} else {field}
  }

  /** Fields of an item-creation form. Photo upload is not modelled. */
  datatype ItemInput = ItemInput(
    name: Option<string>,
    itemType: Option<string>,
    categoryId: Option<nat>,
    supplierId: Option<nat>,
    unit: Option<string>,
    size: Option<string>,
    stockQuantity: Option<int>,
    description: Option<string>)

  /** Only managers may create items. */
  predicate AuthorizeStoreItem(caller: User) {
    caller.CanManageInventory()
  }

  /** The rules of item creation; `categories` and `suppliers` are the ids that exist. */
  function ItemErrors(input: ItemInput, categories: set<nat>, suppliers: set<nat>): (bad: set<Field>)
    ensures Name !in bad <==> RequiredString(input.name, 255)
    ensures Type !in bad <==> RequiredIn(input.itemType, ItemTypes)
    ensures CategoryId !in bad <==> input.categoryId.Some? && input.categoryId.value in categories
    ensures SupplierId !in bad <==> input.supplierId.None? || input.supplierId.value in suppliers
    ensures Unit !in bad <==> RequiredString(input.unit, 50)
    ensures Size !in bad <==> NullableString(input.size, 100)
    ensures StockQuantity !in bad <==> input.stockQuantity.Some? && input.stockQuantity.value >= 0
    ensures bad <= {Name, Type, CategoryId, SupplierId, Unit, Size, StockQuantity}
  {
    ItemIdentityErrors(input, categories, suppliers) + ItemStockErrors(input)
  }

  /** The rules on what an item is and where it comes from. */
  function ItemIdentityErrors(input: ItemInput, categories: set<nat>, suppliers: set<nat>): (bad: set<Field>)
    ensures Name !in bad <==> RequiredString(input.name, 255)
    ensures Type !in bad <==> RequiredIn(input.itemType, ItemTypes)
    ensures CategoryId !in bad <==> input.categoryId.Some? && input.categoryId.value in categories
    ensures SupplierId !in bad <==> input.supplierId.None? || input.supplierId.value in suppliers
    ensures bad <= {Name, Type, CategoryId, SupplierId}
  {
    Check(RequiredString(input.name, 255), Name)
    + Check(RequiredIn(input.itemType, ItemTypes), Type)
    + Check(input.categoryId.Some? && input.categoryId.value in categories, CategoryId)
    + Check(input.supplierId.None? || input.supplierId.value in suppliers, SupplierId)
  }

  /** The rules on how an item is counted and its opening stock. */
  function ItemStockErrors(input: ItemInput): (bad: set<Field>)
    ensures Unit !in bad <==> RequiredString(input.unit, 50)
    ensures Size !in bad <==> NullableString(input.size, 100)
    ensures StockQuantity !in bad <==> input.stockQuantity.Some? && input.stockQuantity.value >= 0
    ensures bad <= {Unit, Size, StockQuantity}
  {
    Check(RequiredString(input.unit, 50), Unit)
    + Check(NullableString(input.size, 100), Size)
    + Check(input.stockQuantity.Some? && input.stockQuantity.value >= 0, StockQuantity)
  }

  /** Fields of a dispatch form. */
  datatype OutgoingInput = OutgoingInput(
    noSj: Option<string>,
    site: Option<string>,
    itemId: Option<nat>,
    quantity: Option<int>,
    unit: Option<string>)

  /** Only managers may record dispatches. */
  predicate AuthorizeStoreOutgoing(caller: User) {
    caller.CanManageInventory()
  }

  /** The rules of dispatch creation; items are the ids below `itemCount`. */
  function OutgoingErrors(input: OutgoingInput, itemCount: nat): (bad: set<Field>)
    ensures NoSj !in bad <==> RequiredString(input.noSj, 100)
    ensures Site !in bad <==> RequiredIn(input.site, Sites)
    ensures ItemId !in bad <==> input.itemId.Some? && input.itemId.value < itemCount
    ensures Quantity !in bad <==> input.quantity.Some? && input.quantity.value >= 1
    ensures Unit !in bad <==> RequiredString(input.unit, 50)
    ensures bad <= {NoSj, Site, ItemId, Quantity, Unit}
  {
    Check(RequiredString(input.noSj, 100), NoSj)
    + Check(RequiredIn(input.site, Sites), Site)
    + Check(input.itemId.Some? && input.itemId.value < itemCount, ItemId)
    + Check(input.quantity.Some? && input.quantity.value >= 1, Quantity)
    + Check(RequiredString(input.unit, 50), Unit)
  }

  /** Fields of a request-submission form. */
  datatype RequestInput = RequestInput(
    itemId: Option<nat>,
    quantity: Option<int>,
    unit: Option<string>,
    notes: Option<string>)

  /** Every authenticated caller may submit a request, whatever its role. */
  predicate AuthorizeStoreRequest(caller: User) {
    true
  }

  /** The rules of request submission; items are the ids below `itemCount`. */
  function RequestErrors(input: RequestInput, itemCount: nat): (bad: set<Field>)
    ensures ItemId !in bad <==> input.itemId.Some? && input.itemId.value < itemCount
    ensures Quantity !in bad <==> input.quantity.Some? && input.quantity.value >= 1
    ensures Unit !in bad <==> RequiredString(input.unit, 50)
    ensures Notes !in bad <==> NullableString(input.notes, 1000)
    ensures bad <= {ItemId, Quantity, Unit, Notes}
  {
    Check(input.itemId.Some? && input.itemId.value < itemCount, ItemId)
    + Check(input.quantity.Some? && input.quantity.value >= 1, Quantity)
    + Check(RequiredString(input.unit, 50), Unit)
    + Check(NullableString(input.notes, 1000), Notes)
  }

  /** The rules of a decision on a request: the action is approve or reject, the notes
      at most 1000 characters. */
  function DecisionErrors(action: Option<string>, notes: Option<string>): (bad: set<Field>)
    ensures Action !in bad <==> RequiredIn(action, {"approve", "reject"})
    ensures Notes !in bad <==> NullableString(notes, 1000)
    ensures bad <= {Action, Notes}
  {
    Check(RequiredIn(action, {"approve", "reject"}), Action)
    + Check(NullableString(notes, 1000), Notes)
  }
}
