/** The controller actions that change the inventory, over one copy of its tables.
    Each action runs as one step; the caller, the clock and the ids of the categories and
    suppliers that exist are parameters. A row that a route names by id and that does not
    exist gives NotFound before anything else is checked. */
module Controllers {
  import opened Base
  import opened Sums
  import opened Users
  import opened Items
  import opened Records
  import opened Requests
  import opened Ledger
  import opened Tables
  import opened ItemCodes
  import opened FormRules

  /** The fields of a receipt form. Its validation rules are not part of this model; an
      item id with no item is refused, as the foreign key on item_id refuses it. */
  datatype IncomingInput = IncomingInput(
    noSj: string,
    noRkm: string,
    itemId: nat,
    quantity: int,
    unit: string)

  /** No entry is below zero. */
  predicate AllNonNegative(s: seq<int>) {
    forall i :: 0 <= i < |s| ==> s[i] >= 0
  }

  /** Overwriting one entry of a sequence with no negative entry leaves none exactly
      when the new value is not negative. */
  lemma UpdateNonNegative(s: seq<int>, i: nat, v: int)
    requires i < |s| && AllNonNegative(s)
    ensures AllNonNegative(s[i := v]) <==> v >= 0
  {
    assert s[i := v][i] == v;
  }

  function CatalogOf(items: seq<Item>): (s: seq<ItemDetails>)
    ensures |s| == |items|
  {
    seq(|items|, i requires 0 <= i < |items| => items[i].Details())
  }

  function CodesOf(items: seq<Item>): (s: seq<string>)
    ensures |s| == |items|
  {
    seq(|items|, i requires 0 <= i < |items| => items[i].code)
  }

  /** Appending an item appends its columns to the catalog. */
  lemma CatalogOfAppend(items: seq<Item>, item: Item)
    ensures CatalogOf(items + [item]) == CatalogOf(items) + [item.Details()]
  {
  }

  /** The columns a validated item form gives a new item, with the generated `code`. */
  function CreatedDetails(input: ItemInput, code: string): ItemDetails
    requires input.name.Some? && input.itemType.Some? && input.categoryId.Some? && input.unit.Some?
  {
    ItemDetails(code, input.name.value, input.itemType.value, input.categoryId.value,
                input.supplierId, input.unit.value, input.size, input.description)
  }

  /** `q` once a manager has decided it: approved or rejected, stamped with the manager
      and the clock, its notes replaced by the decision's notes. */
  function Decided(q: ItemRequest, approve: bool, caller: User, notes: Option<string>, now: Moment): (d: ItemRequest)
    ensures d.IsApproved() == approve && d.IsRejected() == !approve && !d.IsPending()
    ensures d.id == q.id && d.userId == q.userId && d.itemId == q.itemId && d.quantity == q.quantity
    ensures d.approvedBy == Some(caller.id) && d.approvedAt == Some(now) && d.notes == notes
  {
    q.(status := if approve then "approved" else "rejected",
       approvedBy := Some(caller.id), approvedAt := Some(now), notes := notes)
  }

  /** The tables of the inventory. An item's id is its position in `items`: ids are
      handed out in order and items are not deleted here. */
  class Inventory {
    var items: seq<Item>
    var receipts: seq<IncomingItem>
    var dispatches: seq<OutgoingItem>
    var requests: seq<ItemRequest>
    var nextReceiptId: nat
    var nextDispatchId: nat
    var nextRequestId: nat
    /** The stock counter of every item, by id; Valid ties it to the items' own counters. */
    ghost var stock: seq<int>
    /** The stock each item was created with. */
    ghost var initial: seq<int>
    /** The status a new request row takes from its column default. */
    const defaultStatus: string

    /** Every column but the stock counter of every item, by id. */
    function Catalog(): (s: seq<ItemDetails>)
      reads this`items
      ensures |s| == |items|
    {
      CatalogOf(items)
    }

    /** The code of every item, by id. */
    function Codes(): (s: seq<string>)
      reads this`items
      ensures |s| == |items|
    {
      CodesOf(items)
    }

    /** The rows the item listings filter: each item's columns at its id, with its stock
        counter as it stands. */
    function Rows(): (rs: seq<ItemRow>)
      reads this`items, items
      ensures |rs| == |items|
      ensures forall i :: 0 <= i < |rs| ==> rs[i].id == i && rs[i].code == Codes()[i]
      ensures Mirrored() ==> forall i :: 0 <= i < |rs| ==> rs[i].stockQuantity == stock[i]
    {
      var its := items;
      seq(|its|, i requires 0 <= i < |its| reads its => its[i].Row(i))
    }

    /** No two items share a code (the unique index on the code column). Since an item's
        code never changes, this also keeps any item object from sitting at two ids. */
    ghost predicate UniqueCodes()
      reads this`items
    {
      forall i, j :: 0 <= i < j < |items| ==> items[i].code != items[j].code
    }

    /** `stock` is the items' counters. */
    ghost predicate Mirrored()
      reads this`items, this`stock, items
    {
      |stock| == |items| && forall i :: 0 <= i < |items| ==> items[i].stockQuantity == stock[i]
    }

    /** The part of the invariant that the stock counters do not enter. */
    ghost predicate TablesValid()
      reads this
    {
      && UniqueCodes()
      && defaultStatus != "approved"
      && WellFormed(|items|, receipts, dispatches, requests, nextReceiptId, nextDispatchId, nextRequestId)
    }

    /** The invariant: the tables are well formed, no request is approved when it is
        filed, and every stock counter is what the tables account for. */
    ghost predicate Valid()
      reads this, items
    {
      TablesValid() && Mirrored() && Accounted(stock, initial, receipts, dispatches, requests)
    }

    constructor (defaultStatus: string)
      requires defaultStatus != "approved"
      ensures Valid() && AllNonNegative(stock)
      ensures items == [] && receipts == [] && dispatches == [] && requests == []
      ensures nextReceiptId == 1 && nextDispatchId == 1 && nextRequestId == 1
      ensures this.defaultStatus == defaultStatus
    {
      items, receipts, dispatches, requests := [], [], [], [];
      nextReceiptId, nextDispatchId, nextRequestId := 1, 1, 1;
      stock, initial := [], [];
      this.defaultStatus := defaultStatus;
    }

    /** Adds `quantity` to the stock of item `id` through the item's own operation, once
        the tables already account for it. */
    method Increase(id: nat, quantity: int)
      requires id < |items| && TablesValid() && Mirrored()
      requires Accounted(stock[id := stock[id] + quantity], initial, receipts, dispatches, requests)
      modifies this`stock, items[id]
      ensures Valid()
      ensures stock == old(stock)[id := old(stock)[id] + quantity]
    {
      items[id].IncreaseStock(quantity);
      stock := stock[id := stock[id] + quantity];
    }

    /** Takes `quantity` from the stock of item `id` through the item's own operation, once
        the tables already account for it. */
    method Decrease(id: nat, quantity: int)
      requires id < |items| && TablesValid() && Mirrored()
      requires Accounted(stock[id := stock[id] - quantity], initial, receipts, dispatches, requests)
      modifies this`stock, items[id]
      ensures Valid()
      ensures stock == old(stock)[id := old(stock)[id] - quantity]
    {
      items[id].DecreaseStock(quantity);
      stock := stock[id := stock[id] - quantity];
    }

    /** Appends `item`, whose code no item has yet, with its stock as its initial balance. */
    method AddItem(item: Item)
      requires Valid() && item.code !in Codes()
      modifies this`items, this`stock, this`initial
      ensures Valid()
      ensures items == old(items) + [item]
      ensures stock == old(stock) + [item.stockQuantity]
    {
      NewItemAccounted(stock, initial, receipts, dispatches, requests, item.stockQuantity);
      ItemAddedWellFormed(|items|, receipts, dispatches, requests, nextReceiptId, nextDispatchId, nextRequestId);
      assert forall i :: 0 <= i < |items| ==> items[i].code == Codes()[i];
      items := items + [item];
      stock := stock + [item.stockQuantity];
      initial := initial + [item.stockQuantity];
    }

    /** Appends `receipt`; its item's counter is raised by the caller. */
    method LogReceipt(receipt: IncomingItem)
      requires Valid() && receipt.id == nextReceiptId && receipt.itemId < |items|
      modifies this`receipts, this`nextReceiptId
      ensures TablesValid() && Mirrored()
      ensures Accounted(stock[receipt.itemId := stock[receipt.itemId] + receipt.quantity],
                        initial, receipts, dispatches, requests)
      ensures receipts == old(receipts) + [receipt]
    {
      ReceiptAddedWellFormed(|items|, receipts, dispatches, requests, nextReceiptId, nextDispatchId, nextRequestId, receipt);
      ReceiptAccounted(stock, initial, receipts, dispatches, requests, receipt);
      receipts := receipts + [receipt];
      nextReceiptId := nextReceiptId + 1;
    }

    /** Deletes the receipt at position `k`; its item's counter is lowered by the caller. */
    method DropReceipt(k: nat)
      requires Valid() && k < |receipts|
      modifies this`receipts
      ensures TablesValid() && Mirrored() && old(receipts)[k].itemId < |items|
      ensures Accounted(stock[old(receipts)[k].itemId := stock[old(receipts)[k].itemId] - old(receipts)[k].quantity],
                        initial, receipts, dispatches, requests)
      ensures receipts == Without(old(receipts), k)
    {
      ReceiptRemovedWellFormed(|items|, receipts, dispatches, requests, nextReceiptId, nextDispatchId, nextRequestId, k);
      ReceiptRemovalAccounted(stock, initial, receipts, dispatches, requests, k);
      receipts := Without(receipts, k);
    }

    /** Appends `dispatch`; its item's counter is lowered by the caller. */
    method LogDispatch(dispatch: OutgoingItem)
      requires Valid() && dispatch.id == nextDispatchId && dispatch.itemId < |items| && dispatch.quantity >= 1
      modifies this`dispatches, this`nextDispatchId
      ensures TablesValid() && Mirrored()
      ensures Accounted(stock[dispatch.itemId := stock[dispatch.itemId] - dispatch.quantity],
                        initial, receipts, dispatches, requests)
      ensures dispatches == old(dispatches) + [dispatch]
    {
      DispatchAddedWellFormed(|items|, receipts, dispatches, requests, nextReceiptId, nextDispatchId, nextRequestId, dispatch);
      DispatchAccounted(stock, initial, receipts, dispatches, requests, dispatch);
      dispatches := dispatches + [dispatch];
      nextDispatchId := nextDispatchId + 1;
    }

    /** Deletes the dispatch at position `k`; its item's counter is raised by the caller. */
    method DropDispatch(k: nat)
      requires Valid() && k < |dispatches|
      modifies this`dispatches
      ensures TablesValid() && Mirrored()
      ensures old(dispatches)[k].itemId < |items| && old(dispatches)[k].quantity >= 1
      ensures Accounted(stock[old(dispatches)[k].itemId := stock[old(dispatches)[k].itemId] + old(dispatches)[k].quantity],
                        initial, receipts, dispatches, requests)
      ensures dispatches == Without(old(dispatches), k)
    {
      DispatchRemovedWellFormed(|items|, receipts, dispatches, requests, nextReceiptId, nextDispatchId, nextRequestId, k);
      DispatchRemovalAccounted(stock, initial, receipts, dispatches, requests, k);
      dispatches := Without(dispatches, k);
    }

    /** Replaces the request at position `k`, not approved, by the approved `request` with
        the same id and item; the item's counter is lowered by the caller. */
    method MarkApproved(k: nat, request: ItemRequest)
      requires Valid() && k < |requests| && !requests[k].IsApproved() && request.IsApproved()
      requires request.id == requests[k].id && request.itemId == requests[k].itemId
      modifies this`requests
      ensures TablesValid() && Mirrored() && request.itemId < |items|
      ensures Accounted(stock[request.itemId := stock[request.itemId] - request.quantity],
                        initial, receipts, dispatches, requests)
      ensures requests == old(requests)[k := request]
    {
      RequestRewrittenWellFormed(|items|, receipts, dispatches, requests, nextReceiptId, nextDispatchId, nextRequestId, k, request);
      RequestRewrittenAccounted(stock, initial, receipts, dispatches, requests, k, request);
      requests := requests[k := request];
    }

    /** Records `receipt` and raises its item's stock by its quantity. */
    method AddReceipt(receipt: IncomingItem)
      requires Valid() && receipt.id == nextReceiptId && receipt.itemId < |items|
      modifies this`receipts, this`nextReceiptId, this`stock, items
      ensures Valid()
      ensures receipts == old(receipts) + [receipt]
      ensures stock == old(stock)[receipt.itemId := old(stock)[receipt.itemId] + receipt.quantity]
    {
      LogReceipt(receipt);
      Increase(receipt.itemId, receipt.quantity);
    }

    /** Deletes the receipt at position `k` and lowers its item's stock by its quantity. */
    method RemoveReceipt(k: nat)
      requires Valid() && k < |receipts|
      modifies this`receipts, this`stock, items
      ensures Valid()
      ensures receipts == Without(old(receipts), k)
      ensures stock == old(stock)[old(receipts)[k].itemId := old(stock)[old(receipts)[k].itemId] - old(receipts)[k].quantity]
    {
      var gone := receipts[k];
      DropReceipt(k);
      Decrease(gone.itemId, gone.quantity);
    }

    /** Records `dispatch` and lowers its item's stock by its quantity. */
    method AddDispatch(dispatch: OutgoingItem)
      requires Valid() && dispatch.id == nextDispatchId && dispatch.itemId < |items| && dispatch.quantity >= 1
      modifies this`dispatches, this`nextDispatchId, this`stock, items
      ensures Valid()
      ensures dispatches == old(dispatches) + [dispatch]
      ensures stock == old(stock)[dispatch.itemId := old(stock)[dispatch.itemId] - dispatch.quantity]
    {
      LogDispatch(dispatch);
      Decrease(dispatch.itemId, dispatch.quantity);
    }

    /** Deletes the dispatch at position `k` and raises its item's stock by its quantity,
        which is at least one. */
    method RemoveDispatch(k: nat)
      requires Valid() && k < |dispatches|
      modifies this`dispatches, this`stock, items
      ensures Valid()
      ensures dispatches == Without(old(dispatches), k)
      ensures old(dispatches)[k].quantity >= 1
      ensures stock == old(stock)[old(dispatches)[k].itemId := old(stock)[old(dispatches)[k].itemId] + old(dispatches)[k].quantity]
    {
      var gone := dispatches[k];
      DropDispatch(k);
      Increase(gone.itemId, gone.quantity);
    }

    /** Approves the pending request at position `k` as `request` and lowers its item's
        stock by its quantity. */
    method ApproveRequest(k: nat, request: ItemRequest)
      requires Valid() && k < |requests| && !requests[k].IsApproved() && request.IsApproved()
      requires request.id == requests[k].id && request.itemId == requests[k].itemId
      modifies this`requests, this`stock, items
      ensures Valid()
      ensures requests == old(requests)[k := request]
      ensures stock == old(stock)[request.itemId := old(stock)[request.itemId] - request.quantity]
    {
      MarkApproved(k, request);
      Decrease(request.itemId, request.quantity);
    }

    /** Appends `request`, which is not approved. */
    method FileRequest(request: ItemRequest)
      requires Valid() && request.id == nextRequestId && request.itemId < |items| && !request.IsApproved()
      modifies this`requests, this`nextRequestId
      ensures Valid()
      ensures requests == old(requests) + [request]
    {
      RequestAddedWellFormed(|items|, receipts, dispatches, requests, nextReceiptId, nextDispatchId, nextRequestId, request);
      RequestFiledAccounted(stock, initial, receipts, dispatches, requests, request);
      requests := requests + [request];
      nextRequestId := nextRequestId + 1;
    }

    /** Replaces the request at position `k` by `request`, with the same id and item, where
        neither is approved. */
    method RewriteRequest(k: nat, request: ItemRequest)
      requires Valid() && k < |requests| && !requests[k].IsApproved() && !request.IsApproved()
      requires request.id == requests[k].id && request.itemId == requests[k].itemId
      modifies this`requests
      ensures Valid()
      ensures requests == old(requests)[k := request]
    {
      RequestRewrittenWellFormed(|items|, receipts, dispatches, requests, nextReceiptId, nextDispatchId, nextRequestId, k, request);
      RequestRewrittenAccounted(stock, initial, receipts, dispatches, requests, k, request);
      assert stock[request.itemId := stock[request.itemId] - 0] == stock;
      requests := requests[k := request];
    }

    /** Deletes the request at position `k`, which is not approved. */
    method DropRequest(k: nat)
      requires Valid() && k < |requests| && !requests[k].IsApproved()
      modifies this`requests
      ensures Valid()
      ensures requests == Without(old(requests), k)
    {
      RequestRemovedWellFormed(|items|, receipts, dispatches, requests, nextReceiptId, nextDispatchId, nextRequestId, k);
      RequestRemovalAccounted(stock, initial, receipts, dispatches, requests, k);
      requests := Without(requests, k);
    }

    /** Creates the item a validated form describes, under `code`, which no item has yet,
        and appends it. */
    method CreateItem(input: ItemInput, code: string) returns (id: nat)
      requires Valid() && code !in Codes()
      requires input.name.Some? && input.itemType.Some? && input.categoryId.Some?
      requires input.unit.Some? && input.stockQuantity.Some?
      modifies this`items, this`stock, this`initial
      ensures Valid()
      ensures id == old(|items|) && |items| == id + 1
      ensures items == old(items) + [items[id]] && fresh(items[id]) && items[id].code == code
      ensures Catalog() == old(Catalog()) + [CreatedDetails(input, code)]
      ensures stock == old(stock) + [input.stockQuantity.value]
    {
      var item := new Item(code, input.name.value, input.itemType.value, input.categoryId.value,
                           input.supplierId, input.unit.value, input.size, input.description,
                           input.stockQuantity.value);
      CatalogOfAppend(items, item);
      id := |items|;
      AddItem(item);
    }

    /** ItemController::store: a manager's validated form becomes a new item whose code is
        generated from its type by generateItemCode as written and whose stock is the
        form's opening balance. The value is the new item's id. When the generated code
        already exists (possible once a prefix has a five-digit number) the unique index
        refuses the insert and nothing changes; while every code of the prefix has four
        digits that cannot happen. */
    method StoreItem(caller: User, input: ItemInput, categories: set<nat>, suppliers: set<nat>)
      returns (r: Result<nat>)
      requires Valid()
      modifies this`items, this`stock, this`initial
      ensures Valid()
      ensures r == (if !AuthorizeStoreItem(caller) then Failure(Forbidden)
                    else if ItemErrors(input, categories, suppliers) != {}
                    then Failure(Invalid(ItemErrors(input, categories, suppliers)))
                    else if GenerateItemCode(input.itemType.value, old(Codes())) in old(Codes())
                    then Failure(DuplicateCode)
                    else Success(old(|items|)))
      ensures (&& AuthorizeStoreItem(caller) && ItemErrors(input, categories, suppliers) == {}
               && FourDigitSuffixes(old(Codes()), Prefix(input.itemType.value))) ==> r.Success?
      ensures r.Failure? ==> items == old(items) && stock == old(stock)
      ensures r.Success? ==>
                && input.itemType.Some? && input.stockQuantity.Some?
                && |items| == old(|items|) + 1
                && items == old(items) + [items[r.value]] && fresh(items[r.value])
                && items[r.value].code == GenerateItemCode(input.itemType.value, old(Codes()))
                && items[r.value].code !in old(Codes())
                && Catalog() == old(Catalog()) + [CreatedDetails(input, items[r.value].code)]
                && stock == old(stock) + [input.stockQuantity.value]
    {
      if !AuthorizeStoreItem(caller) {
        return Failure(Forbidden);
      }
      var bad := ItemErrors(input, categories, suppliers);
      if bad != {} {
        return Failure(Invalid(bad));
      }
      var code := GenerateItemCode(input.itemType.value, Codes());
      if FourDigitSuffixes(Codes(), Prefix(input.itemType.value)) {
        GeneratedCodeFreshWhileFourDigits(input.itemType.value, Codes());
      }
      if code in Codes() {
        return Failure(DuplicateCode);
      }
      var id := CreateItem(input, code);
      r := Success(id);
    }

    /** IncomingItemController::store, behind the inventory-management middleware: a
        manager's receipt is recorded with the caller and the clock, and its item's stock
        rises by its quantity. The value is the new receipt's id. */
    method StoreIncoming(caller: User, input: IncomingInput, now: Moment) returns (r: Result<nat>)
      requires Valid()
      modifies this`receipts, this`nextReceiptId, this`stock, items
      ensures Valid()
      ensures r == (if !caller.CanManageInventory() then Failure(Forbidden)
                    else if input.itemId >= |items| then Failure(Invalid({ItemId}))
                    else Success(old(nextReceiptId)))
      ensures r.Failure? ==> receipts == old(receipts) && stock == old(stock)
      ensures r.Success? ==>
                && receipts == old(receipts) + [IncomingItem(r.value, input.noSj, input.noRkm,
                     input.itemId, input.quantity, input.unit, caller.id, now)]
                && stock == old(stock)[input.itemId := old(stock)[input.itemId] + input.quantity]
      ensures AllNonNegative(old(stock)) && input.quantity >= 0 ==> AllNonNegative(stock)
    {
      if !caller.CanManageInventory() {
        return Failure(Forbidden);
      }
      if input.itemId >= |items| {
        return Failure(Invalid({ItemId}));
      }
      ghost var before := stock;
      r := Success(nextReceiptId);
      AddReceipt(IncomingItem(nextReceiptId, input.noSj, input.noRkm, input.itemId,
                              input.quantity, input.unit, caller.id, now));
      if AllNonNegative(before) {
        UpdateNonNegative(before, input.itemId, before[input.itemId] + input.quantity);
      }
    }

    /** IncomingItemController::destroy: a manager deletes a receipt and its item's stock
        falls back by the receipt's quantity, with no check that enough is left. */
    method DestroyIncoming(caller: User, id: nat) returns (r: Result<()>)
      requires Valid()
      modifies this`receipts, this`stock, items
      ensures Valid()
      ensures r == (if Find(old(receipts), ReceiptId, id).None? then Failure(NotFound)
                    else if !caller.CanManageInventory() then Failure(Forbidden)
                    else Success(()))
      ensures r.Failure? ==> receipts == old(receipts) && stock == old(stock)
      ensures r.Success? ==>
                var k := Find(old(receipts), ReceiptId, id).value;
                && receipts == Without(old(receipts), k)
                && Find(receipts, ReceiptId, id).None?
                && stock == old(stock)[old(receipts)[k].itemId :=
                                       old(stock)[old(receipts)[k].itemId] - old(receipts)[k].quantity]
                && (AllNonNegative(old(stock)) ==>
                      (AllNonNegative(stock) <==> old(stock)[old(receipts)[k].itemId] >= old(receipts)[k].quantity))
    {
      var found := Find(receipts, ReceiptId, id);
      if found.None? {
        return Failure(NotFound);
      }
      if !caller.CanManageInventory() {
        return Failure(Forbidden);
      }
      var k := found.value;
      ghost var before := stock;
      ghost var gone := receipts[k];
      FindWithout(receipts, ReceiptId, k);
      RemoveReceipt(k);
      if AllNonNegative(before) {
        UpdateNonNegative(before, gone.itemId, before[gone.itemId] - gone.quantity);
      }
      r := Success(());
    }

    /** OutgoingItemController::store, behind the inventory-management middleware: a
        manager's validated dispatch is refused when its item's stock does not cover it, and
        otherwise recorded with the caller and the clock while the stock falls by its
        quantity. The value is the new dispatch's id. */
    method StoreOutgoing(caller: User, input: OutgoingInput, now: Moment) returns (r: Result<nat>)
      requires Valid()
      modifies this`dispatches, this`nextDispatchId, this`stock, items
      ensures Valid()
      ensures r == (if !caller.CanManageInventory() || !AuthorizeStoreOutgoing(caller) then Failure(Forbidden)
                    else if OutgoingErrors(input, |items|) != {} then Failure(Invalid(OutgoingErrors(input, |items|)))
                    else if old(stock)[input.itemId.value] < input.quantity.value then Failure(InsufficientStock)
                    else Success(old(nextDispatchId)))
      ensures r.Failure? ==> dispatches == old(dispatches) && stock == old(stock)
      ensures r.Success? ==>
                && input.noSj.Some? && input.site.Some? && input.itemId.Some?
                && input.quantity.Some? && input.unit.Some?
                && dispatches == old(dispatches) + [OutgoingItem(r.value, input.noSj.value, input.site.value,
                     input.itemId.value, input.quantity.value, input.unit.value, caller.id, now)]
                && stock == old(stock)[input.itemId.value := old(stock)[input.itemId.value] - input.quantity.value]
      ensures AllNonNegative(old(stock)) ==> AllNonNegative(stock)
    {
      if !caller.CanManageInventory() || !AuthorizeStoreOutgoing(caller) {
        return Failure(Forbidden);
      }
      var bad := OutgoingErrors(input, |items|);
      if bad != {} {
        return Failure(Invalid(bad));
      }
      var id, quantity := input.itemId.value, input.quantity.value;
      if !items[id].HasSufficientStock(quantity) {
        return Failure(InsufficientStock);
      }
      ghost var before := stock;
      r := Success(nextDispatchId);
      AddDispatch(OutgoingItem(nextDispatchId, input.noSj.value, input.site.value, id, quantity,
                               input.unit.value, caller.id, now));
      if AllNonNegative(before) {
        UpdateNonNegative(before, id, before[id] - quantity);
      }
    }

    /** OutgoingItemController::destroy: a manager deletes a dispatch and its item's stock
        rises back by the dispatch's quantity. */
    method DestroyOutgoing(caller: User, id: nat) returns (r: Result<()>)
      requires Valid()
      modifies this`dispatches, this`stock, items
      ensures Valid()
      ensures r == (if Find(old(dispatches), DispatchId, id).None? then Failure(NotFound)
                    else if !caller.CanManageInventory() then Failure(Forbidden)
                    else Success(()))
      ensures r.Failure? ==> dispatches == old(dispatches) && stock == old(stock)
      ensures r.Success? ==>
                var k := Find(old(dispatches), DispatchId, id).value;
                && dispatches == Without(old(dispatches), k)
                && Find(dispatches, DispatchId, id).None?
                && stock == old(stock)[old(dispatches)[k].itemId :=
                                       old(stock)[old(dispatches)[k].itemId] + old(dispatches)[k].quantity]
      ensures AllNonNegative(old(stock)) ==> AllNonNegative(stock)
    {
      var found := Find(dispatches, DispatchId, id);
      if found.None? {
        return Failure(NotFound);
      }
      if !caller.CanManageInventory() {
        return Failure(Forbidden);
      }
      var k := found.value;
      ghost var before := stock;
      ghost var gone := dispatches[k];
      FindWithout(dispatches, DispatchId, k);
      RemoveDispatch(k);
      if AllNonNegative(before) {
        UpdateNonNegative(before, gone.itemId, before[gone.itemId] + gone.quantity);
      }
      r := Success(());
    }

    /** ItemRequestController::store: any caller's validated request is filed under the
        caller with the table's default status, no decision and the clock as its creation
        time; no stock moves. The value is the new request's id. */
    method StoreRequest(caller: User, input: RequestInput, now: Moment) returns (r: Result<nat>)
      requires Valid()
      modifies this`requests, this`nextRequestId
      ensures Valid()
      ensures r == (if !AuthorizeStoreRequest(caller) then Failure(Forbidden)
                    else if RequestErrors(input, |items|) != {} then Failure(Invalid(RequestErrors(input, |items|)))
                    else Success(old(nextRequestId)))
      ensures r.Failure? ==> requests == old(requests)
      ensures r.Success? ==>
                && input.itemId.Some? && input.quantity.Some? && input.unit.Some?
                && requests == old(requests) + [ItemRequest(r.value, caller.id, input.itemId.value,
                     input.quantity.value, input.unit.value, defaultStatus, input.notes, None, None, now)]
    {
      if !AuthorizeStoreRequest(caller) {
        return Failure(Forbidden);
      }
      var bad := RequestErrors(input, |items|);
      if bad != {} {
        return Failure(Invalid(bad));
      }
      r := Success(nextRequestId);
      FileRequest(ItemRequest(nextRequestId, caller.id, input.itemId.value, input.quantity.value,
                              input.unit.value, defaultStatus, input.notes, None, None, now));
    }

    /** ItemRequestController::edit: only the owner of a pending request may open it for
        editing. */
    function EditRequest(caller: User, id: nat): (r: Result<ItemRequest>)
      reads this`requests
      ensures r == Failure(NotFound) <==> forall k :: 0 <= k < |requests| ==> requests[k].id != id
      ensures r.Success? ==> r.value in requests && r.value.id == id
                             && r.value.IsPending() && r.value.userId == caller.id
      ensures r == Failure(Forbidden) ==>
                exists k :: 0 <= k < |requests| && requests[k].id == id
                            && (!requests[k].IsPending() || requests[k].userId != caller.id)
      ensures r.Success? || r == Failure(NotFound) || r == Failure(Forbidden)
    {
      match Find(requests, RequestId, id)
      case None => Failure(NotFound)
      case Some(k) =>
        if !requests[k].IsPending() || requests[k].userId != caller.id then Failure(Forbidden)
        else Success(requests[k])
    }

    /** ItemRequestController::update: the owner of a pending request replaces its
        quantity, unit and notes; its status, item and decision columns stay. */
    method UpdateRequest(caller: User, id: nat, quantity: int, unit: string, notes: Option<string>)
      returns (r: Result<()>)
      requires Valid()
      modifies this`requests
      ensures Valid()
      ensures r == (if Find(old(requests), RequestId, id).None? then Failure(NotFound)
                    else if !old(requests)[Find(old(requests), RequestId, id).value].IsPending()
                            || old(requests)[Find(old(requests), RequestId, id).value].userId != caller.id
                    then Failure(Forbidden)
                    else Success(()))
      ensures r.Failure? ==> requests == old(requests)
      ensures r.Success? ==>
                var k := Find(old(requests), RequestId, id).value;
                requests == old(requests)[k := old(requests)[k].(quantity := quantity, unit := unit, notes := notes)]
    {
      var found := Find(requests, RequestId, id);
      if found.None? {
        return Failure(NotFound);
      }
      var k := found.value;
      if !requests[k].IsPending() || requests[k].userId != caller.id {
        return Failure(Forbidden);
      }
      AtMostOneStatus(requests[k]);
      RewriteRequest(k, requests[k].(quantity := quantity, unit := unit, notes := notes));
      r := Success(());
    }

    /** ItemRequestController::destroy: a pending request may be deleted by its owner or by
        a manager; no stock moves. */
    method DestroyRequest(caller: User, id: nat) returns (r: Result<()>)
      requires Valid()
      modifies this`requests
      ensures Valid()
      ensures r == (if Find(old(requests), RequestId, id).None? then Failure(NotFound)
                    else if !old(requests)[Find(old(requests), RequestId, id).value].IsPending()
                            || (old(requests)[Find(old(requests), RequestId, id).value].userId != caller.id
                                && !caller.CanManageInventory())
                    then Failure(Forbidden)
                    else Success(()))
      ensures r.Failure? ==> requests == old(requests)
      ensures r.Success? ==>
                && requests == Without(old(requests), Find(old(requests), RequestId, id).value)
                && Find(requests, RequestId, id).None?
    {
      var found := Find(requests, RequestId, id);
      if found.None? {
        return Failure(NotFound);
      }
      var k := found.value;
      if !requests[k].IsPending() || (requests[k].userId != caller.id && !caller.CanManageInventory()) {
        return Failure(Forbidden);
      }
      AtMostOneStatus(requests[k]);
      FindWithout(requests, RequestId, k);
      DropRequest(k);
      r := Success(());
    }

    /** ItemRequestApprovalController::store: a manager decides a pending request. Approval
        is refused when the item's stock does not cover the request, and otherwise lowers
        it by the requested quantity; rejection moves no stock. Either way the request is
        stamped with the manager, the clock and the decision's notes. */
    method Decide(caller: User, id: nat, action: Option<string>, notes: Option<string>, now: Moment)
      returns (r: Result<()>)
      requires Valid()
      modifies this`requests, this`stock, items
      ensures Valid()
      ensures r == (if Find(old(requests), RequestId, id).None? then Failure(NotFound)
                    else if !caller.CanManageInventory() then Failure(Forbidden)
                    else
                      var q := old(requests)[Find(old(requests), RequestId, id).value];
                      if !q.IsPending() then Failure(AlreadyProcessed)
                      else if DecisionErrors(action, notes) != {} then Failure(Invalid(DecisionErrors(action, notes)))
                      else if action == Some("approve") && old(stock)[q.itemId] < q.quantity then Failure(InsufficientStock)
                      else Success(()))
      ensures r.Failure? ==> requests == old(requests) && stock == old(stock)
      ensures r.Success? ==>
                var k := Find(old(requests), RequestId, id).value;
                requests == old(requests)[k := Decided(old(requests)[k], action == Some("approve"), caller, notes, now)]
      ensures r.Success? && action == Some("approve") ==>
                var q := old(requests)[Find(old(requests), RequestId, id).value];
                stock == old(stock)[q.itemId := old(stock)[q.itemId] - q.quantity]
      ensures r.Success? && action != Some("approve") ==> stock == old(stock)
      ensures AllNonNegative(old(stock)) ==> AllNonNegative(stock)
    {
      var found := Find(requests, RequestId, id);
      if found.None? {
        return Failure(NotFound);
      }
      if !caller.CanManageInventory() {
        return Failure(Forbidden);
      }
      var k := found.value;
      var q := requests[k];
      if !q.IsPending() {
        return Failure(AlreadyProcessed);
      }
      var bad := DecisionErrors(action, notes);
      if bad != {} {
        return Failure(Invalid(bad));
      }
      r := Conclude(k, action == Some("approve"), caller, notes, now);
    }

    /** Concludes a decision on the pending request at position `k`: an approval that the
        stock does not cover is refused; otherwise the decision is recorded and an approval
        lowers the item's stock by the requested quantity. */
    method Conclude(k: nat, approve: bool, caller: User, notes: Option<string>, now: Moment)
      returns (r: Result<()>)
      requires Valid() && k < |requests| && requests[k].IsPending()
      modifies this`requests, this`stock, items
      ensures Valid()
      ensures r == (if approve && old(stock)[old(requests)[k].itemId] < old(requests)[k].quantity
                    then Failure(InsufficientStock) else Success(()))
      ensures r.Failure? ==> requests == old(requests) && stock == old(stock)
      ensures r.Success? ==> requests == old(requests)[k := Decided(old(requests)[k], approve, caller, notes, now)]
      ensures r.Success? ==>
                stock == (if approve then old(stock)[old(requests)[k].itemId :=
                                            old(stock)[old(requests)[k].itemId] - old(requests)[k].quantity]
                          else old(stock))
      ensures AllNonNegative(old(stock)) ==> AllNonNegative(stock)
    {
      var q := requests[k];
      if approve && !items[q.itemId].HasSufficientStock(q.quantity) {
        return Failure(InsufficientStock);
      }
      var d := Decided(q, approve, caller, notes, now);
      AtMostOneStatus(q);
      AtMostOneStatus(d);
      if approve {
        ghost var before := stock;
        ApproveRequest(k, d);
        if AllNonNegative(before) {
          UpdateNonNegative(before, q.itemId, before[q.itemId] - q.quantity);
        }
      } else {
        RewriteRequest(k, d);
      }
      r := Success(());
    }
  }
}
