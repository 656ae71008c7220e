/** Clients of the stock ledger and of the controller actions: the round trips the
    ledger promises, the terminal decision states, and two runs from an empty
    inventory. */
module Scenarios {
  import opened Base
  import opened Sums
  import opened Users
  import opened Items
  import opened Records
  import opened Requests
  import opened Tables
  import opened FormRules
  import opened Ledger
  import opened Controllers

  /** Raising an item's stock by `quantity` and lowering it by the same amount, in either
      order, gives back the stock it started with. */
  method StockRoundTrip(item: Item, quantity: int)
    modifies item
    ensures item.stockQuantity == old(item.stockQuantity)
  {
    item.IncreaseStock(quantity);
    item.DecreaseStock(quantity);
    assert item.stockQuantity == old(item.stockQuantity);
    item.DecreaseStock(quantity);
    item.IncreaseStock(quantity);
  }

  /** Lowering a stock that is not negative only after HasSufficientStock agreed never
      leaves it negative; when it disagreed nothing changes. */
  method CheckedDecrease(item: Item, quantity: int) returns (taken: bool)
    requires item.stockQuantity >= 0
    modifies item
    ensures taken <==> old(item.stockQuantity) >= quantity
    ensures item.stockQuantity >= 0
    ensures item.stockQuantity == old(item.stockQuantity) - (if taken then quantity else 0)
  {
    taken := item.HasSufficientStock(quantity);
    if taken {
      item.DecreaseStock(quantity);
    }
  }

  /** Recording a receipt and then deleting it leaves the receipts and every stock as
      they were. */
  method ReceiptRoundTrip(inv: Inventory, caller: User, input: IncomingInput, now: Moment)
    returns (stored: Result<nat>, destroyed: Result<()>)
    requires inv.Valid()
    modifies inv`receipts, inv`nextReceiptId, inv`stock, inv.items
    ensures stored.Success? <==> destroyed == Success(())
    ensures inv.receipts == old(inv.receipts) && inv.stock == old(inv.stock)
  {
    destroyed := Failure(NotFound);
    ghost var start := inv.stock;
    stored := inv.StoreIncoming(caller, input, now);
    if stored.Success? {
      ghost var before := old(inv.receipts);
      ghost var added := inv.receipts[|before|];
      FindUnique(inv.receipts, ReceiptId, |before|);
      WithoutAppended(before, added);
      destroyed := inv.DestroyIncoming(caller, stored.value);
      AccountedDetermines(inv.stock, start, inv.initial, inv.receipts, inv.dispatches, inv.requests);
    }
  }

  /** Recording a dispatch and then deleting it leaves the dispatches and every stock as
      they were. */
  method DispatchRoundTrip(inv: Inventory, caller: User, input: OutgoingInput, now: Moment)
    returns (stored: Result<nat>, destroyed: Result<()>)
    requires inv.Valid()
    modifies inv`dispatches, inv`nextDispatchId, inv`stock, inv.items
    ensures stored.Success? <==> destroyed == Success(())
    ensures inv.dispatches == old(inv.dispatches) && inv.stock == old(inv.stock)
  {
    destroyed := Failure(NotFound);
    ghost var start := inv.stock;
    stored := inv.StoreOutgoing(caller, input, now);
    if stored.Success? {
      ghost var before := old(inv.dispatches);
      ghost var added := inv.dispatches[|before|];
      FindUnique(inv.dispatches, DispatchId, |before|);
      WithoutAppended(before, added);
      destroyed := inv.DestroyOutgoing(caller, stored.value);
      AccountedDetermines(inv.stock, start, inv.initial, inv.receipts, inv.dispatches, inv.requests);
    }
  }

  /** A decided request is terminal: deciding it again, whatever the action, is refused
      as already processed. */
  method DecideTwice(inv: Inventory, caller: User, id: nat, action: Option<string>,
                     again: Option<string>, notes: Option<string>, now: Moment)
    returns (first: Result<()>, second: Result<()>)
    requires inv.Valid()
    modifies inv`requests, inv`stock, inv.items
    ensures inv.Valid()
    ensures first.Success? ==> second == Failure(AlreadyProcessed)
  {
    ghost var found := Find(inv.requests, RequestId, id);
    first := inv.Decide(caller, id, action, notes, now);
    second := first;
    if first.Success? {
      FindUnique(inv.requests, RequestId, found.value);
      second := inv.Decide(caller, id, again, notes, now);
    }
  }

  /** The item form of the runs below: a material in category 1 with no supplier. */
  function CementForm(stock: int): ItemInput {
    ItemInput(Some("Cement"), Some("material"), Some(1), None, Some("sack"), None, Some(stock), None)
  }

  lemma CementFormPasses(stock: nat)
    ensures ItemErrors(CementForm(stock), {1}, {}) == {}
  {
    assert "Cement"[0] == 'C' && "sack"[0] == 's';
  }

  /** A dispatch form for item 0 to project site A. */
  function DispatchForm(quantity: int): OutgoingInput {
    OutgoingInput(Some("SJ-1"), Some("project_a"), Some(0), Some(quantity), Some("sack"))
  }

  lemma DispatchFormPasses(quantity: int)
    requires quantity >= 1
    ensures OutgoingErrors(DispatchForm(quantity), 1) == {}
  {
    assert "SJ-1"[0] == 'S' && "sack"[0] == 's';
  }

  /** A fresh inventory whose one item, created by a manager, holds `stock`. */
  method StockedInventory(stock: nat) returns (inv: Inventory, manager: User)
    ensures fresh(inv) && inv.Valid() && manager.CanManageInventory()
    ensures |inv.items| == 1 && fresh(inv.items[0]) && inv.stock == [stock]
    ensures inv.defaultStatus == "pending" && inv.requests == [] && inv.nextRequestId == 1
  {
    manager := User(1, "admin");
    inv := new Inventory("pending");
    CementFormPasses(stock);
    var made := inv.StoreItem(manager, CementForm(stock), {1}, {});
  }

  /** An item created with 10 in stock: a dispatch of 5 goes through and leaves 5; a
      dispatch of 10 is then refused for insufficient stock and the 5 stay. */
  method DispatchScenario() returns (first: Result<nat>, second: Result<nat>, left: int)
    ensures first.Success? && second == Failure(InsufficientStock) && left == 5
  {
    var inv, manager := StockedInventory(10);
    DispatchFormPasses(5);
    first := inv.StoreOutgoing(manager, DispatchForm(5), Moment(1, 0));
    assert first.Success?;
    DispatchFormPasses(10);
    second := inv.StoreOutgoing(manager, DispatchForm(10), Moment(1, 60));
    left := inv.items[0].stockQuantity;
  }

  lemma RequestFormPasses()
    ensures RequestErrors(RequestInput(Some(0), Some(3), Some("sack"), None), 1) == {}
  {
    assert "sack"[0] == 's';
  }

  /** A fresh inventory whose one item holds nothing, and a pending request for 3 of it
      filed by a plain user. */
  method PendingRequest() returns (inv: Inventory, manager: User)
    ensures fresh(inv) && inv.Valid() && manager.CanManageInventory()
    ensures |inv.items| == 1 && fresh(inv.items[0]) && inv.stock == [0]
    ensures |inv.requests| == 1 && inv.requests[0].id == 1 && inv.requests[0].IsPending()
    ensures inv.requests[0].itemId == 0 && inv.requests[0].quantity == 3
  {
    inv, manager := StockedInventory(0);
    RequestFormPasses();
    var filed := inv.StoreRequest(User(2, "user"), RequestInput(Some(0), Some(3), Some("sack"), None), Moment(1, 0));
  }

  /** With nothing in stock, approving the pending request for 3 is refused and the
      request stays pending. */
  method EarlyApproval() returns (inv: Inventory, manager: User, early: Result<()>)
    ensures fresh(inv) && inv.Valid() && manager.CanManageInventory()
    ensures |inv.items| == 1 && fresh(inv.items[0]) && inv.stock == [0]
    ensures |inv.requests| == 1 && inv.requests[0].id == 1 && inv.requests[0].IsPending()
    ensures inv.requests[0].itemId == 0 && inv.requests[0].quantity == 3
    ensures early == Failure(InsufficientStock)
  {
    inv, manager := PendingRequest();
    early := inv.Decide(manager, 1, Some("approve"), None, Moment(1, 60));
  }

  /** With nothing in stock, approving a request for 3 is refused and the request stays
      pending; after a receipt of 5 the approval goes through, leaving 2 in stock and
      the request approved. */
  method ApprovalScenario() returns (early: Result<()>, held: bool, late: Result<()>, left: int, approved: bool)
    ensures early == Failure(InsufficientStock) && held
    ensures late.Success? && left == 2 && approved
  {
    var inv, manager;
    inv, manager, early := EarlyApproval();
    held := inv.requests[0].IsPending();
    var received := inv.StoreIncoming(manager, IncomingInput("SJ-9", "RKM-1", 0, 5, "sack"), Moment(1, 120));
    late := inv.Decide(manager, 1, Some("approve"), None, Moment(1, 180));
    left := inv.items[0].stockQuantity;
    approved := inv.requests[0].IsApproved();
  }
}
