/** What the tables say an item's stock should be. Stock changes only through the three
    stock operations of an item; every receipt adds its quantity, every dispatch and every
    approved request takes its quantity away, and deleting a row undoes its effect. */
module Ledger {
  import opened Sums
  import opened Records
  import opened Requests

  /** How much a receipt adds to the stock of `item`. */
  function ReceiptWeight(item: nat): IncomingItem -> int {
    (r: IncomingItem) => if r.itemId == item then r.quantity else 0
  }

  /** How much a dispatch takes from the stock of `item`. */
  function DispatchWeight(item: nat): OutgoingItem -> int {
    (d: OutgoingItem) => if d.itemId == item then d.quantity else 0
  }

  /** How much a request takes from the stock of `item`: its quantity once approved. */
  function DrawWeight(item: nat): ItemRequest -> int {
    (q: ItemRequest) => if q.itemId == item && q.IsApproved() then q.quantity else 0
  }

  /** The stock of `item` that the tables account for, starting from the quantity the
      item was created with. */
  function Balance(initial: int, rs: seq<IncomingItem>, ds: seq<OutgoingItem>,
                   qs: seq<ItemRequest>, item: nat): int
  {
    initial + Sum(rs, ReceiptWeight(item)) - Sum(ds, DispatchWeight(item)) - Sum(qs, DrawWeight(item))
  }

  lemma ReceiptAdded(initial: int, rs: seq<IncomingItem>, ds: seq<OutgoingItem>,
                     qs: seq<ItemRequest>, item: nat, r: IncomingItem)
    ensures Balance(initial, rs + [r], ds, qs, item)
         == Balance(initial, rs, ds, qs, item) + (if r.itemId == item then r.quantity else 0)
  {
    SumAppend(rs, r, ReceiptWeight(item));
  }

  lemma ReceiptRemoved(initial: int, rs: seq<IncomingItem>, ds: seq<OutgoingItem>,
                       qs: seq<ItemRequest>, item: nat, k: nat)
    requires k < |rs|
    ensures Balance(initial, rs[..k] + rs[k + 1..], ds, qs, item)
         == Balance(initial, rs, ds, qs, item) - (if rs[k].itemId == item then rs[k].quantity else 0)
  {
    SumRemove(rs, k, ReceiptWeight(item));
  }

  lemma DispatchAdded(initial: int, rs: seq<IncomingItem>, ds: seq<OutgoingItem>,
                      qs: seq<ItemRequest>, item: nat, d: OutgoingItem)
    ensures Balance(initial, rs, ds + [d], qs, item)
         == Balance(initial, rs, ds, qs, item) - (if d.itemId == item then d.quantity else 0)
  {
    SumAppend(ds, d, DispatchWeight(item));
  }

  lemma DispatchRemoved(initial: int, rs: seq<IncomingItem>, ds: seq<OutgoingItem>,
                        qs: seq<ItemRequest>, item: nat, k: nat)
    requires k < |ds|
    ensures Balance(initial, rs, ds[..k] + ds[k + 1..], qs, item)
         == Balance(initial, rs, ds, qs, item) + (if ds[k].itemId == item then ds[k].quantity else 0)
  {
    SumRemove(ds, k, DispatchWeight(item));
  }

  /** A request that is not approved when it is filed does not move the balance. */
  lemma RequestAdded(initial: int, rs: seq<IncomingItem>, ds: seq<OutgoingItem>,
                     qs: seq<ItemRequest>, item: nat, q: ItemRequest)
    requires !q.IsApproved()
    ensures Balance(initial, rs, ds, qs + [q], item) == Balance(initial, rs, ds, qs, item)
  {
    SumAppend(qs, q, DrawWeight(item));
  }

  /** Rewriting a request moves the balance by what the old row drew minus what the new
      row draws. */
  lemma RequestRewritten(initial: int, rs: seq<IncomingItem>, ds: seq<OutgoingItem>,
                         qs: seq<ItemRequest>, item: nat, k: nat, q: ItemRequest)
    requires k < |qs|
    ensures Balance(initial, rs, ds, qs[k := q], item)
         == Balance(initial, rs, ds, qs, item)
            + (if qs[k].itemId == item && qs[k].IsApproved() then qs[k].quantity else 0)
            - (if q.itemId == item && q.IsApproved() then q.quantity else 0)
  {
    SumUpdate(qs, k, q, DrawWeight(item));
  }

  /** Deleting a request that is not approved does not move the balance. */
  lemma RequestRemoved(initial: int, rs: seq<IncomingItem>, ds: seq<OutgoingItem>,
                       qs: seq<ItemRequest>, item: nat, k: nat)
    requires k < |qs| && !qs[k].IsApproved()
    ensures Balance(initial, rs, ds, qs[..k] + qs[k + 1..], item) == Balance(initial, rs, ds, qs, item)
  {
    SumRemove(qs, k, DrawWeight(item));
  }

  /** `stock` holds, for every item id, exactly what the tables account for. */
  ghost predicate Accounted(stock: seq<int>, initial: seq<int>, rs: seq<IncomingItem>,
                            ds: seq<OutgoingItem>, qs: seq<ItemRequest>)
  {
    |stock| == |initial|
    && forall i {:trigger Balance(initial[i], rs, ds, qs, i)} ::
         0 <= i < |stock| ==> stock[i] == Balance(initial[i], rs, ds, qs, i)
  }

  /** The tables determine the stock: two stock vectors accounted by the same tables
      are equal. */
  lemma AccountedDetermines(s1: seq<int>, s2: seq<int>, initial: seq<int>, rs: seq<IncomingItem>,
                            ds: seq<OutgoingItem>, qs: seq<ItemRequest>)
    requires Accounted(s1, initial, rs, ds, qs) && Accounted(s2, initial, rs, ds, qs)
    ensures s1 == s2
  {
    forall i | 0 <= i < |s1| ensures s1[i] == s2[i] {
      assert s1[i] == Balance(initial[i], rs, ds, qs, i);
    }
  }

  /** A new item that no row mentions yet starts balanced at its initial stock. */
  lemma NewItemAccounted(stock: seq<int>, initial: seq<int>, rs: seq<IncomingItem>,
                         ds: seq<OutgoingItem>, qs: seq<ItemRequest>, q0: int)
    requires Accounted(stock, initial, rs, ds, qs)
    requires forall k :: 0 <= k < |rs| ==> rs[k].itemId < |stock|
    requires forall k :: 0 <= k < |ds| ==> ds[k].itemId < |stock|
    requires forall k :: 0 <= k < |qs| ==> qs[k].itemId < |stock|
    ensures Accounted(stock + [q0], initial + [q0], rs, ds, qs)
  {
    var n := |stock|;
    SumOfZeros(rs, ReceiptWeight(n));
    SumOfZeros(ds, DispatchWeight(n));
    SumOfZeros(qs, DrawWeight(n));
  }

  /** Recording a receipt and adding its quantity to its item keeps the stock accounted. */
  lemma ReceiptAccounted(stock: seq<int>, initial: seq<int>, rs: seq<IncomingItem>,
                         ds: seq<OutgoingItem>, qs: seq<ItemRequest>, r: IncomingItem)
    requires Accounted(stock, initial, rs, ds, qs) && r.itemId < |stock|
    ensures Accounted(stock[r.itemId := stock[r.itemId] + r.quantity], initial, rs + [r], ds, qs)
  {
    forall i | 0 <= i < |stock| {
      ReceiptAdded(initial[i], rs, ds, qs, i, r);
    }
  }

  /** Deleting a receipt and taking its quantity back from its item keeps the stock
      accounted. */
  lemma ReceiptRemovalAccounted(stock: seq<int>, initial: seq<int>, rs: seq<IncomingItem>,
                                ds: seq<OutgoingItem>, qs: seq<ItemRequest>, k: nat)
    requires Accounted(stock, initial, rs, ds, qs) && k < |rs| && rs[k].itemId < |stock|
    ensures Accounted(stock[rs[k].itemId := stock[rs[k].itemId] - rs[k].quantity],
                      initial, Without(rs, k), ds, qs)
  {
    forall i | 0 <= i < |stock| {
      ReceiptRemoved(initial[i], rs, ds, qs, i, k);
    }
  }

  /** Recording a dispatch and taking its quantity from its item keeps the stock
      accounted. */
  lemma DispatchAccounted(stock: seq<int>, initial: seq<int>, rs: seq<IncomingItem>,
                          ds: seq<OutgoingItem>, qs: seq<ItemRequest>, d: OutgoingItem)
    requires Accounted(stock, initial, rs, ds, qs) && d.itemId < |stock|
    ensures Accounted(stock[d.itemId := stock[d.itemId] - d.quantity], initial, rs, ds + [d], qs)
  {
    forall i | 0 <= i < |stock| {
      DispatchAdded(initial[i], rs, ds, qs, i, d);
    }
  }

  /** Deleting a dispatch and giving its quantity back to its item keeps the stock
      accounted. */
  lemma DispatchRemovalAccounted(stock: seq<int>, initial: seq<int>, rs: seq<IncomingItem>,
                                 ds: seq<OutgoingItem>, qs: seq<ItemRequest>, k: nat)
    requires Accounted(stock, initial, rs, ds, qs) && k < |ds| && ds[k].itemId < |stock|
    ensures Accounted(stock[ds[k].itemId := stock[ds[k].itemId] + ds[k].quantity],
                      initial, rs, Without(ds, k), qs)
  {
    forall i | 0 <= i < |stock| {
      DispatchRemoved(initial[i], rs, ds, qs, i, k);
    }
  }

  /** Filing a request that is not approved leaves the stock accounted as it is. */
  lemma RequestFiledAccounted(stock: seq<int>, initial: seq<int>, rs: seq<IncomingItem>,
                              ds: seq<OutgoingItem>, qs: seq<ItemRequest>, q: ItemRequest)
    requires Accounted(stock, initial, rs, ds, qs) && !q.IsApproved()
    ensures Accounted(stock, initial, rs, ds, qs + [q])
  {
    forall i | 0 <= i < |stock| {
      RequestAdded(initial[i], rs, ds, qs, i, q);
    }
  }

  /** Rewriting a request that is not approved into one for the same item keeps the
      stock accounted once the new row's draw, if it is approved, is taken from the item. */
  lemma RequestRewrittenAccounted(stock: seq<int>, initial: seq<int>, rs: seq<IncomingItem>,
                                  ds: seq<OutgoingItem>, qs: seq<ItemRequest>, k: nat, q: ItemRequest)
    requires Accounted(stock, initial, rs, ds, qs) && k < |qs| && !qs[k].IsApproved()
    requires q.itemId == qs[k].itemId < |stock|
    ensures Accounted(stock[q.itemId := stock[q.itemId] - (if q.IsApproved() then q.quantity else 0)],
                      initial, rs, ds, qs[k := q])
  {
    forall i | 0 <= i < |stock| {
      RequestRewritten(initial[i], rs, ds, qs, i, k, q);
    }
  }

  /** Deleting a request that is not approved leaves the stock accounted as it is. */
  lemma RequestRemovalAccounted(stock: seq<int>, initial: seq<int>, rs: seq<IncomingItem>,
                                ds: seq<OutgoingItem>, qs: seq<ItemRequest>, k: nat)
    requires Accounted(stock, initial, rs, ds, qs) && k < |qs| && !qs[k].IsApproved()
    ensures Accounted(stock, initial, rs, ds, Without(qs, k))
  {
    forall i | 0 <= i < |stock| {
      RequestRemoved(initial[i], rs, ds, qs, i, k);
    }
  }
}
