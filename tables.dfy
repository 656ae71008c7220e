/** Well-formedness of the receipt, dispatch and request tables: ids are unique and below
    the next id to hand out, every row names an item that exists, and every dispatch moves
    at least one unit. Each table operation of the controllers keeps it. */
module Tables {
  import opened Sums
  import opened Records
  import opened Requests

  function ReceiptId(r: IncomingItem): nat { r.id }

  function DispatchId(d: OutgoingItem): nat { d.id }

  function RequestId(q: ItemRequest): nat { q.id }

  /** The tables over `itemCount` items, with the next ids `nr`, `nd` and `nq`. */
  ghost predicate WellFormed(itemCount: nat, rs: seq<IncomingItem>, ds: seq<OutgoingItem>,
                             qs: seq<ItemRequest>, nr: nat, nd: nat, nq: nat)
  {
    && UniqueKeys(rs, ReceiptId) && KeysBelow(rs, ReceiptId, nr)
    && UniqueKeys(ds, DispatchId) && KeysBelow(ds, DispatchId, nd)
    && UniqueKeys(qs, RequestId) && KeysBelow(qs, RequestId, nq)
    && (forall k :: 0 <= k < |rs| ==> rs[k].itemId < itemCount)
    && (forall k :: 0 <= k < |ds| ==> ds[k].itemId < itemCount && ds[k].quantity >= 1)
    && (forall k :: 0 <= k < |qs| ==> qs[k].itemId < itemCount)
  }

  lemma ItemAddedWellFormed(n: nat, rs: seq<IncomingItem>, ds: seq<OutgoingItem>,
                            qs: seq<ItemRequest>, nr: nat, nd: nat, nq: nat)
    requires WellFormed(n, rs, ds, qs, nr, nd, nq)
    ensures WellFormed(n + 1, rs, ds, qs, nr, nd, nq)
  {
  }

  lemma ReceiptAddedWellFormed(n: nat, rs: seq<IncomingItem>, ds: seq<OutgoingItem>,
                               qs: seq<ItemRequest>, nr: nat, nd: nat, nq: nat, r: IncomingItem)
    requires WellFormed(n, rs, ds, qs, nr, nd, nq) && r.id == nr && r.itemId < n
    ensures WellFormed(n, rs + [r], ds, qs, nr + 1, nd, nq)
  {
    AppendFreshKey(rs, ReceiptId, nr, r);
  }

  lemma ReceiptRemovedWellFormed(n: nat, rs: seq<IncomingItem>, ds: seq<OutgoingItem>,
                                 qs: seq<ItemRequest>, nr: nat, nd: nat, nq: nat, k: nat)
    requires WellFormed(n, rs, ds, qs, nr, nd, nq) && k < |rs|
    ensures WellFormed(n, Without(rs, k), ds, qs, nr, nd, nq)
  {
    WithoutKeys(rs, ReceiptId, nr, k);
  }

  lemma DispatchAddedWellFormed(n: nat, rs: seq<IncomingItem>, ds: seq<OutgoingItem>,
                                qs: seq<ItemRequest>, nr: nat, nd: nat, nq: nat, d: OutgoingItem)
    requires WellFormed(n, rs, ds, qs, nr, nd, nq) && d.id == nd && d.itemId < n && d.quantity >= 1
    ensures WellFormed(n, rs, ds + [d], qs, nr, nd + 1, nq)
  {
    AppendFreshKey(ds, DispatchId, nd, d);
  }

  lemma DispatchRemovedWellFormed(n: nat, rs: seq<IncomingItem>, ds: seq<OutgoingItem>,
                                  qs: seq<ItemRequest>, nr: nat, nd: nat, nq: nat, k: nat)
    requires WellFormed(n, rs, ds, qs, nr, nd, nq) && k < |ds|
    ensures WellFormed(n, rs, Without(ds, k), qs, nr, nd, nq)
  {
    WithoutKeys(ds, DispatchId, nd, k);
  }

  lemma RequestAddedWellFormed(n: nat, rs: seq<IncomingItem>, ds: seq<OutgoingItem>,
                               qs: seq<ItemRequest>, nr: nat, nd: nat, nq: nat, q: ItemRequest)
    requires WellFormed(n, rs, ds, qs, nr, nd, nq) && q.id == nq && q.itemId < n
    ensures WellFormed(n, rs, ds, qs + [q], nr, nd, nq + 1)
  {
    AppendFreshKey(qs, RequestId, nq, q);
  }

  /** Rewriting a request in place keeps the tables well formed when its id and item stay. */
  lemma RequestRewrittenWellFormed(n: nat, rs: seq<IncomingItem>, ds: seq<OutgoingItem>,
                                   qs: seq<ItemRequest>, nr: nat, nd: nat, nq: nat, k: nat, q: ItemRequest)
    requires WellFormed(n, rs, ds, qs, nr, nd, nq) && k < |qs|
    requires q.id == qs[k].id && q.itemId == qs[k].itemId
    ensures WellFormed(n, rs, ds, qs[k := q], nr, nd, nq)
  {
    var qs' := qs[k := q];
    forall a, b | 0 <= a < b < |qs'| ensures RequestId(qs'[a]) != RequestId(qs'[b]) {
      assert RequestId(qs'[a]) == RequestId(qs[a]) && RequestId(qs'[b]) == RequestId(qs[b]);
    }
    forall a | 0 <= a < |qs'| ensures RequestId(qs'[a]) < nq {
      assert RequestId(qs'[a]) == RequestId(qs[a]);
    }
  }

  lemma RequestRemovedWellFormed(n: nat, rs: seq<IncomingItem>, ds: seq<OutgoingItem>,
                                 qs: seq<ItemRequest>, nr: nat, nd: nat, nq: nat, k: nat)
    requires WellFormed(n, rs, ds, qs, nr, nd, nq) && k < |qs|
    ensures WellFormed(n, rs, ds, Without(qs, k), nr, nd, nq)
  {
    WithoutKeys(qs, RequestId, nq, k);
  }
}
