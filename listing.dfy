/** The filters of the four index pages. Each filter parameter applies only when it is
    filled in, and the filters that apply are combined by AND. A search term matches an
    item whose name or code contains it. */
module Listing {
  import opened Base
  import opened Text
  import opened Sums
  import opened Users
  import opened Items
  import opened Records
  import opened Requests

  /** `$request->filled(key)`: present and not blank. */
  predicate Filled(v: Option<string>) {
    v.Some? && !IsBlank(v.value)
  }

  /** The item's name or code contains the search term. */
  predicate SearchHit(row: ItemRow, term: string) {
    Contains(row.name, term) || Contains(row.code, term)
  }

  /** The item a record refers to is listed in `rows` and matches the search term. */
  predicate ItemHit(rows: seq<ItemRow>, itemId: nat, term: string) {
    exists k :: 0 <= k < |rows| && rows[k].id == itemId && SearchHit(rows[k], term)
  }

  // ---- items (ItemController::index)

  datatype ItemFilter = ItemFilter(search: Option<string>, itemType: Option<string>, categoryId: Option<nat>)

  predicate ItemMatches(f: ItemFilter, row: ItemRow) {
    (Filled(f.search) ==> SearchHit(row, f.search.value))
    && (Filled(f.itemType) ==> row.itemType == f.itemType.value)
    && (f.categoryId.Some? ==> row.categoryId == f.categoryId.value)
  }

  function ItemSelector(f: ItemFilter): ItemRow -> bool {
    row => ItemMatches(f, row)
  }

  function ItemIndex(f: ItemFilter, rows: seq<ItemRow>): (r: seq<ItemRow>)
    ensures forall x :: x in r <==> x in rows && ItemMatches(f, x)
  {
    Filter(rows, ItemSelector(f))
  }

  // ---- receipts (IncomingItemController::index)

  datatype IncomingFilter = IncomingFilter(
    search: Option<string>, noSj: Option<string>, dateFrom: Option<int>, dateTo: Option<int>)

  /** The date bounds compare the day of `created_at`, both ends inclusive. */
  predicate IncomingMatches(f: IncomingFilter, rows: seq<ItemRow>, r: IncomingItem) {
    (Filled(f.search) ==> ItemHit(rows, r.itemId, f.search.value))
    && (Filled(f.noSj) ==> Contains(r.noSj, f.noSj.value))
    && (f.dateFrom.Some? ==> r.createdAt.day >= f.dateFrom.value)
    && (f.dateTo.Some? ==> r.createdAt.day <= f.dateTo.value)
  }

  function IncomingSelector(f: IncomingFilter, rows: seq<ItemRow>): IncomingItem -> bool {
    r => IncomingMatches(f, rows, r)
  }

  function IncomingIndex(f: IncomingFilter, rows: seq<ItemRow>, rs: seq<IncomingItem>): (r: seq<IncomingItem>)
    ensures forall x :: x in r <==> x in rs && IncomingMatches(f, rows, x)
  {
    Filter(rs, IncomingSelector(f, rows))
  }

  // ---- dispatches (OutgoingItemController::index)

  datatype OutgoingFilter = OutgoingFilter(
    search: Option<string>, site: Option<string>, noSj: Option<string>,
    dateFrom: Option<int>, dateTo: Option<int>)

  predicate OutgoingMatches(f: OutgoingFilter, rows: seq<ItemRow>, d: OutgoingItem) {
    (Filled(f.search) ==> ItemHit(rows, d.itemId, f.search.value))
    && (Filled(f.site) ==> d.site == f.site.value)
    && (Filled(f.noSj) ==> Contains(d.noSj, f.noSj.value))
    && (f.dateFrom.Some? ==> d.createdAt.day >= f.dateFrom.value)
    && (f.dateTo.Some? ==> d.createdAt.day <= f.dateTo.value)
  }

  function OutgoingSelector(f: OutgoingFilter, rows: seq<ItemRow>): OutgoingItem -> bool {
    d => OutgoingMatches(f, rows, d)
  }

  function OutgoingIndex(f: OutgoingFilter, rows: seq<ItemRow>, ds: seq<OutgoingItem>): (r: seq<OutgoingItem>)
    ensures forall x :: x in r <==> x in ds && OutgoingMatches(f, rows, x)
  {
    Filter(ds, OutgoingSelector(f, rows))
  }

  // ---- requests (ItemRequestController::index)

  datatype RequestFilter = RequestFilter(search: Option<string>, status: Option<string>, userId: Option<nat>)

  /** A caller with role "user" is confined to its own requests; the requester filter is
      honoured only for managers. */
  predicate RequestMatches(caller: User, f: RequestFilter, rows: seq<ItemRow>, q: ItemRequest) {
    (caller.IsUser() ==> q.userId == caller.id)
    && (Filled(f.search) ==> ItemHit(rows, q.itemId, f.search.value))
    && (Filled(f.status) ==> q.status == f.status.value)
    && (f.userId.Some? && caller.CanManageInventory() ==> q.userId == f.userId.value)
  }

  function RequestSelector(caller: User, f: RequestFilter, rows: seq<ItemRow>): ItemRequest -> bool {
    q => RequestMatches(caller, f, rows, q)
  }

  function RequestIndex(caller: User, f: RequestFilter, rows: seq<ItemRow>, qs: seq<ItemRequest>): (r: seq<ItemRequest>)
    ensures forall x :: x in r <==> x in qs && RequestMatches(caller, f, rows, x)
  {
    Filter(qs, RequestSelector(caller, f, rows))
  }

  /** A caller with role "user" sees only its own requests, whatever the filters say. */
  lemma UserSeesOnlyOwnRequests(caller: User, f: RequestFilter, rows: seq<ItemRow>, qs: seq<ItemRequest>)
    requires caller.IsUser()
    ensures forall x :: x in RequestIndex(caller, f, rows, qs) ==> x.userId == caller.id
  {
  }

  /** For a caller that cannot manage inventory the requester filter changes nothing. */
  lemma RequesterFilterIgnoredForNonManagers(caller: User, f: RequestFilter, rows: seq<ItemRow>, qs: seq<ItemRequest>)
    requires !caller.CanManageInventory()
    ensures RequestIndex(caller, f, rows, qs) == RequestIndex(caller, f.(userId := None), rows, qs)
  {
    FilterCongruent(qs, RequestSelector(caller, f, rows), RequestSelector(caller, f.(userId := None), rows));
  }

  /** A manager with no filter filled in sees every request, in table order. */
  lemma ManagerSeesAllRequests(caller: User, rows: seq<ItemRow>, qs: seq<ItemRequest>)
    requires caller.CanManageInventory()
    ensures RequestIndex(caller, RequestFilter(None, None, None), rows, qs) == qs
  {
    FilterAll(qs, RequestSelector(caller, RequestFilter(None, None, None), rows));
  }

  /** With no filter filled in, the item listing shows every item. */
  lemma UnfilteredItemIndex(rows: seq<ItemRow>)
    ensures ItemIndex(ItemFilter(None, None, None), rows) == rows
  {
    FilterAll(rows, ItemSelector(ItemFilter(None, None, None)));
  }

  /** A blank filter value is ignored: it selects the same rows as no value at all. */
  lemma BlankSearchIgnored(f: ItemFilter, rows: seq<ItemRow>)
    requires f.search.Some? && IsBlank(f.search.value)
    ensures ItemIndex(f, rows) == ItemIndex(f.(search := None), rows)
  {
    FilterCongruent(rows, ItemSelector(f), ItemSelector(f.(search := None)));
  }
}
