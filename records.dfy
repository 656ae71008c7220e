/** Receipts and dispatches: plain rows of the incoming_items and outgoing_items tables
    (app/Models/IncomingItem.php, app/Models/OutgoingItem.php). */
module Records {
  import opened Base

  /** The `site` enumeration of the outgoing_items table. */
  const Sites: set<string> := {"project_a", "project_b", "project_c"}

  /** A delivery received into stock: delivery note number, RKM number, the item, the
      quantity and its unit, who recorded it and when. */
  datatype IncomingItem = IncomingItem(
    id: nat,
    noSj: string,
    noRkm: string,
    itemId: nat,
    quantity: int,
    unit: string,
    createdBy: nat,
    createdAt: Moment)

  /** A shipment out of stock to a project site. */
  datatype OutgoingItem = OutgoingItem(
    id: nat,
    noSj: string,
    site: string,
    itemId: nat,
    quantity: int,
    unit: string,
    createdBy: nat,
    createdAt: Moment)
}
