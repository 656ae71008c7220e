/** The item request record and its status predicates (app/Models/ItemRequest.php). */
module Requests {
  import opened Base

  /** The statuses the workflow writes: the initial one and the two decisions. */
  const Statuses: set<string> := {"pending", "approved", "rejected"}

  /** A row of the item_requests table. `approvedBy` and `approvedAt` are stamped by a
      decision, approve or reject alike. */
  datatype ItemRequest = ItemRequest(
    id: nat,
    userId: nat,
    itemId: nat,
    quantity: int,
    unit: string,
    status: string,
    notes: Option<string>,
    approvedBy: Option<nat>,
    approvedAt: Option<Moment>,
    createdAt: Moment)
  {
    predicate IsPending() { status == "pending" }

    predicate IsApproved() { status == "approved" }

    predicate IsRejected() { status == "rejected" }
  }

  /** No status satisfies two of the predicates. */
  lemma AtMostOneStatus(r: ItemRequest)
    ensures !(r.IsPending() && r.IsApproved())
    ensures !(r.IsPending() && r.IsRejected())
    ensures !(r.IsApproved() && r.IsRejected())
  {
  }

  /** A status the workflow writes satisfies exactly one of the predicates. */
  lemma ExactlyOneStatus(r: ItemRequest)
    requires r.status in Statuses
    ensures (if r.IsPending() then 1 else 0) + (if r.IsApproved() then 1 else 0)
          + (if r.IsRejected() then 1 else 0) == 1
  {
  }
}
