/** The component's state outside the render: the browser storage it writes
    the reorder payload to, the router it navigates with, and the order whose
    detail dialog is open. */
module Reorder {
  import opened Wrappers
  import opened OrderModel

  /** The storage key the ordering page reads the payload from. */
  const PendingReorderKey: string := "pendingReorder"

  /** What is stored for a reorder: the line items and the merchant id. */
  datatype Payload = Payload(items: seq<LineItem>, companyId: string)

  /** The merchant slug when it is usable for navigation (`order.company?.slug`
      is truthy): the company is present and its slug present and non-empty. */
  function ReorderSlug(order: Order): (r: Option<string>)
    ensures r.Some? <==> order.company.Some? && Truthy(order.company.value.slug)
    ensures r.Some? ==> r.value != "" && Some(r.value) == order.company.value.slug
  {
    match order.company
    case None => None
    case Some(c) => if Truthy(c.slug) then c.slug else None
  }

  /** The payload built from an order: its items, unchanged, and its merchant id. */
  function PayloadOf(order: Order): (p: Payload)
    ensures p.items == order.items && p.companyId == order.companyId
  {
    Payload(order.items, order.companyId)
  }

  /** The path of the merchant's menu page. */
  function MenuPath(slug: string): (p: string)
    ensures |p| == |slug| + 1 && p[0] == '/' && p[1..] == slug
  {
    "/" + slug
  }

  class OrderHistoryView {
    /** Stands for `localStorage`, the values already deserialized. */
    var storage: map<string, Payload>
    /** Stands for the router: every path pushed, oldest first. */
    var navigatedTo: seq<string>
    /** The order shown in the detail dialog, if any. */
    var selectedOrder: Option<Order>

    /** A freshly rendered list over an existing storage: nothing navigated,
        no dialog open. */
    constructor (storage: map<string, Payload>)
      ensures this.storage == storage
      ensures navigatedTo == [] && selectedOrder == None
    {
      this.storage := storage;
      navigatedTo := [];
      selectedOrder := None;
    }

    /** Whether the detail dialog is open. */
    predicate DialogOpen()
      reads this
      ensures DialogOpen() <==> selectedOrder != None
    {
      selectedOrder.Some?
    }

    /** `handleReorder`: with a usable slug, overwrite the pending-reorder
        entry, whatever it held, and navigate to the merchant's page;
        without one, do nothing at all. */
    method HandleReorder(order: Order)
      modifies this
      ensures selectedOrder == old(selectedOrder)
      ensures ReorderSlug(order).Some? ==>
        && storage == old(storage)[PendingReorderKey := PayloadOf(order)]
        && navigatedTo == old(navigatedTo) + [MenuPath(ReorderSlug(order).value)]
      ensures ReorderSlug(order).Some? ==>
        forall k :: k != PendingReorderKey ==>
          (k in storage <==> k in old(storage)) && (k in storage ==> storage[k] == old(storage)[k])
      ensures ReorderSlug(order).None? ==>
        storage == old(storage) && navigatedTo == old(navigatedTo)
    {
      var slug := ReorderSlug(order);
      if slug.Some? {
        storage := storage[PendingReorderKey := PayloadOf(order)];
        navigatedTo := navigatedTo + [MenuPath(slug.value)];
      }
    }

    /** The "Detalhes" button: open the dialog on `order`. */
    method ShowDetails(order: Order)
      modifies this
      ensures selectedOrder == Some(order) && DialogOpen()
      ensures storage == old(storage) && navigatedTo == old(navigatedTo)
    {
      selectedOrder := Some(order);
    }

    /** The dialog's `onOpenChange`: a request to close clears the
        selection; a request to open changes nothing. */
    method OnOpenChange(open: bool)
      modifies this
      ensures selectedOrder == if open then old(selectedOrder) else None
      ensures !open ==> !DialogOpen()
      ensures storage == old(storage) && navigatedTo == old(navigatedTo)
    {
      if !open {
        selectedOrder := None;
      }
    }
  }

  /** Two reorders in a row: the second one's payload is what remains
      stored (last write wins), every other key and the selection are kept,
      and both merchant pages were visited. */
  method ReorderTwice(view: OrderHistoryView, first: Order, second: Order)
    requires ReorderSlug(first).Some? && ReorderSlug(second).Some?
    modifies view
    ensures PendingReorderKey in view.storage
    ensures view.storage[PendingReorderKey] == PayloadOf(second)
    ensures view.storage == old(view.storage)[PendingReorderKey := PayloadOf(second)]
    ensures view.selectedOrder == old(view.selectedOrder)
    ensures view.navigatedTo == old(view.navigatedTo)
      + [MenuPath(ReorderSlug(first).value), MenuPath(ReorderSlug(second).value)]
  {
    view.HandleReorder(first);
    view.HandleReorder(second);
  }
}
