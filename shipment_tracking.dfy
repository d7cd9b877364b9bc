/**
 * The shipment tracking page (ShipmentTrackingPage.tsx): the status labels and badge
 * classes, the status filter, the item total of a shipment, and the timeline and
 * actions of the details dialog, all derived from the shipment's status string.
 */
module ShipmentTracking {
  import opened Seqs

  datatype ShipmentItem = ShipmentItem(productId: int, productTitle: string, quantity: int)

  /** A shipment as listed; `status` is the string the server sent. */
  datatype Shipment = Shipment(id: int, status: string, trackingNumber: string, destinationWarehouse: string,
                               items: seq<ShipmentItem>)

  /** The five statuses the page knows. */
  predicate KnownStatus(status: string) {
    status == "draft" || status == "pending" || status == "in_transit" || status == "delivered" ||
    status == "cancelled"
  }

  /** `getStatusLabel`: the Portuguese label of a known status, an unknown one as it is. */
  function StatusLabel(status: string): (text: string)
    ensures !KnownStatus(status) ==> text == status
  {
    match status
    case "draft" => "Rascunho"
    case "pending" => "Pendente"
    case "in_transit" => "Em Trânsito"
    case "delivered" => "Entregue"
    case "cancelled" => "Cancelado"
    case _ => status
  }

  /** `getStatusClass`: the badge class of a known status, `''` for any other. */
  function StatusClass(status: string): (cls: string)
    ensures cls == "" <==> !KnownStatus(status)
  {
    match status
    case "draft" => "status-draft"
    case "pending" => "status-pending"
    case "in_transit" => "status-in-transit"
    case "delivered" => "status-delivered"
    case "cancelled" => "status-cancelled"
    case _ => ""
  }

  /**
   * Known statuses get distinct labels and distinct classes, so the badge tells them
   * apart; a known status is never shown as its raw value.
   */
  lemma LabelsDistinguishStatuses(s: string, t: string)
    requires KnownStatus(s) && KnownStatus(t)
    ensures StatusLabel(s) == StatusLabel(t) <==> s == t
    ensures StatusClass(s) == StatusClass(t) <==> s == t
    ensures StatusLabel(s) != s
  {
  }

  /** `getTotalItems`: the sum of the item quantities. */
  function TotalItems(shipment: Shipment): int {
    SumBy(shipment.items, (item: ShipmentItem) => item.quantity)
  }

  /** With positive quantities, the total is at least the number of items and at least any one quantity. */
  lemma {:induction false} TotalItemsBounds(items: seq<ShipmentItem>)
    requires forall i :: 0 <= i < |items| ==> items[i].quantity >= 1
    ensures SumBy(items, (item: ShipmentItem) => item.quantity) >= |items|
    ensures forall i :: 0 <= i < |items| ==> items[i].quantity <= SumBy(items, (item: ShipmentItem) => item.quantity)
  {
    if |items| > 0 {
      TotalItemsBounds(items[1..]);
      forall i | 0 < i < |items|
        ensures items[i].quantity <= SumBy(items, (item: ShipmentItem) => item.quantity)
      {
        assert items[i] == items[1..][i - 1];
      }
    }
  }

  /** `filteredShipments`: every shipment for `'all'`, else those whose status is the selection. */
  function FilteredShipments(shipments: seq<Shipment>, statusFilter: string): (r: seq<Shipment>)
    ensures statusFilter == "all" ==> r == shipments
    ensures statusFilter != "all" ==> forall i :: 0 <= i < |r| ==> r[i].status == statusFilter
  {
    if statusFilter == "all" then shipments
    else Filter(shipments, (s: Shipment) => s.status == statusFilter)
  }

  /**
   * Any selection other than `'all'` keeps exactly the shipments with that status, each
   * as often as listed, and in the listed order (the kept ones are the listed ones
   * with the others taken out).
   */
  lemma FilteredShipmentsSpec(shipments: seq<Shipment>, statusFilter: string, left: seq<Shipment>, right: seq<Shipment>)
    requires statusFilter != "all"
    ensures forall s :: s in FilteredShipments(shipments, statusFilter) <==> s in shipments && s.status == statusFilter
    ensures FilteredShipments(left + right, statusFilter) ==
      FilteredShipments(left, statusFilter) + FilteredShipments(right, statusFilter)
  {
    var p := (s: Shipment) => s.status == statusFilter;
    forall s ensures s in Filter(shipments, p) <==> s in shipments && p(s) {
      FilterMembers(shipments, p, s);
    }
    FilterAppend(left, right, p);
  }

  /** The four steps of the details timeline. */
  datatype Step = Created | Pending | InTransit | Delivered

  function StepIndex(step: Step): nat {
    match step
    case Created => 0
    case Pending => 1
    case InTransit => 2
    case Delivered => 3
  }

  /** Whether a step is drawn as completed, by the class expressions of each step. */
  predicate StepCompleted(status: string, step: Step) {
    match step
    case Created => status != "cancelled"
    case Pending => status == "pending" || status == "in_transit" || status == "delivered"
    case InTransit => status == "in_transit" || status == "delivered"
    case Delivered => status == "delivered"
  }

  /** How far a status has come: the number of completed steps. */
  function Progress(status: string): nat {
    match status
    case "cancelled" => 0
    case "pending" => 2
    case "in_transit" => 3
    case "delivered" => 4
    case _ => 1
  }

  /**
   * The timeline is monotone: the completed steps are exactly the first `Progress`
   * ones, so a later step is never completed before an earlier one, and a cancelled
   * shipment has none.
   */
  lemma TimelineIsPrefix(status: string, step: Step)
    ensures StepCompleted(status, step) <==> StepIndex(step) < Progress(status)
    ensures status == "cancelled" ==> !StepCompleted(status, step)
  {
  }

  /** Consequence of the prefix shape: a completed step implies every earlier one. */
  lemma TimelineMonotone(status: string, earlier: Step, later: Step)
    requires StepIndex(earlier) <= StepIndex(later)
    requires StepCompleted(status, later)
    ensures StepCompleted(status, earlier)
  {
    TimelineIsPrefix(status, earlier);
    TimelineIsPrefix(status, later);
  }

  /** The buttons of the dialog's footer. */
  datatype Action = Edit | Confirm | Cancel | Close

  function Actions(status: string): (r: set<Action>)
    ensures Close in r
    ensures Edit in r <==> status == "draft"
    ensures Confirm in r <==> status == "draft"
    ensures Cancel in r <==> status == "pending"
  {
    (if status == "draft" then {Edit, Confirm} else {}) +
    (if status == "pending" then {Cancel} else {}) + {Close}
  }

  /**
   * A shipment can be edited or confirmed only before it leaves draft, and cancelled
   * only while pending, so no status offers both; a shipment on its way or finished
   * offers only closing the dialog.
   */
  lemma ActionsFollowTimeline(status: string)
    ensures !(Edit in Actions(status) && Cancel in Actions(status))
    ensures Edit in Actions(status) ==> Progress(status) == 1 && !StepCompleted(status, Pending)
    ensures Cancel in Actions(status) ==> StepCompleted(status, Pending) && !StepCompleted(status, InTransit)
    ensures StepCompleted(status, InTransit) || status == "cancelled" ==> Actions(status) == {Close}
  {
  }
}
