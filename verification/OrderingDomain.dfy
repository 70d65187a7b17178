/** Orders, fulfillments and checkout drafts of the ordering service. */
module OrderingDomain {
  import opened Basics
  import opened CommitDomain

  datatype OrderStatus = Submitted | Confirmed | Rejected

  datatype FulfillmentStatus = Preparing | Delivering | Delivered

  datatype CustomerState = CustomerPreparing | OnTheWay | CustomerDelivered | CustomerRejected

  datatype Fulfillment = Fulfillment(status: FulfillmentStatus, version: nat, deliveringAt: Option<Instant>)

  datatype OrderLine = OrderLine(id: Id, productId: Id, unitPrice: nat, quantity: nat, lineTotal: nat)

  datatype PayloadLine = PayloadLine(productId: Id, quantity: nat, expectedUnitPrice: nat)

  /** What the checkout fingerprint hashes; the JSON encoding and SHA-256 are taken to be injective. */
  datatype CheckoutPayload = CheckoutPayload(customerId: Id, address: string, notes: string, lines: seq<PayloadLine>)

  datatype Draft = Draft(
    orderId: Id, checkoutId: Id, fingerprint: CheckoutPayload, customerId: Id, eventId: Id, operationId: Id,
    occurredAt: Instant, lines: seq<OrderLine>)

  /** What a customer sees; `None` is the invalid-transition error. */
  function CustomerStateOf(status: OrderStatus, fulfillment: Option<Fulfillment>): Option<CustomerState> {
    match status
    case Submitted => Some(CustomerPreparing)
    case Rejected => Some(CustomerRejected)
    case Confirmed =>
      match fulfillment
      case None => None
      case Some(f) =>
        match f.status
        case Preparing => Some(CustomerPreparing)
        case Delivering => Some(OnTheWay)
        case Delivered => Some(CustomerDelivered)
  }

  function NextAction(status: FulfillmentStatus): Option<FulfillmentStatus> {
    match status
    case Preparing => Some(Delivering)
    case Delivering => Some(Delivered)
    case Delivered => None
  }

  predicate ValidTarget(current: FulfillmentStatus, target: FulfillmentStatus) {
    || (current == target && !current.Preparing?)
    || (current.Preparing? && target.Delivering?)
    || (current.Delivering? && target.Delivered?)
  }

  /** The inventory items of an order's lines. */
  function Items(lines: seq<OrderLine>): seq<Line> {
    if lines == [] then []
    else
      var last := lines[|lines| - 1];
      Items(lines[..|lines| - 1]) + [Line(last.id, last.productId, last.quantity)]
  }

  lemma {:induction false} ItemsAreLines(lines: seq<OrderLine>)
    ensures |Items(lines)| == |lines|
    ensures forall i :: 0 <= i < |lines| ==> Items(lines)[i] == Line(lines[i].id, lines[i].productId, lines[i].quantity)
  {
    if lines != [] {
      ItemsAreLines(lines[..|lines| - 1]);
    }
  }

  /** The payload written to the outbox for a draft. */
  function RequestOf(draft: Draft): CommitCommand {
    CommitCommand(SCHEMA_VERSION, draft.eventId, draft.operationId, draft.orderId, draft.occurredAt, Items(draft.lines))
  }

  /** What the application service guarantees about every draft it hands to the store. */
  ghost predicate ValidDraft(draft: Draft) {
    ValidCommand(RequestOf(draft))
  }
}
