/** The inductive invariant of the order protocol, in layers that each speak of the tables they need. */
module ProtocolInvariant {
  import opened Basics
  import opened CommitDomain
  import opened CommitDecision
  import opened OrderingDomain
  import opened OrderingStore
  import Inventory = InventoryStore
  import opened CommitTheorems
  import opened Canonical
  import opened Protocol

  // ----- Callers and their drafts -----

  ghost predicate Drafts(callers: map<Id, Caller>) {
    && (forall o :: o in callers ==> callers[o].draft.orderId == o && ValidDraft(callers[o].draft))
    && (forall o, p :: o in callers && p in callers && o != p ==> Disjoint(callers[o].draft, callers[p].draft))
  }

  // ----- One order, one operation, one outbox row -----

  /** An order was inserted by its own caller, with its operation. */
  ghost predicate OrderBacked(callers: map<Id, Caller>, t: Tables, o: Id) {
    && o in t.orders && o in callers
    && callers[o].stage == Answered(Placed(o, false))
    && var draft := callers[o].draft;
       && t.orders[o] == OrderRow(draft).(status := t.orders[o].status)
       && draft.operationId in t.operations && t.operations[draft.operationId].orderId == o
  }

  /** An operation belongs to one order and its outbox row carries that order's request. */
  ghost predicate OperationBacked(callers: map<Id, Caller>, t: Tables, op: Id) {
    && op in t.operations && op in t.outbox
    && var o := t.operations[op].orderId;
       && o in t.orders && o in callers && callers[o].draft.operationId == op
       && t.outbox[op].orderId == o
       && t.outbox[op].eventId == callers[o].draft.eventId
       && t.outbox[op].payload == RequestOf(callers[o].draft)
  }

  ghost predicate Backed(callers: map<Id, Caller>, t: Tables) {
    && (forall o :: o in t.orders ==> OrderBacked(callers, t, o))
    && (forall op :: op in t.operations ==> OperationBacked(callers, t, op))
    && t.outbox.Keys == t.operations.Keys
  }

  ghost predicate AnswerBacked(caller: Id, callers: map<Id, Caller>, orders: map<Id, Order>) {
    caller in callers && callers[caller].stage.Answered? && callers[caller].stage.answer.Placed? ==>
      var answer, draft := callers[caller].stage.answer, callers[caller].draft;
      && (answer.replayed || answer.orderId == caller)
      && answer.orderId in orders
      && orders[answer.orderId].checkoutId == draft.checkoutId
      && orders[answer.orderId].fingerprint == draft.fingerprint
      && orders[answer.orderId].customerId == draft.customerId
  }

  ghost predicate Answers(callers: map<Id, Caller>, orders: map<Id, Order>) {
    forall caller :: caller in callers ==> AnswerBacked(caller, callers, orders)
  }

  ghost predicate OneOrderPerCheckout(orders: map<Id, Order>) {
    forall o, p :: o in orders && p in orders && orders[o].checkoutId == orders[p].checkoutId ==> o == p
  }

  // ----- The life of an order across the tables -----

  function CountAudits(audits: seq<Audit>, action: AuditAction, o: Id): nat {
    if audits == [] then 0
    else CountAudits(audits[..|audits| - 1], action, o) + (if audits[|audits| - 1] == Audit(action, o) then 1 else 0)
  }

  ghost predicate InStep(t: Tables, op: Id) {
    && op in t.operations && op in t.outbox && t.operations[op].orderId in t.orders
    && var status, row, order := t.operations[op].status, t.outbox[op], t.orders[t.operations[op].orderId];
       && (order.status.Submitted? <==> status.Pending?)
       && (order.status.Confirmed? <==> status == Resolved(Committed))
       && (order.status.Rejected? <==> status == Resolved(ItemsUnavailable))
       && (row.publishedAt.Some? <==> !status.Pending?)
       && (t.operations[op].resultEventId.Some? <==> !status.Pending?)
       && (row.claimToken.Some? <==> row.lockedAt.Some?)
       && (row.publishedAt.Some? ==> row.claimToken.None?)
  }

  ghost predicate FulfillmentInStep(f: Fulfillment, advances: nat) {
    && f.version == (match f.status case Preparing => 1 case Delivering => 2 case Delivered => 3)
    && f.version == 1 + advances
    && (f.deliveringAt.None? <==> f.status.Preparing?)
  }

  ghost predicate OrderInStep(t: Tables, o: Id) {
    && (o in t.fulfillments <==> o in t.orders && t.orders[o].status.Confirmed?)
    && (o in t.fulfillments ==> FulfillmentInStep(t.fulfillments[o], CountAudits(t.audits, FulfillmentAdvanced, o)))
    && (o !in t.fulfillments ==> CountAudits(t.audits, FulfillmentAdvanced, o) == 0)
    && CountAudits(t.audits, InventoryCommitted, o) == (if o in t.orders && t.orders[o].status.Confirmed? then 1 else 0)
    && CountAudits(t.audits, OrderRejected, o) == (if o in t.orders && t.orders[o].status.Rejected? then 1 else 0)
  }

  ghost predicate Lifecycle(t: Tables) {
    (forall op :: op in t.operations ==> InStep(t, op)) && (forall o :: OrderInStep(t, o))
  }

  // ----- Claims -----

  ghost function ClaimsOn(claims: set<ClaimedWork>, op: Id): set<ClaimedWork> {
    set c | c in claims && c.commit.operationId == op
  }

  ghost predicate ClaimBacked(c: ClaimedWork, outbox: map<Id, OutboxRow>) {
    && c.commit.operationId in outbox
    && c.commit == outbox[c.commit.operationId].payload
    && 1 <= c.attemptCount <= outbox[c.commit.operationId].attemptCount
  }

  /** As many claims as attempts, and the token on a locked row is the one of the latest claim. */
  ghost predicate RowCounted(claims: set<ClaimedWork>, op: Id, row: OutboxRow) {
    && |ClaimsOn(claims, op)| == row.attemptCount
    && (row.claimToken.Some? ==> ClaimedWork(row.payload, row.claimToken.value, row.attemptCount) in claims)
  }

  ghost predicate Claiming(claims: set<ClaimedWork>, outbox: map<Id, OutboxRow>) {
    && (forall op :: op in outbox ==> outbox[op].payload.operationId == op)
    && (forall c :: c in claims ==> ClaimBacked(c, outbox))
    && (forall c, d :: c in claims && d in claims && c.claimToken == d.claimToken ==> c == d)
    && (forall op :: op in outbox ==> RowCounted(claims, op, outbox[op]))
  }

  // ----- Receipts and replies -----

  ghost predicate ReceiptBacked(receipt: Inventory.Receipt, op: Id, request: CommitCommand, pos: Pos) {
    && ValidCommand(request) && request.operationId == op
    && receipt.requestEventId == request.eventId && receipt.orderId == request.orderId
    && receipt.fingerprint == CanonicalText(request)
    && ValidResult(receipt.result) && AcceptableReply(receipt.result, request)
    && receipt.result == Inventory.Decide(pos, request, receipt.result.eventId, receipt.result.occurredAt)
  }

  ghost predicate ReceiptAt(
    receipts: map<Id, Inventory.Receipt>, decidedOn: map<Id, Pos>, outbox: map<Id, OutboxRow>, op: Id)
  {
    && op in receipts && op in decidedOn && op in outbox
    && ReceiptBacked(receipts[op], op, outbox[op].payload, decidedOn[op])
  }

  ghost predicate AllBacked(receipts: map<Id, Inventory.Receipt>, decidedOn: map<Id, Pos>, outbox: map<Id, OutboxRow>) {
    decidedOn.Keys == receipts.Keys && forall op :: op in receipts ==> ReceiptAt(receipts, decidedOn, outbox, op)
  }

  ghost predicate ResultEventsUnique(receipts: map<Id, Inventory.Receipt>) {
    forall a, b :: a in receipts && b in receipts && receipts[a].result.eventId == receipts[b].result.eventId ==> a == b
  }

  ghost predicate Receipts(receipts: map<Id, Inventory.Receipt>, decidedOn: map<Id, Pos>, outbox: map<Id, OutboxRow>) {
    AllBacked(receipts, decidedOn, outbox) && ResultEventsUnique(receipts)
  }

  ghost predicate ReplyBacked(r: Reply, claims: set<ClaimedWork>, receipts: map<Id, Inventory.Receipt>) {
    && r.claim in claims && r.claim.commit.operationId in receipts
    && receipts[r.claim.commit.operationId].result == r.result
  }

  ghost predicate Replies(replies: set<Reply>, claims: set<ClaimedWork>, receipts: map<Id, Inventory.Receipt>) {
    forall r :: r in replies ==> ReplyBacked(r, claims, receipts)
  }

  ghost predicate Results(operations: map<Id, Operation>, receipts: map<Id, Inventory.Receipt>) {
    forall op :: op in operations && !operations[op].status.Pending? ==>
      op in receipts && SameResult(operations[op], receipts[op].result)
  }

  // ----- Stock -----

  /** The movements one operation made. */
  function MovementsOf(movements: seq<Inventory.Movement>, op: Id): seq<Inventory.Movement> {
    if movements == [] then []
    else
      var last := movements[|movements| - 1];
      MovementsOf(movements[..|movements| - 1], op) + (if last.operationId == op then [last] else [])
  }

  /** None, or exactly the aggregated demand of the order's lines on the tables it was decided on. */
  ghost predicate MovedOnce(
    movements: seq<Inventory.Movement>, receipts: map<Id, Inventory.Receipt>, decidedOn: map<Id, Pos>,
    outbox: map<Id, OutboxRow>, op: Id)
  {
    MovementsOf(movements, op) ==
      if op in receipts && op in decidedOn && op in outbox && receipts[op].result.status.Committed?
      then Inventory.SaleMovements(decidedOn[op], outbox[op].payload, receipts[op].result.occurredAt)
      else []
  }

  ghost predicate Movements(
    movements: seq<Inventory.Movement>, receipts: map<Id, Inventory.Receipt>, decidedOn: map<Id, Pos>,
    outbox: map<Id, OutboxRow>)
  {
    forall op :: MovedOnce(movements, receipts, decidedOn, outbox, op)
  }

  ghost predicate Accounted(inv: Inventory.Database, start: Pos, outside: map<Id, int>, id: Id) {
    Stock(inv.pos, id) == Stock(start, id) + Get(outside, id) + Moved(inv.movements, id)
  }

  ghost predicate StockAccounted(inv: Inventory.Database, start: Pos, outside: map<Id, int>) {
    forall id :: Accounted(inv, start, outside, id)
  }

  // ----- All layers -----

  ghost predicate OrderingInv(s: System) {
    && Drafts(s.callers)
    && Backed(s.callers, s.ord)
    && Answers(s.callers, s.ord.orders)
    && OneOrderPerCheckout(s.ord.orders)
    && Lifecycle(s.ord)
  }

  ghost predicate InventoryInv(s: System) {
    && Receipts(s.inv.receipts, s.decidedOn, s.ord.outbox)
    && Movements(s.inv.movements, s.inv.receipts, s.decidedOn, s.ord.outbox)
    && StockAccounted(s.inv, s.start, s.outside)
  }

  ghost predicate ExchangeInv(s: System) {
    && Claiming(s.claims, s.ord.outbox)
    && Replies(s.replies, s.claims, s.inv.receipts)
    && Results(s.ord.operations, s.inv.receipts)
  }

  datatype Layer = OrderingLayer | InventoryLayer | ExchangeLayer

  ghost predicate LayerHolds(layer: Layer, s: System) {
    match layer
    case OrderingLayer => OrderingInv(s)
    case InventoryLayer => InventoryInv(s)
    case ExchangeLayer => ExchangeInv(s)
  }

  /** Every layer holds; a proof names the layers it needs. */
  ghost predicate Inv(s: System) {
    forall layer :: LayerHolds(layer, s)
  }

  lemma LayersMakeInv(s: System)
    ensures OrderingInv(s) && InventoryInv(s) && ExchangeInv(s) ==> Inv(s)
  {
    if OrderingInv(s) && InventoryInv(s) && ExchangeInv(s) {
      forall layer
        ensures LayerHolds(layer, s)
      {
      }
    }
  }
}
