/** What a run of the order protocol means for an order: what it took from the shelf, what its report says, and what its
    customer sees. */
module ProtocolMeaning {
  import opened Basics
  import opened CommitDomain
  import opened CommitDecision
  import opened OrderingDomain
  import opened OrderingStore
  import Inventory = InventoryStore
  import opened CommitMeaning
  import opened OrderingMeaning
  import opened Protocol
  import opened ProtocolInvariant
  import opened ProtocolExchange
  import opened ProtocolTheorems

  /** The item of an order line: its identifier, product and quantity. */
  ghost predicate ItemsOf(items: seq<Line>, lines: seq<OrderLine>) {
    && |items| == |lines|
    && forall i :: 0 <= i < |lines| ==> items[i] == Line(lines[i].id, lines[i].productId, lines[i].quantity)
  }

  lemma ItemsAreOfLines(items: seq<Line>, lines: seq<OrderLine>)
    requires ItemsOf(items, lines)
    ensures items == Items(lines) && forall item :: item in items ==> item.quantity >= 0
  {
    ItemsAreLines(lines);
  }

  /** What an order's receipt, movements and operation say, on the tables the adapter held when it decided: everything
      was taken that the order's lines take, and nothing was short; or nothing was taken, and the operation keeps the
      report of the lines that were short. */
  ghost predicate DecidedAs(
    confirmed: bool, operation: Operation, moved: int, pos: Pos, items: seq<Line>, takes: Id -> seq<nat>, id: Id)
  {
    if confirmed then
      && (forall line :: line in items ==> !Short(pos, line, takes))
      && moved == 0 - Total(takes(id)) && operation.unavailableItems == []
    else
      && (exists line :: line in items && Short(pos, line, takes))
      && moved == 0 && ReportsShortLines(pos, items, takes, operation.unavailableItems)
  }

  /** In every state of every run: an order is confirmed only if, when the adapter decided, no line of it was short, and
      then it took exactly what its lines take; it is rejected only if some line was short, and then it took nothing and
      its operation reports exactly the short lines. */
  lemma ResolvedOrdersAreDecidedRight(
    states: seq<System>, actions: seq<Action>, i: nat, op: Id, items: seq<Line>, takes: Id -> seq<nat>, id: Id)
    requires IsRun(states, actions) && i < |states| && op in states[i].ord.operations
    requires states[i].ord.operations[op].orderId in states[i].ord.orders
    requires !states[i].ord.orders[states[i].ord.operations[op].orderId].status.Submitted?
    requires ItemsOf(items, states[i].ord.orders[states[i].ord.operations[op].orderId].lines)
    requires op in states[i].decidedOn ==> AllTaken(states[i].decidedOn[op], items, takes)
    ensures DecidedInTheRun(states, actions, i, op)
    ensures var s := states[i]; var operation := s.ord.operations[op];
      DecidedAs(s.ord.orders[operation.orderId].status.Confirmed?, operation, MovedBy(s.inv, op, id), s.decidedOn[op],
                items, takes, id)
  {
    var s := states[i];
    ExactlyOnce(states, actions, i, op, id);
    ItemsAreOfLines(items, s.ord.orders[s.ord.operations[op].orderId].lines);
    RunKeepsInv(states, actions, i);
    StoredReport(s, op, items);
    var pos := s.decidedOn[op];
    RejectedWhenShort(pos, items, takes);
    DemandIsTotal(pos, items, id, takes(id));
    if s.inv.receipts[op].result.status.ItemsUnavailable? {
      ReportIsOfShortLines(pos, items, takes, s.ord.operations[op].unavailableItems);
    }
  }

  /** A resolved operation keeps its receipt's report. */
  lemma StoredReport(s: System, op: Id, items: seq<Line>)
    requires Inv(s) && op in s.ord.operations && op in s.inv.receipts && op in s.decidedOn
    requires s.ord.operations[op].orderId in s.ord.orders
    requires !s.ord.orders[s.ord.operations[op].orderId].status.Submitted?
    requires items == Items(s.ord.orders[s.ord.operations[op].orderId].lines)
    ensures s.inv.receipts[op].result.status.ItemsUnavailable? ==>
      IsReport(s.decidedOn[op], items, s.ord.operations[op].unavailableItems)
    ensures s.inv.receipts[op].result.status.Committed? ==> s.ord.operations[op].unavailableItems == []
  {
    assert LayerHolds(OrderingLayer, s) && LayerHolds(InventoryLayer, s) && LayerHolds(ExchangeLayer, s);
    assert InStep(s.ord, op);
    RequestCarriesOrderLines(s.callers, s.ord, op);
    assert ReceiptAt(s.inv.receipts, s.decidedOn, s.ord.outbox, op);
    StoredReportOf(s.ord.operations[op], s.inv.receipts[op], op, s.ord.outbox[op].payload, s.decidedOn[op]);
  }

  lemma StoredReportOf(operation: Operation, receipt: Inventory.Receipt, op: Id, request: CommitCommand, pos: Pos)
    requires SameResult(operation, receipt.result) && ReceiptBacked(receipt, op, request, pos)
    ensures receipt.result.status.ItemsUnavailable? ==> IsReport(pos, request.lines, operation.unavailableItems)
    ensures receipt.result.status.Committed? ==> operation.unavailableItems == []
  {
  }

  // ----- What the customer sees -----

  /** In every state of every run the customer of an order sees that it was rejected exactly when its operation resolved
      to ITEMS_UNAVAILABLE; that it is on the way exactly after one advance and that it was delivered exactly after two;
      and otherwise, be it undecided or not advanced yet, that it is being prepared. */
  lemma CustomerSeesTheDecision(states: seq<System>, actions: seq<Action>, i: nat, op: Id)
    requires IsRun(states, actions) && i < |states| && op in states[i].ord.operations
    ensures var t := states[i].ord; var o := t.operations[op].orderId;
      && o in t.orders
      && var seen, advances := CustomerStateAt(t, o), CountAudits(t.audits, FulfillmentAdvanced, o);
         && (seen == Some(CustomerRejected) <==> t.operations[op].status == Resolved(ItemsUnavailable))
         && (seen == Some(CustomerPreparing) <==>
               t.operations[op].status != Resolved(ItemsUnavailable) && advances == 0)
         && (seen == Some(OnTheWay) <==> advances == 1)
         && (seen == Some(CustomerDelivered) <==> advances == 2)
         && advances <= 2
  {
    RunKeepsInv(states, actions, i);
    assert LayerHolds(OrderingLayer, states[i]);
    assert InStep(states[i].ord, op);
    assert OrderInStep(states[i].ord, states[i].ord.operations[op].orderId);
  }
}
